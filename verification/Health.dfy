/** The health flag of one backend under a sequential history of outcomes. */
module Health {

  datatype Outcome = Failure | Success

  /** The health fields; the counter is 32 bits wide and wraps. */
  datatype Status = Status(healthy: bool, failCount: int)

  const FRESH := Status(true, 0)

  /** Atomic add of 1 to a signed 32-bit counter. */
  function Increment32(x: int): int {
    if x == 0x7fff_ffff then -0x8000_0000 else x + 1
  }

  /** One recorded outcome. */
  function Record(s: Status, o: Outcome): Status {
    match o
    case Failure =>
      var count := Increment32(s.failCount);
      Status(s.healthy && count < 3, count)
    case Success => Status(true, 0)
  }

  function RecordAll(history: seq<Outcome>): Status {
    if history == [] then FRESH
    else Record(RecordAll(history[..|history| - 1]), history[|history| - 1])
  }

  /** Failures since the last success, or since the start. */
  function Streak(history: seq<Outcome>): nat {
    if history == [] || history[|history| - 1].Success? then 0
    else Streak(history[..|history| - 1]) + 1
  }

  /** A backend is healthy exactly while fewer than three failures follow its last success, however
      far the counter has wrapped. */
  lemma {:induction false} HealthyIffShortStreak(history: seq<Outcome>)
    ensures RecordAll(history).healthy <==> Streak(history) < 3
    ensures RecordAll(history).healthy ==> RecordAll(history).failCount == Streak(history)
  {
    if history != [] {
      HealthyIffShortStreak(history[..|history| - 1]);
    }
  }

  /** The counter is the streak as a signed 32-bit number: it agrees with it up to multiples of 2^32. */
  lemma {:induction false} CounterIsStreak(history: seq<Outcome>)
    ensures -0x8000_0000 <= RecordAll(history).failCount <= 0x7fff_ffff
    ensures (Streak(history) - RecordAll(history).failCount) % 0x1_0000_0000 == 0
  {
    if history != [] {
      CounterIsStreak(history[..|history| - 1]);
    }
  }
}
