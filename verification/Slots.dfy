/** The request slots of one backend, as concurrent threads.

    A slot is a token in a buffered channel.  Sending the token, adding to the active counter,
    receiving a token and subtracting are separate steps.  A reload that changes the capacity puts
    a new, empty channel in place of the old one; a request that waits for a slot, and a release that
    waits for a token, keep to the channel that was in place when they started. */
module Slots {
  import opened Options

  type Tid = nat

  datatype Channel = Channel(cap: nat, len: nat)

  datatype Request =
    | Waiting(ch: nat)     // inside Acquire, not yet admitted
    | Sent                 // token sent, counter not yet raised
    | Holding              // Acquire has returned
    | Releasing(ch: nat)   // inside Release, no token received yet
    | Received             // inside Release, counter not yet lowered

  datatype State = State(channels: seq<Channel>, current: nat, active: int, requests: map<Tid, Request>)

  datatype Step =
    | Call(t: Tid)
    | Send(t: Tid)
    | Expire(t: Tid)
    | Add(t: Tid)
    | Release(t: Tid)
    | Receive(t: Tid)
    | Subtract(t: Tid)
    | Reload(cap: nat)

  predicate OnChannel(r: Request) {
    r.Waiting? || r.Releasing?
  }

  predicate Sane(s: State) {
    s.current < |s.channels| && forall t :: t in s.requests && OnChannel(s.requests[t]) ==> s.requests[t].ch < |s.channels|
  }

  function Shift(s: State, ch: nat, d: int): seq<Channel>
    requires ch < |s.channels| && s.channels[ch].len + d >= 0
  {
    s.channels[ch := s.channels[ch].(len := s.channels[ch].len + d)]
  }

  predicate Is(s: State, t: Tid, r: Request) {
    t in s.requests && s.requests[t] == r
  }

  /** The state after the step, if the step can be taken. */
  function Next(s: State, step: Step): Option<State>
    requires Sane(s)
  {
    match step
    case Call(t) =>
      if t in s.requests then None else Some(s.(requests := s.requests[t := Waiting(s.current)]))
    case Send(t) =>
      if !(t in s.requests && s.requests[t].Waiting?) then None
      else
        var ch := s.requests[t].ch;
        if s.channels[ch].len >= s.channels[ch].cap then None
        else Some(s.(channels := Shift(s, ch, 1), requests := s.requests[t := Sent]))
    case Expire(t) =>
      if !(t in s.requests && s.requests[t].Waiting?) then None else Some(s.(requests := s.requests - {t}))
    case Add(t) =>
      if !Is(s, t, Sent) then None else Some(s.(active := s.active + 1, requests := s.requests[t := Holding]))
    case Release(t) =>
      if !Is(s, t, Holding) then None else Some(s.(requests := s.requests[t := Releasing(s.current)]))
    case Receive(t) =>
      if !(t in s.requests && s.requests[t].Releasing?) then None
      else
        var ch := s.requests[t].ch;
        if s.channels[ch].len == 0 then None
        else Some(s.(channels := Shift(s, ch, -1), requests := s.requests[t := Received]))
    case Subtract(t) =>
      if !Is(s, t, Received) then None else Some(s.(active := s.active - 1, requests := s.requests - {t}))
    case Reload(cap) =>
      if cap == s.channels[s.current].cap then Some(s)
      else Some(s.(channels := s.channels + [Channel(cap, 0)], current := |s.channels|))
  }

  lemma NextSane(s: State, step: Step)
    requires Sane(s) && Next(s, step).Some?
    ensures Sane(Next(s, step).value)
  {
  }

  function Start(cap: nat): State {
    State([Channel(cap, 0)], 0, 0, map[])
  }

  // --------------------------------------------------------------- conservation

  predicate Admits(r: Request) {
    r.Sent? || r.Holding? || r.Releasing?
  }

  predicate Counts(r: Request) {
    r.Holding? || r.Releasing? || r.Received?
  }

  /** Requests between the send and the receive of their token. */
  function Admitted(s: State): set<Tid> {
    set t | t in s.requests && Admits(s.requests[t])
  }

  /** Requests between the addition to and the subtraction from the counter. */
  function Counted(s: State): set<Tid> {
    set t | t in s.requests && Counts(s.requests[t])
  }

  function SentOnly(s: State): set<Tid> {
    set t | t in s.requests && s.requests[t].Sent?
  }

  function ReceivedOnly(s: State): set<Tid> {
    set t | t in s.requests && s.requests[t].Received?
  }

  /** The request will take, or is about to take, its token from channel c. */
  predicate Owes(r: Request, current: nat, c: nat) {
    match r
    case Sent => c == current
    case Holding => c == current
    case Releasing(ch) => c == ch
    case _ => false
  }

  function Owing(s: State, c: nat): set<Tid> {
    set t | t in s.requests && Owes(s.requests[t], s.current, c)
  }

  /** No request waits for a slot or is still to begin its release. */
  predicate Idle(s: State) {
    forall t :: t in s.requests ==> s.requests[t].Releasing? || s.requests[t].Received?
  }

  /** Every channel ever in place holds one token for each request that will take one from it, and no
      more than fit; nobody waits elsewhere than on the channel in place; and the counter counts. */
  ghost predicate Conserved(s: State) {
    && Sane(s)
    && (forall t :: t in s.requests && s.requests[t].Waiting? ==> s.requests[t].ch == s.current)
    && (forall c :: 0 <= c < |s.channels| ==> s.channels[c].len == |Owing(s, c)| <= s.channels[c].cap)
    && s.active == |Counted(s)|
  }

  /** How a thread's move from one stage to another changes the sets. */
  lemma SetsMove(s: State, s': State, t: Tid, r: Option<Request>)
    requires s'.requests == match r case Some(x) => s.requests[t := x] case None => s.requests - {t}
    ensures Admitted(s') == if r.Some? && Admits(r.value) then Admitted(s) + {t} else Admitted(s) - {t}
    ensures Counted(s') == if r.Some? && Counts(r.value) then Counted(s) + {t} else Counted(s) - {t}
  {
  }

  lemma OwingMoves(s: State, s': State, t: Tid, r: Option<Request>, c: nat)
    requires s'.requests == match r case Some(x) => s.requests[t := x] case None => s.requests - {t}
    requires s'.current == s.current
    ensures Owing(s', c) == if r.Some? && Owes(r.value, s.current, c) then Owing(s, c) + {t} else Owing(s, c) - {t}
  {
  }

  /** The move a step makes; `None` as second component means the thread is done. */
  function Moves(s: State, step: Step): Option<(Tid, Option<Request>)>
    requires Sane(s)
  {
    match step
    case Call(t) => Some((t, Some(Waiting(s.current))))
    case Send(t) => Some((t, Some(Sent)))
    case Expire(t) => Some((t, None))
    case Add(t) => Some((t, Some(Holding)))
    case Release(t) => Some((t, Some(Releasing(s.current))))
    case Receive(t) => Some((t, Some(Received)))
    case Subtract(t) => Some((t, None))
    case Reload(_) => None
  }

  function AsInt(b: bool): int { if b then 1 else 0 }

  /** What a step does to its thread and to the channels. */
  lemma MoveMade(s: State, step: Step, s': State)
    requires Sane(s) && Next(s, step) == Some(s') && !step.Reload?
    ensures var (t, r) := Moves(s, step).value;
            && s'.requests == (match r case Some(x) => s.requests[t := x] case None => s.requests - {t})
            && AsInt(r.Some? && Admits(r.value)) - AsInt(t in s.requests && Admits(s.requests[t]))
               == (if step.Send? then 1 else if step.Receive? then -1 else 0)
            && AsInt(r.Some? && Counts(r.value)) - AsInt(t in s.requests && Counts(s.requests[t]))
               == (if step.Add? then 1 else if step.Subtract? then -1 else 0)
    ensures s'.current == s.current && |s'.channels| == |s.channels|
  {
  }

  lemma DebtMoved(s: State, step: Step, s': State, c: nat)
    requires Sane(s) && Next(s, step) == Some(s') && !step.Reload? && c < |s.channels| == |s'.channels|
    requires forall t :: t in s.requests && s.requests[t].Waiting? ==> s.requests[t].ch == s.current
    ensures var (t, r) := Moves(s, step).value;
            AsInt(r.Some? && Owes(r.value, s.current, c)) - AsInt(t in s.requests && Owes(s.requests[t], s.current, c))
            == s'.channels[c].len - s.channels[c].len
  {
  }

  lemma SetsAfter(s: State, step: Step, s': State)
    requires Sane(s) && Next(s, step) == Some(s') && !step.Reload?
    ensures |Admitted(s')| == |Admitted(s)| + (if step.Send? then 1 else if step.Receive? then -1 else 0)
    ensures |Counted(s')| == |Counted(s)| + (if step.Add? then 1 else if step.Subtract? then -1 else 0)
  {
    MoveMade(s, step, s');
    var (t, r) := Moves(s, step).value;
    SetsMove(s, s', t, r);
    Sizes(Admitted(s), t);
    Sizes(Counted(s), t);
  }

  /** Only a send and a receive change what a channel is owed, and only on their own channel. */
  lemma OwingAfter(s: State, step: Step, s': State, c: nat)
    requires Conserved(s) && Next(s, step) == Some(s') && !step.Reload? && c < |s.channels|
    ensures |s'.channels| == |s.channels| && s'.current == s.current
    ensures |Owing(s', c)| - |Owing(s, c)| == s'.channels[c].len - s.channels[c].len
  {
    MoveMade(s, step, s');
    DebtMoved(s, step, s', c);
    var (t, r) := Moves(s, step).value;
    OwingMoves(s, s', t, r, c);
    Sizes(Owing(s, c), t);
  }

  lemma Sizes(a: set<Tid>, t: Tid)
    ensures |a + {t}| == |a| + (if t in a then 0 else 1)
    ensures |a - {t}| == |a| - (if t in a then 1 else 0)
  {
    if t in a { assert a + {t} == a; } else { assert a - {t} == a; }
  }

  lemma ConservedStep(s: State, step: Step, s': State)
    requires Conserved(s) && Next(s, step) == Some(s') && !step.Reload?
    ensures Conserved(s')
  {
    NextSane(s, step);
    SetsAfter(s, step, s');
    forall c | 0 <= c < |s'.channels| ensures s'.channels[c].len == |Owing(s', c)| <= s'.channels[c].cap {
      OwingAfter(s, step, s', c);
    }
  }

  lemma OwingAfterReload(s: State, cap: nat, s': State)
    requires Sane(s) && Next(s, Reload(cap)) == Some(s') && cap != s.channels[s.current].cap
    ensures forall c :: 0 <= c < |s.channels| && c != s.current ==> Owing(s', c) == Owing(s, c)
    ensures Idle(s) ==> Owing(s', s.current) == Owing(s, s.current) && Owing(s', s'.current) == {}
    ensures Admitted(s') == Admitted(s) && Counted(s') == Counted(s)
  {
  }

  /** A reload keeps the accounts in exactly these cases: the capacity stays, or no request waits for
      a slot or is still to begin its release. */
  lemma ReloadConserves(s: State, cap: nat, s': State)
    requires Conserved(s) && Next(s, Reload(cap)) == Some(s')
    ensures Conserved(s') <==> cap == s.channels[s.current].cap || Idle(s)
    ensures Sane(s') && s'.channels[s'.current].cap == cap && s'.requests == s.requests
  {
    NextSane(s, Reload(cap));
    if cap != s.channels[s.current].cap {
      OwingAfterReload(s, cap, s');
      if !Idle(s) {
        var t :| t in s.requests && !s.requests[t].Releasing? && !s.requests[t].Received?;
        if !s.requests[t].Waiting? { assert t in Owing(s', s'.current); }
      }
    }
  }

  /** A step that is not a capacity change under way traffic. */
  predicate Harmless(s: State, step: Step)
    requires Sane(s)
  {
    step.Reload? ==> step.cap == s.channels[s.current].cap || Idle(s)
  }

  /** A run all of whose reloads are harmless. */
  ghost predicate HarmlessRun(s: State, steps: seq<Step>, s': State)
    requires Sane(s)
    decreases |steps|
  {
    if steps == [] then s' == s
    else
      && Harmless(s, steps[0])
      && Next(s, steps[0]).Some?
      && Sane(Next(s, steps[0]).value)
      && HarmlessRun(Next(s, steps[0]).value, steps[1..], s')
  }

  lemma {:induction false} HarmlessRunConserves(s: State, steps: seq<Step>, s': State)
    requires Conserved(s) && HarmlessRun(s, steps, s')
    ensures Conserved(s')
    decreases |steps|
  {
    if steps != [] {
      var mid := Next(s, steps[0]).value;
      if steps[0].Reload? {
        ReloadConserves(s, steps[0].cap, mid);
      } else {
        ConservedStep(s, steps[0], mid);
      }
      HarmlessRunConserves(mid, steps[1..], s');
    }
  }

  function Active(s: State): set<Tid> {
    set t | t in s.requests && (s.requests[t].Holding? || s.requests[t].Releasing?)
  }

  /** The requests in between two steps are what tells the two sets apart. */
  lemma SetsSplit(s: State)
    ensures |Admitted(s)| == |Active(s)| + |SentOnly(s)|
    ensures |Counted(s)| == |Active(s)| + |ReceivedOnly(s)|
  {
    assert Admitted(s) == Active(s) + SentOnly(s) && Active(s) !! SentOnly(s);
    assert Counted(s) == Active(s) + ReceivedOnly(s) && Active(s) !! ReceivedOnly(s);
  }

  lemma ReleasesGoOn(s: State, t: Tid)
    requires Conserved(s) && t in s.requests
    ensures s.requests[t].Releasing? ==> Next(s, Receive(t)).Some?
    ensures s.requests[t].Holding? ==> s.channels[s.current].len > 0
  {
    if s.requests[t].Releasing? { assert t in Owing(s, s.requests[t].ch); }
    if s.requests[t].Holding? { assert t in Owing(s, s.current); }
  }

  /** A waiting request is admitted exactly while its channel owes fewer tokens than it has room for. */
  lemma AdmittedIffRoom(s: State, t: Tid)
    requires Conserved(s) && t in s.requests && s.requests[t].Waiting?
    ensures Next(s, Send(t)).Some? <==> |Owing(s, s.requests[t].ch)| < s.channels[s.requests[t].ch].cap
  {
    assert s.requests[t].ch == s.current;
  }

  lemma StartConserved(cap: nat)
    ensures Conserved(Start(cap))
  {
    assert Owing(Start(cap), 0) == {} && Counted(Start(cap)) == {};
  }

  /** Slot conservation over every run: every channel ever in place holds one token for each request
      that will take one from it, never more than its capacity; a waiting request is admitted exactly
      while there is room; the counter lags by the requests caught between their two steps; and a
      release always finds a token. */
  lemma SlotsConserved(cap: nat, steps: seq<Step>, s: State)
    requires HarmlessRun(Start(cap), steps, s)
    ensures Sane(s)
    ensures forall c :: 0 <= c < |s.channels| ==> s.channels[c].len == |Owing(s, c)| <= s.channels[c].cap
    ensures s.active == |Admitted(s)| - |SentOnly(s)| + |ReceivedOnly(s)| && s.active >= 0
    ensures forall t :: t in s.requests && s.requests[t].Releasing? ==> Next(s, Receive(t)).Some?
    ensures forall t :: t in s.requests && s.requests[t].Holding? ==> s.channels[s.current].len > 0
    ensures forall t :: t in s.requests && s.requests[t].Waiting? ==>
              (Next(s, Send(t)).Some? <==> |Owing(s, s.current)| < s.channels[s.current].cap)
  {
    StartConserved(cap);
    HarmlessRunConserves(Start(cap), steps, s);
    SetsSplit(s);
    forall t | t in s.requests
      ensures s.requests[t].Releasing? ==> Next(s, Receive(t)).Some?
      ensures s.requests[t].Holding? ==> s.channels[s.current].len > 0
    {
      ReleasesGoOn(s, t);
    }
  }

  /** Any run, harmless or not. */
  ghost predicate AnyRun(s: State, steps: seq<Step>, s': State)
    requires Sane(s)
    decreases |steps|
  {
    if steps == [] then s' == s
    else Next(s, steps[0]).Some? && Sane(Next(s, steps[0]).value) && AnyRun(Next(s, steps[0]).value, steps[1..], s')
  }

  // ----------------------------------------------------- as many as configured

  /** The capacity configured last. */
  function LastCapacity(cap: nat, steps: seq<Step>): nat
    decreases |steps|
  {
    if steps == [] then cap
    else LastCapacity(if steps[0].Reload? then steps[0].cap else cap, steps[1..])
  }

  lemma {:induction false} CapacityFollows(s: State, steps: seq<Step>, s': State)
    requires Sane(s) && AnyRun(s, steps, s')
    ensures Sane(s') && s'.channels[s'.current].cap == LastCapacity(s.channels[s.current].cap, steps)
    decreases |steps|
  {
    if steps != [] {
      NextSane(s, steps[0]);
      CapacityFollows(Next(s, steps[0]).value, steps[1..], s');
    }
  }

  lemma {:induction false} CalmRunStays(s: State, steps: seq<Step>, s': State)
    requires Conserved(s) && |s.channels| == 1 && AnyRun(s, steps, s')
    requires forall i :: 0 <= i < |steps| ==> !steps[i].Reload?
    ensures Conserved(s') && |s'.channels| == 1
    ensures LastCapacity(s.channels[s.current].cap, steps) == s.channels[s.current].cap
    decreases |steps|
  {
    if steps != [] {
      ConservedStep(s, steps[0], Next(s, steps[0]).value);
      CalmRunStays(Next(s, steps[0]).value, steps[1..], s');
    }
  }

  /** Without reloads: never more requests in flight than configured, and a waiting one is admitted
      exactly while fewer are. */
  lemma InFlightIffRoom(cap: nat, steps: seq<Step>, s: State)
    requires AnyRun(Start(cap), steps, s) && forall i :: 0 <= i < |steps| ==> !steps[i].Reload?
    ensures Sane(s) && |Admitted(s)| <= cap
    ensures forall t :: t in s.requests && s.requests[t].Waiting? ==> (Next(s, Send(t)).Some? <==> |Admitted(s)| < cap)
  {
    StartConserved(cap);
    CalmRunStays(Start(cap), steps, s);
    CapacityFollows(Start(cap), steps, s);
    assert Owing(s, 0) == Admitted(s);
    forall t | t in s.requests && s.requests[t].Waiting? ensures Next(s, Send(t)).Some? <==> |Admitted(s)| < cap {
      AdmittedIffRoom(s, t);
    }
  }

  /** What a request can do next: only admission and the receipt of a token ever wait, and waiting for
      admission can always be given up. */
  lemma OnlyChannelsBlock(s: State, t: Tid)
    requires Sane(s)
    ensures Next(s, Call(t)).Some? <==> t !in s.requests
    ensures t in s.requests ==>
              match s.requests[t]
              case Waiting(ch) =>
                && (Next(s, Expire(t)).Some? && t !in Next(s, Expire(t)).value.requests)
                && (Next(s, Send(t)).Some? <==> s.channels[ch].len < s.channels[ch].cap)
              case Sent => Next(s, Add(t)).Some? && Is(Next(s, Add(t)).value, t, Holding)
              case Holding => Next(s, Release(t)).Some? && Is(Next(s, Release(t)).value, t, Releasing(s.current))
              case Releasing(ch) => Next(s, Receive(t)).Some? <==> s.channels[ch].len > 0
              case Received => Next(s, Subtract(t)).Some? && t !in Next(s, Subtract(t)).value.requests
  {
  }

  // ------------------------------------------- what stays true whatever reloads do

  function Tokens(channels: seq<Channel>): nat {
    if channels == [] then 0 else Tokens(channels[..|channels| - 1]) + channels[|channels| - 1].len
  }

  lemma {:induction false} TokensShift(channels: seq<Channel>, ch: nat, c: Channel)
    requires ch < |channels|
    ensures Tokens(channels[ch := c]) == Tokens(channels) - channels[ch].len + c.len
  {
    var n := |channels| - 1;
    var shifted := channels[ch := c];
    if ch == n {
      assert shifted[..n] == channels[..n];
    } else {
      assert shifted[..n] == channels[..n][ch := c];
      TokensShift(channels[..n], ch, c);
    }
  }

  /** Tokens are never made or lost: over all channels ever in place there is one per admitted
      request, and the counter is exact, even across reloads that strand tokens. */
  ghost predicate Ledger(s: State) {
    Sane(s) && Tokens(s.channels) == |Admitted(s)| && s.active == |Counted(s)|
  }

  lemma LedgerStep(s: State, step: Step, s': State)
    requires Ledger(s) && Next(s, step) == Some(s')
    ensures Ledger(s')
  {
    NextSane(s, step);
    match step
    case Reload(cap) =>
      if s' != s {
        assert s'.channels[..|s.channels|] == s.channels;
        assert Admitted(s') == Admitted(s) && Counted(s') == Counted(s);
      }
    case Send(t) =>
      SetsAfter(s, step, s');
      var ch := s.requests[t].ch;
      TokensShift(s.channels, ch, s'.channels[ch]);
    case Receive(t) =>
      SetsAfter(s, step, s');
      var ch := s.requests[t].ch;
      TokensShift(s.channels, ch, s'.channels[ch]);
    case _ =>
      SetsAfter(s, step, s');
  }

  lemma {:induction false} LedgerOverRun(s: State, steps: seq<Step>, s': State)
    requires Ledger(s) && AnyRun(s, steps, s')
    ensures Ledger(s')
    decreases |steps|
  {
    if steps != [] {
      LedgerStep(s, steps[0], Next(s, steps[0]).value);
      LedgerOverRun(Next(s, steps[0]).value, steps[1..], s');
    }
  }

  /** Over every run, whatever the reloads did. */
  lemma TokensAlwaysBalance(cap: nat, steps: seq<Step>, s: State)
    requires AnyRun(Start(cap), steps, s)
    ensures Tokens(s.channels) == |Admitted(s)| && s.active == |Counted(s)|
  {
    var s0 := Start(cap);
    assert Admitted(s0) == {} && Counted(s0) == {};
    assert s0.channels[..0] == [];
    LedgerOverRun(s0, steps, s);
  }

  /** A capacity change strands every holder: its release waits on the new channel, which is empty
      until somebody is admitted anew. */
  lemma CapacityChangeBlocksReleases(s: State, cap: nat, s': State, t: Tid)
    requires Conserved(s) && Is(s, t, Holding)
    requires cap != s.channels[s.current].cap && Next(s, Reload(cap)) == Some(s')
    ensures Sane(s') && Next(s', Release(t)).Some?
    ensures var s'' := Next(s', Release(t)).value;
            Sane(s'') && Is(s'', t, Releasing(s'.current)) && Next(s'', Receive(t)).None?
    ensures |Owing(s', s'.current)| > s'.channels[s'.current].len
  {
    NextSane(s, Reload(cap));
    NextSane(s', Release(t));
    assert t in Owing(s', s'.current);
  }

  // --------------------------------------------------------- releases that never end

  /** A release waits for a token on an empty channel that is no longer in place and that nobody waits
      to send to. */
  predicate Hung(s: State, t: Tid, ch: nat) {
    && Sane(s)
    && Is(s, t, Releasing(ch))
    && ch != s.current && s.channels[ch].len == 0
    && forall u :: u in s.requests && s.requests[u].Waiting? ==> s.requests[u].ch != ch
  }

  lemma HungStep(s: State, t: Tid, ch: nat, step: Step, s': State)
    requires Hung(s, t, ch) && Next(s, step) == Some(s')
    ensures Hung(s', t, ch)
  {
    NextSane(s, step);
  }

  /** Nothing that can happen afterwards lets it go on. */
  lemma {:induction false} HungForever(s: State, t: Tid, ch: nat, steps: seq<Step>, s': State)
    requires Hung(s, t, ch) && AnyRun(s, steps, s')
    ensures Hung(s', t, ch) && Next(s', Receive(t)).None?
    decreases |steps|
  {
    if steps != [] {
      HungStep(s, t, ch, steps[0], Next(s, steps[0]).value);
      HungForever(Next(s, steps[0]).value, t, ch, steps[1..], s');
    }
  }

  /** The release will receive its token after some further steps. */
  ghost predicate CanGoOn(s: State, t: Tid, ch: nat)
    requires Sane(s)
  {
    exists steps, s' :: AnyRun(s, steps, s') && Sane(s') && Is(s', t, Releasing(ch)) && Next(s', Receive(t)).Some?
  }

  lemma GoesOn(s: State, t: Tid, ch: nat) returns (steps: seq<Step>, s': State)
    requires Sane(s) && Is(s, t, Releasing(ch)) && !Hung(s, t, ch) && s.channels[ch].cap > 0
    ensures AnyRun(s, steps, s') && Sane(s') && Is(s', t, Releasing(ch)) && Next(s', Receive(t)).Some?
  {
    if s.channels[ch].len > 0 {
      return [], s;
    }
    if u :| u in s.requests && s.requests[u].Waiting? && s.requests[u].ch == ch {
      steps, s' := [Send(u)], Next(s, Send(u)).value;
      NextSane(s, Send(u));
    } else {
      var u := Unused(s.requests.Keys);
      var s1 := Next(s, Call(u)).value;
      NextSane(s, Call(u));
      s' := Next(s1, Send(u)).value;
      NextSane(s1, Send(u));
      steps := [Call(u), Send(u)];
      assert steps[1..] == [Send(u)];
      assert AnyRun(s1, [Send(u)], s');
    }
  }

  /** Exactly then: a release hangs forever if its channel is empty, has been replaced, and nobody is
      left who waits to send to it; in every other state some steps let it go on. */
  lemma HangsIff(s: State, t: Tid, ch: nat)
    requires Sane(s) && Is(s, t, Releasing(ch)) && s.channels[ch].cap > 0
    ensures Hung(s, t, ch) <==> !CanGoOn(s, t, ch)
  {
    if Hung(s, t, ch) {
      forall steps, s' | AnyRun(s, steps, s') && Sane(s') ensures Next(s', Receive(t)).None? {
        HungForever(s, t, ch, steps, s');
      }
    } else {
      var steps, s' := GoesOn(s, t, ch);
    }
  }

  lemma {:induction false} Unused(used: set<Tid>) returns (u: Tid)
    ensures forall x :: x in used ==> x < u
  {
    u := 0;
    if x :| x in used {
      u := Unused(used - {x});
      if u <= x { u := x + 1; }
      assert forall y :: y in used ==> y == x || y in used - {x};
    }
  }

  /** Two capacity changes around the call are enough, whatever else the state is. */
  lemma TwoChangesHang(s: State, t: Tid, cap1: nat, cap2: nat) returns (s': State)
    requires Sane(s) && Is(s, t, Holding) && cap1 != s.channels[s.current].cap && cap2 != cap1
    ensures AnyRun(s, [Reload(cap1), Release(t), Reload(cap2)], s') && Hung(s', t, |s.channels|)
  {
    var a := Next(s, Reload(cap1)).value;
    NextSane(s, Reload(cap1));
    var b := Next(a, Release(t)).value;
    NextSane(a, Release(t));
    s' := Next(b, Reload(cap2)).value;
    NextSane(b, Reload(cap2));
    assert AnyRun(b, [Reload(cap2)], s');
    assert [Release(t), Reload(cap2)][1..] == [Reload(cap2)] && AnyRun(a, [Release(t), Reload(cap2)], s');
    assert [Reload(cap1), Release(t), Reload(cap2)][1..] == [Release(t), Reload(cap2)];
  }
}
