/** Health recorders inside the protocol of `CacheProtocol`: which way a compare-and-swap turns a flag,
    and that calls which do not overlap follow the sequential history of `Health`. */
module CacheRecorders {
  import opened Configs
  import opened Health
  import opened Options
  import opened CacheProtocol
  import opened CacheFrames
  import opened CachePlans
  import opened CacheProofs

  /** Thread t is between the counter and the compare-and-swap of a call for this backend. */
  predicate Recording(s: State, t: Tid, id: Id) {
    t in s.threads && (s.threads[t] == Tripping(id) || s.threads[t] == Recovering(id))
  }

  function FailCountOf(s: State, id: Id): int {
    if id in s.failCount then s.failCount[id] else 0
  }

  // ------------------------------------------------------------ what a swap leaves behind

  lemma SwapEffect(s: State, t: Tid, id: Id, was: bool)
    requires Current(s, Healthy(id)).Flag?
    ensures Current(Swap(s, t, id, was), Healthy(id)) == Flag(!was)
    ensures forall l :: l != Healthy(id) ==> Current(Swap(s, t, id, was), l) == Current(s, l)
    ensures Swap(s, t, id, was).failCount == s.failCount
    ensures t in Swap(s, t, id, was).threads <==> Current(s, Healthy(id)) == Flag(was)
    ensures t in Swap(s, t, id, was).threads ==> Swap(s, t, id, was).threads[t].Bumping?
  {
    var s' := Swap(s, t, id, was);
    if AsFlag(Current(s, Healthy(id))) == was {
      forall l ensures Current(s', l) == if l == Healthy(id) then Flag(!was) else Current(s, l) {
        CurrentAfterPut(s, s', Healthy(id), Flag(!was), l);
      }
    } else {
      assert forall l :: History(s', l) == History(s, l);
    }
  }

  /** After three failures the flag is down, after a success it is up; a bump follows exactly if that is
      a change; and nothing else is touched. */
  lemma SwapLeaves(s: State, t: Tid, s': State)
    requires Reachable(s) && Next(s, CompareAndSwap(t)) == Some(s')
    ensures t in s.threads && (s.threads[t].Tripping? || s.threads[t].Recovering?)
    ensures var id := s.threads[t].id;
            && Current(s', Healthy(id)) == Flag(s.threads[t].Recovering?)
            && (forall l :: l != Healthy(id) ==> Current(s', l) == Current(s, l))
            && (t in s'.threads <==> Current(s', Healthy(id)) != Current(s, Healthy(id)))
            && (t in s'.threads ==> s'.threads[t].Bumping?)
  {
    var id := s.threads[t].id;
    HealthyIffEvenFlips(s, id);
    SwapEffect(s, t, id, s.threads[t].Tripping?);
  }

  // --------------------------------------------------- calls that do not overlap

  /** The outcomes recorded for one backend, in the order in which the calls count. */
  function OutcomesOf(steps: seq<Step>, id: Id): seq<Outcome> {
    if steps == [] then [] else OutcomeOf(steps[0], id) + OutcomesOf(steps[1..], id)
  }

  function OutcomeOf(step: Step, id: Id): seq<Outcome> {
    if step.CountFailure? && step.id == id then [Failure]
    else if step.ResetCount? && step.id == id then [Success]
    else []
  }

  predicate NobodyRecords(s: State, id: Id) {
    forall t :: t in s.threads ==> !Recording(s, t, id)
  }

  /** A call for this backend starts only when no other is between its counter and its swap. */
  ghost predicate OneByOne(s: State, steps: seq<Step>, id: Id)
    decreases |steps|
  {
    steps == []
    || (&& (OutcomeOf(steps[0], id) != [] ==> NobodyRecords(s, id))
        && (Next(s, steps[0]).Some? ==> OneByOne(Next(s, steps[0]).value, steps[1..], id)))
  }

  /** The call that t is in the middle of, if any, has counted but not swapped. */
  ghost predicate InCall(s: State, t: Tid, id: Id, h: seq<Outcome>) {
    Recording(s, t, id) ==>
      && h != []
      && Current(s, Healthy(id)) == Flag(RecordAll(h[..|h| - 1]).healthy)
      && RecordAll(h).healthy == s.threads[t].Recovering?
      && forall u :: Recording(s, u, id) ==> u == t
  }

  /** Counter and flag are those of the history, up to the swap of a call that is under way. */
  ghost predicate Follows(s: State, id: Id, h: seq<Outcome>) {
    && FailCountOf(s, id) == RecordAll(h).failCount
    && (NobodyRecords(s, id) ==> Current(s, Healthy(id)) == Flag(RecordAll(h).healthy))
    && forall t :: InCall(s, t, id, h)
  }

  lemma RecordSnoc(h: seq<Outcome>, o: Outcome)
    ensures (h + [o])[..|h|] == h && RecordAll(h + [o]) == Record(RecordAll(h), o)
  {
    assert (h + [o])[..|h|] == h;
  }

  lemma CountEffect(s: State, step: Step, s': State)
    requires Next(s, step) == Some(s') && (step.CountFailure? || step.ResetCount?)
    ensures step.t !in s.threads
    ensures s'.failCount == s.failCount[step.id := if step.ResetCount? then 0 else Increment32(FailCountOf(s, step.id))]
    ensures s'.history == s.history
    ensures s'.threads == if step.ResetCount? then s.threads[step.t := Recovering(step.id)]
                          else if Increment32(FailCountOf(s, step.id)) >= 3 then s.threads[step.t := Tripping(step.id)]
                          else s.threads
  {
  }

  /** The first step of a call for this backend. */
  lemma FollowsCount(s: State, step: Step, s': State, id: Id, h: seq<Outcome>)
    requires Follows(s, id, h) && Next(s, step) == Some(s') && OutcomeOf(step, id) != [] && NobodyRecords(s, id)
    ensures Follows(s', id, h + OutcomeOf(step, id))
  {
    var o := if step.CountFailure? then Failure else Success;
    CountEffect(s, step, s');
    RecordSnoc(h, o);
    assert History(s', Healthy(id)) == History(s, Healthy(id));
    forall u ensures InCall(s', u, id, h + [o]) && (u != step.t ==> !Recording(s', u, id)) {
      if u != step.t && u in s'.threads { assert u in s.threads && !Recording(s, u, id); }
    }
    if NobodyRecords(s', id) { assert step.t in s'.threads ==> !Recording(s', step.t, id); }
  }

  /** The swap of the call that is under way. */
  lemma FollowsSwap(s: State, t: Tid, s': State, id: Id, h: seq<Outcome>)
    requires Follows(s, id, h) && Next(s, CompareAndSwap(t)) == Some(s') && Recording(s, t, id)
    ensures Follows(s', id, h)
  {
    assert InCall(s, t, id, h);
    SwapEffect(s, t, id, s.threads[t].Tripping?);
    OnlyActorMoves(s, CompareAndSwap(t), s');
    forall u ensures !Recording(s', u, id) {
      if u != t && Recording(s', u, id) { assert Recording(s, u, id); }
    }
  }

  /** Any other step leaves this backend's counter, flag and call alone. */
  ghost predicate Untouched(s: State, s': State, id: Id) {
    && FailCountOf(s', id) == FailCountOf(s, id)
    && Current(s', Healthy(id)) == Current(s, Healthy(id))
    && (forall u :: Recording(s', u, id) ==> Recording(s, u, id) && s'.threads[u] == s.threads[u])
    && (forall u :: Recording(s, u, id) ==> Recording(s', u, id))
  }

  lemma UntouchedFollows(s: State, s': State, id: Id, h: seq<Outcome>)
    requires Follows(s, id, h) && Untouched(s, s', id)
    ensures Follows(s', id, h)
  {
    assert NobodyRecords(s', id) ==> NobodyRecords(s, id);
    forall u ensures InCall(s', u, id, h) { assert InCall(s, u, id, h); }
  }

  lemma OthersStayRecording(s: State, s': State, t: Tid, id: Id)
    requires OthersStay(s, s', t) && !Recording(s, t, id) && !Recording(s', t, id)
    ensures forall u :: Recording(s', u, id) ==> Recording(s, u, id) && s'.threads[u] == s.threads[u]
    ensures forall u :: Recording(s, u, id) ==> Recording(s', u, id)
  {
  }

  lemma CountElsewhere(s: State, step: Step, s': State, id: Id)
    requires Next(s, step) == Some(s') && (step.CountFailure? || step.ResetCount?) && step.id != id
    ensures Untouched(s, s', id)
  {
    CountEffect(s, step, s');
    OnlyActorMoves(s, step, s');
    assert History(s', Healthy(id)) == History(s, Healthy(id));
    OthersStayRecording(s, s', step.t, id);
  }

  lemma SwapElsewhereUntouched(s: State, t: Tid, s': State, id: Id)
    requires Next(s, CompareAndSwap(t)) == Some(s') && s.threads[t].id != id
    ensures Untouched(s, s', id)
  {
    var other := s.threads[t].id;
    SwapSpares(s, t, other, s.threads[t].Tripping?, Healthy(id));
    assert s'.failCount == s.failCount;
    assert t in s'.threads ==> s'.threads[t].Bumping?;
    OnlyActorMoves(s, CompareAndSwap(t), s');
    OthersStayRecording(s, s', t, id);
  }

  lemma WriteUntouched(s: State, t: Tid, s': State, id: Id)
    requires Grounding(s) && Next(s, WriteField(t)) == Some(s')
    ensures Untouched(s, s', id)
  {
    var w := s.threads[t].todo[0];
    assert ThreadOk(s, s.threads[t]) && !w.at.Healthy?;
    CurrentAfterPut(s, s', w.at, w.value, Healthy(id));
    assert s'.failCount == s.failCount && (s'.threads[t].Bumping? || s'.threads[t].Reloading?);
    OnlyActorMoves(s, WriteField(t), s');
    OthersStayRecording(s, s', t, id);
  }

  lemma EndUntouched(s: State, step: Step, s': State, id: Id)
    requires Next(s, step) == Some(s') && (step.Bump? || step.FailReload? || step.Store? || step.StartReload?)
    ensures Untouched(s, s', id)
  {
    assert s'.failCount == s.failCount && s'.history == s.history;
    assert History(s', Healthy(id)) == History(s, Healthy(id));
    OnlyActorMoves(s, step, s');
    OthersStayRecording(s, s', step.t, id);
  }

  lemma ListerUntouched(s: State, step: Step, s': State, id: Id)
    requires Next(s, step) == Some(s') && (step.LoadVersion? || step.Enter? || step.Read?)
    ensures Untouched(s, s', id)
  {
    SharedFrame(s, step, s');
    ListerFrame(s, step, s');
    assert History(s', Healthy(id)) == History(s, Healthy(id));
    OnlyActorMoves(s, step, s');
    OthersStayRecording(s, s', step.t, id);
  }

  lemma ListerFrame(s: State, step: Step, s': State)
    requires Next(s, step) == Some(s') && (step.LoadVersion? || step.Enter? || step.Read?)
    ensures s'.failCount == s.failCount
    ensures forall id :: !Recording(s, step.t, id) && !Recording(s', step.t, id)
  {
  }

  lemma ClearUntouched(s: State, s': State, id: Id)
    requires Next(s, ClearCache) == Some(s')
    ensures Untouched(s, s', id)
  {
    assert History(s', Healthy(id)) == History(s, Healthy(id));
  }

  lemma OtherStepUntouched(s: State, step: Step, s': State, id: Id)
    requires Inv(s) && Next(s, step) == Some(s') && OutcomeOf(step, id) == []
    requires step.CompareAndSwap? ==> s.threads[step.t].id != id
    ensures Untouched(s, s', id)
  {
    match step
    case CountFailure(_, _) => CountElsewhere(s, step, s', id);
    case ResetCount(_, _) => CountElsewhere(s, step, s', id);
    case CompareAndSwap(t) => SwapElsewhereUntouched(s, t, s', id);
    case WriteField(t) => WriteUntouched(s, t, s', id);
    case Bump(_) => EndUntouched(s, step, s', id);
    case FailReload(_) => EndUntouched(s, step, s', id);
    case Store(_) => EndUntouched(s, step, s', id);
    case StartReload(_, _) => EndUntouched(s, step, s', id);
    case ClearCache => ClearUntouched(s, s', id);
    case _ => ListerUntouched(s, step, s', id);
  }

  lemma SwapperRecords(s: State, t: Tid, s': State)
    requires Next(s, CompareAndSwap(t)) == Some(s')
    ensures t in s.threads && Recording(s, t, s.threads[t].id)
  {
  }

  lemma FollowsStep(s: State, step: Step, s': State, id: Id, h: seq<Outcome>)
    requires Inv(s) && Follows(s, id, h) && Next(s, step) == Some(s')
    requires OutcomeOf(step, id) != [] ==> NobodyRecords(s, id)
    ensures Follows(s', id, h + OutcomeOf(step, id))
  {
    if OutcomeOf(step, id) != [] {
      FollowsCount(s, step, s', id, h);
    } else {
      assert h + OutcomeOf(step, id) == h;
      if step.CompareAndSwap? { SwapperRecords(s, step.t, s'); }
      if step.CompareAndSwap? && s.threads[step.t].id == id {
        FollowsSwap(s, step.t, s', id, h);
      } else {
        OtherStepUntouched(s, step, s', id);
        UntouchedFollows(s, s', id, h);
      }
    }
  }

  lemma OneByOneRest(s: State, steps: seq<Step>, mid: State, id: Id)
    requires steps != [] && Next(s, steps[0]) == Some(mid) && OneByOne(s, steps, id)
    ensures OutcomeOf(steps[0], id) != [] ==> NobodyRecords(s, id)
    ensures OneByOne(mid, steps[1..], id)
  {
  }

  lemma OutcomesJoined(h: seq<Outcome>, steps: seq<Step>, id: Id)
    ensures steps == [] ==> h + OutcomesOf(steps, id) == h
    ensures steps != [] ==> h + OutcomesOf(steps, id) == h + OutcomeOf(steps[0], id) + OutcomesOf(steps[1..], id)
  {
  }

  lemma {:induction false} FollowsRun(s: State, steps: seq<Step>, s': State, id: Id, h: seq<Outcome>)
    requires Inv(s) && Follows(s, id, h) && Run(s, steps) == Some(s') && OneByOne(s, steps, id)
    ensures Follows(s', id, h + OutcomesOf(steps, id))
    decreases |steps|
  {
    OutcomesJoined(h, steps, id);
    if steps != [] {
      var mid := Next(s, steps[0]).value;
      OneByOneRest(s, steps, mid, id);
      FollowsStep(s, steps[0], mid, id, h);
      InvStep(s, steps[0], mid);
      FollowsRun(mid, steps[1..], s', id, h + OutcomeOf(steps[0], id));
    }
  }

  lemma StartFollows(override: string, cfgs: seq<Config>, id: Id)
    ensures Follows(Start(override, cfgs), id, [])
  {
    var s := Start(override, cfgs);
    assert Healthy(id) !in s.history;
  }

  /** Whatever requests, reloads and other backends' recorders do in between: when the calls for one
      backend do not overlap, it ends up as its sequential history says, healthy exactly while fewer than
      three failures follow its last success. */
  lemma HealthFollowsHistory(override: string, cfgs: seq<Config>, steps: seq<Step>, s: State, id: Id)
    requires Run(Start(override, cfgs), steps) == Some(s) && OneByOne(Start(override, cfgs), steps, id)
    requires NobodyRecords(s, id)
    ensures Current(s, Healthy(id)) == Flag(Streak(OutcomesOf(steps, id)) < 3)
    ensures FailCountOf(s, id) == RecordAll(OutcomesOf(steps, id)).failCount
  {
    StartInv(override, cfgs);
    StartFollows(override, cfgs, id);
    FollowsRun(Start(override, cfgs), steps, s, id, []);
    assert [] + OutcomesOf(steps, id) == OutcomesOf(steps, id);
    HealthyIffShortStreak(OutcomesOf(steps, id));
  }

  lemma SwapNext(s: State, t: Tid, s': State)
    requires t in s.threads && (s.threads[t].Tripping? || s.threads[t].Recovering?)
    requires s' == Swap(s, t, s.threads[t].id, s.threads[t].Tripping?)
    ensures Next(s, CompareAndSwap(t)) == Some(s')
  {
  }

  lemma ThreeSteps(a: State, x: Step, b: State, y: Step, c: State, z: Step, d: State)
    requires Next(a, x) == Some(b) && Next(b, y) == Some(c) && Next(c, z) == Some(d)
    ensures Run(a, [x, y, z]) == Some(d)
  {
    assert [x, y, z][1..] == [y, z] && [y, z][1..] == [z] && [z][1..] == [];
    assert Run(d, []) == Some(d) && Run(c, [z]) == Some(d) && Run(b, [y, z]) == Some(d);
  }

  /** That condition is needed.  A success that is recorded whole while the third failure in a row is
      between its counter and its swap is overruled: the backend ends up down with its counter at 0. */
  lemma SuccessOverruled(s: State, t: Tid, u: Tid, id: Id) returns (s': State)
    requires t in s.threads && s.threads[t] == Tripping(id) && Current(s, Healthy(id)) == Flag(true)
    requires u !in s.threads && id < |s.names|
    ensures Run(s, [ResetCount(u, id), CompareAndSwap(u), CompareAndSwap(t)]) == Some(s')
    ensures Current(s', Healthy(id)) == Flag(false) && FailCountOf(s', id) == 0
  {
    var a := Next(s, ResetCount(u, id)).value;
    CountEffect(s, ResetCount(u, id), a);
    assert History(a, Healthy(id)) == History(s, Healthy(id));
    var b := Swap(a, u, id, false);
    SwapNext(a, u, b);
    SwapEffect(a, u, id, false);
    assert b.threads == a.threads - {u};
    s' := Swap(b, t, id, true);
    SwapNext(b, t, s');
    SwapEffect(b, t, id, true);
    ThreeSteps(s, ResetCount(u, id), a, CompareAndSwap(u), b, CompareAndSwap(t), s');
  }
}
