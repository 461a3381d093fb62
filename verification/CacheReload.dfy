/** Reloads inside the protocol of `CacheProtocol`: a completed one installs its configuration
    whatever runs beside it, and a failed one can leave a wrong list in the cache. */
module CacheReload {
  import opened Configs
  import opened Options
  import opened PoolSpec
  import opened CacheProtocol
  import opened CacheFrames
  import opened CachePlans
  import opened CacheFreshness
  import opened CacheProofs

  // ------------------------------------------------------- a reload among other threads

  /** Thread t has carried out the first k writes of its plan since the pool was `start`, and
      nothing else has touched what a reload writes. */
  ghost predicate Progress(s: State, t: Tid, writes: seq<Write>, start: Moment) {
    && t in s.threads
    && HoldsPool(s.threads[t])
    && (s.threads[t].Reloading? ==>
          |s.threads[t].todo| <= |writes| && s.threads[t].todo == writes[|writes| - |s.threads[t].todo|..])
    && forall l: Loc :: !l.Healthy? ==> Current(s, l) == AfterAll(start, writes[..Carried(s.threads[t], writes)])(l)
  }

  function Carried(th: Thread, writes: seq<Write>): (k: nat)
    ensures k <= |writes|
  {
    if th.Reloading? && |th.todo| <= |writes| then |writes| - |th.todo| else |writes|
  }

  lemma ProgressOwnWrite(s: State, t: Tid, s': State, writes: seq<Write>, start: Moment)
    requires Progress(s, t, writes, start) && Next(s, WriteField(t)) == Some(s')
    ensures Progress(s', t, writes, start)
  {
    var k := Carried(s.threads[t], writes);
    var w := s.threads[t].todo[0];
    assert w == writes[k];
    assert writes[..k + 1] == writes[..k] + [w];
    AfterAllConcat(start, writes[..k], [w]);
    assert AfterAll(start, writes[..k + 1]) == After(AfterAll(start, writes[..k]), w);
    assert Carried(s'.threads[t], writes) == k + 1;
    forall l: Loc | !l.Healthy? ensures Current(s', l) == AfterAll(start, writes[..k + 1])(l) {
      CurrentAfterPut(s, s', w.at, w.value, l);
    }
  }

  lemma OthersWriteOnlyHealth(s: State, step: Step, s': State, t: Tid)
    requires Exclusive(s) && t in s.threads && HoldsPool(s.threads[t])
    requires Next(s, step) == Some(s') && step != WriteField(t) && step != Bump(t) && step != FailReload(t)
    ensures t in s'.threads && s'.threads[t] == s.threads[t]
    ensures forall l: Loc :: !l.Healthy? ==> Current(s', l) == Current(s, l)
  {
    OnlyActorMoves(s, step, s');
    match step
    case CompareAndSwap(u) =>
      forall l: Loc | !l.Healthy? ensures Current(s', l) == Current(s, l) {
        SwapSpares(s, u, s.threads[u].id, s.threads[u].Tripping?, l);
        assert History(s', l) == History(s, l);
      }
    case Bump(u) => SameHistories(s, s');
    case StartReload(u, cfgs) => SameHistories(s, s');
    case WriteField(u) => assert false;
    case FailReload(u) => SameHistories(s, s');
    case _ =>
      FrameOfOthers(s, step, s');
      SameHistories(s, s');
  }

  lemma {:induction false} ProgressOverRun(s: State, steps: seq<Step>, s': State, t: Tid, writes: seq<Write>, start: Moment)
    requires Exclusive(s) && Progress(s, t, writes, start) && Run(s, steps) == Some(s')
    requires Bump(t) !in steps && FailReload(t) !in steps
    ensures Progress(s', t, writes, start)
    decreases |steps|
  {
    if steps != [] {
      var mid := Next(s, steps[0]).value;
      ExclusiveStep(s, steps[0], mid);
      if steps[0] == WriteField(t) {
        ProgressOwnWrite(s, t, mid, writes, start);
      } else {
        assert steps[0] in steps;
        OthersWriteOnlyHealth(s, steps[0], mid, t);
      }
      ProgressOverRun(mid, steps[1..], s', t, writes, start);
    }
  }

  lemma SameConfigured(now: Moment, now': Moment, ids: seq<Id>, cfgs: seq<Config>)
    requires |ids| == |cfgs| && forall i :: 0 <= i < |cfgs| ==> Configured(now, ids[i], cfgs[i])
    requires forall l: Loc :: !l.Healthy? ==> now'(l) == now(l)
    ensures forall i :: 0 <= i < |cfgs| ==> Configured(now', ids[i], cfgs[i])
  {
    forall i | 0 <= i < |cfgs| ensures Configured(now', ids[i], cfgs[i]) {
      assert Configured(now, ids[i], cfgs[i]);
    }
  }

  lemma ProgressStarts(s: State, t: Tid, cfgs: seq<Config>, s1: State)
    requires Next(s, StartReload(t, cfgs)) == Some(s1)
    ensures Progress(s1, t, PlanReload(cfgs, AsIds(Current(s, Pool)), s.names, s.names, []).writes, Now(s))
  {
    var writes := PlanReload(cfgs, AsIds(Current(s, Pool)), s.names, s.names, []).writes;
    assert s1.threads[t].todo == writes == writes[0..];
    assert writes[..0] == [];
    forall l: Loc ensures Current(s1, l) == Now(s)(l) {
      assert History(s1, l) == History(s, l);
    }
  }

  /** In a reachable state, whatever list requests and health recorders do meanwhile, once a reload of
      configurations that all parse has published its pool, the pool is the configuration: the same
      backends for the names it had before. */
  lemma ReloadInstalls(s: State, t: Tid, cfgs: seq<Config>, s1: State, steps: seq<Step>, s': State)
    requires Reachable(s) && DistinctNames(cfgs)
    requires Next(s, StartReload(t, cfgs)) == Some(s1) && Run(s1, steps) == Some(s')
    requires Bump(t) !in steps && FailReload(t) !in steps
    requires t in s'.threads && s'.threads[t].Bumping?
    requires forall i :: 0 <= i < |cfgs| ==> Parses(cfgs[i])
    ensures var ids := PlannedIds(cfgs, AsIds(Current(s, Pool)), s.names, |s.names|);
            && Current(s', Pool) == Ids(ids)
            && (forall i :: 0 <= i < |cfgs| ==> Configured(Now(s'), ids[i], cfgs[i]))
            && forall i :: 0 <= i < |cfgs| ==>
                 ViewOf(Now(s'), ids[i])
                 == View(AsFlag(Current(s', Healthy(ids[i]))), 0, cfgs[i].models, cfgs[i].ownedBy, cfgs[i].isStatic)
  {
    var before := AsIds(Current(s, Pool));
    PlanOk(cfgs, before, s.names, s.names, []);
    ReachableExclusive(s);
    ProgressStarts(s, t, cfgs, s1);
    ExclusiveStep(s, StartReload(t, cfgs), s1);
    ProgressOverRun(s1, steps, s', t, PlanReload(cfgs, before, s.names, s.names, []).writes, Now(s));
    CompletedPlan(cfgs, before, s.names, Now(s), s', t);
    ViewsConfigured(Now(s'), PlannedIds(cfgs, before, s.names, |s.names|), cfgs);
  }

  lemma ViewsConfigured(now: Moment, ids: seq<Id>, cfgs: seq<Config>)
    requires |ids| == |cfgs| && forall i :: 0 <= i < |cfgs| ==> Configured(now, ids[i], cfgs[i])
    ensures forall i :: 0 <= i < |cfgs| ==>
              ViewOf(now, ids[i])
              == View(AsFlag(now(Healthy(ids[i]))), 0, cfgs[i].models, cfgs[i].ownedBy, cfgs[i].isStatic)
  {
    forall i | 0 <= i < |cfgs| ensures Configured(now, ids[i], cfgs[i]) {}
  }

  lemma {:induction false} InitialAt(cfgs: seq<Config>, id: Id)
    requires id < |cfgs|
    ensures var h := InitialHistory(cfgs);
            && Models(id) in h && h[Models(id)] == [Names(cfgs[id].models)]
            && Owner(id) in h && h[Owner(id)] == [Text(cfgs[id].ownedBy)]
            && Static(id) in h && h[Static(id)] == [Flag(cfgs[id].isStatic)]
  {
    var n := |cfgs| - 1;
    if id < n { InitialAt(cfgs[..n], id); }
  }

  /** A new pool is as configured, and every backend of it healthy. */
  lemma StartAsConfigured(override: string, cfgs: seq<Config>, id: Id)
    requires id < |cfgs|
    ensures var s := Start(override, cfgs);
            && AsIds(Current(s, Pool)) == Identity(|cfgs|) && |s.names| == |cfgs| && s.names[id] == cfgs[id].name
            && ViewOf(Now(s), id) == View(true, 0, cfgs[id].models, cfgs[id].ownedBy, cfgs[id].isStatic)
  {
    InitialAt(cfgs, id);
    var s := Start(override, cfgs);
    assert Healthy(id) !in s.history;
  }

  lemma CompletedPlan(cfgs: seq<Config>, before: seq<Id>, names: seq<string>, start: Moment, s': State, t: Tid)
    requires DistinctNames(cfgs) && PlanReload(cfgs, before, names, names, []).ok
    requires Progress(s', t, PlanReload(cfgs, before, names, names, []).writes, start) && s'.threads[t].Bumping?
    ensures var ids := PlannedIds(cfgs, before, names, |names|);
            && Current(s', Pool) == Ids(ids)
            && forall i :: 0 <= i < |cfgs| ==> Configured(Now(s'), ids[i], cfgs[i])
  {
    var writes := PlanReload(cfgs, before, names, names, []).writes;
    var ids := PlannedIds(cfgs, before, names, |names|);
    PlanInstalls(cfgs, before, names, names, [], start);
    assert [] + ids == ids;
    assert writes[..Carried(s'.threads[t], writes)] == writes;
    SameConfigured(AfterAll(start, writes), Now(s'), ids, cfgs);
  }

  // --------------------------------------------------- coherence in terms of the run

  /** Only a failure loses writes, and a publication makes up for all of them. */
  lemma LostByFailureOnly(s: State, step: Step, s': State)
    requires Next(s, step) == Some(s') && !step.FailReload?
    ensures s'.lost == s.lost || s'.lost == map[]
    ensures step.WriteField? && s'.threads[step.t].Bumping? ==> s'.lost == map[]
  {
    if WritesNothing(step) { SharedFrame(s, step, s'); }
  }

  lemma {:induction false} NothingLost(s: State, steps: seq<Step>, s': State)
    requires s.lost == map[] && Run(s, steps) == Some(s') && forall i :: 0 <= i < |steps| ==> !steps[i].FailReload?
    ensures s'.lost == map[]
    decreases |steps|
  {
    if steps != [] {
      LostByFailureOnly(s, steps[0], Next(s, steps[0]).value);
      NothingLost(Next(s, steps[0]).value, steps[1..], s');
    }
  }

  /** Nobody is about to bump and no reload is under way. */
  predicate Calm(s: State) {
    forall t :: t in s.threads ==> !s.threads[t].Bumping? && !s.threads[t].Reloading?
  }

  /** In every run in which no reload has failed since the last published one, or since the start: once
      nobody is about to bump and no reload is under way, a cached list with the current version is the
      list of the pool.  What happened before that publication does not matter. */
  lemma CoherentSincePublished(s: State, t: Tid, published: State, steps: seq<Step>, s': State)
    requires Reachable(s) && Next(s, WriteField(t)) == Some(published) && published.threads[t].Bumping?
    requires Run(published, steps) == Some(s') && forall i :: 0 <= i < |steps| ==> !steps[i].FailReload?
    requires Calm(s') && s'.cached.Some? && s'.cached.value.version == s'.version
    ensures s'.cached.value.list == ListAt(s'.override, Now(s'))
  {
    LostByFailureOnly(s, WriteField(t), published);
    NothingLost(published, steps, s');
    OneStep(s, WriteField(t), published);
    ReachableOn(s, [WriteField(t)], published);
    ReachableOn(published, steps, s');
    QuietIsCoherent(s');
  }

  lemma CoherentWithoutFailures(override: string, cfgs: seq<Config>, steps: seq<Step>, s: State)
    requires Run(Start(override, cfgs), steps) == Some(s) && forall i :: 0 <= i < |steps| ==> !steps[i].FailReload?
    requires Calm(s) && s.cached.Some? && s.cached.value.version == s.version
    ensures s.cached.value.list == ListAt(s.override, Now(s))
  {
    NothingLost(Start(override, cfgs), steps, s);
    QuietIsCoherent(s);
  }

  // ------------------------------------------------- when a failed reload leaves the list right

  lemma {:induction false} CountsGrow(s: State, steps: seq<Step>, s': State)
    requires Run(s, steps) == Some(s')
    ensures s.flips <= s'.flips && s.commits <= s'.commits
    decreases |steps|
  {
    if steps != [] {
      var mid := Next(s, steps[0]).value;
      CountsGrowStep(s, steps[0], mid);
      CountsGrow(mid, steps[1..], s');
    }
  }

  lemma CountsGrowStep(s: State, step: Step, s': State)
    requires Next(s, step) == Some(s')
    ensures s.flips <= s'.flips && s.commits <= s'.commits
  {
    match step
    case CompareAndSwap(_) =>
    case Bump(_) =>
    case WriteField(_) =>
    case FailReload(_) =>
    case _ => SharedFrame(s, step, s');
  }

  /** The version has not moved and nothing is about to move it: no flag has changed. */
  lemma SameVersionSameFlags(s: State, steps: seq<Step>, s': State, id: Id)
    requires Reachable(s) && Pending(s) == {} && Run(s, steps) == Some(s')
    requires s'.version == s.version && Pending(s') == {}
    ensures Current(s', Healthy(id)) == Current(s, Healthy(id))
  {
    ReachableOn(s, steps, s');
    VersionAccounting(s);
    VersionAccounting(s');
    CountsGrow(s, steps, s');
    assert s'.flips == s.flips;
    HealthyIffEvenFlips(s, id);
    HealthyIffEvenFlips(s', id);
  }

  lemma {:induction false} AfterAllSpares(now: Moment, ws: seq<Write>, id: Id)
    requires forall k :: 0 <= k < |ws| ==> !ws[k].at.Healthy?
    ensures AfterAll(now, ws)(Healthy(id)) == now(Healthy(id))
    decreases |ws|
  {
    if ws != [] { AfterAllSpares(After(now, ws[0]), ws[1..], id); }
  }

  /** Everything a failing reload of these configurations would leave behind it, from the pool as it
      stands. */
  function Leftover(s: State, cfgs: seq<Config>): Moment {
    AfterAll(Now(s), PlanReload(cfgs, AsIds(Current(s, Pool)), s.names, s.names, []).writes)
  }

  lemma FailedHistory(s: State, t: Tid, s': State, writes: seq<Write>, start: Moment)
    requires Progress(s, t, writes, start) && Next(s, FailReload(t)) == Some(s')
    ensures forall l: Loc :: !l.Healthy? ==> Current(s', l) == AfterAll(start, writes)(l)
  {
    SameHistories(s, s');
    assert writes[..Carried(s.threads[t], writes)] == writes;
  }

  /** A reload from start to failure, among any other steps. */
  ghost predicate Fails(s: State, t: Tid, cfgs: seq<Config>, s1: State, steps: seq<Step>, s2: State, s3: State) {
    && Next(s, StartReload(t, cfgs)) == Some(s1)
    && Run(s1, steps) == Some(s2) && Bump(t) !in steps && FailReload(t) !in steps
    && Next(s2, FailReload(t)) == Some(s3)
  }

  lemma FailureRuns(s: State, t: Tid, cfgs: seq<Config>, s1: State, steps: seq<Step>, s2: State, s3: State)
    requires Fails(s, t, cfgs, s1, steps, s2, s3)
    ensures Run(s, [StartReload(t, cfgs)] + steps + [FailReload(t)]) == Some(s3)
  {
    OneStep(s, StartReload(t, cfgs), s1);
    RunConcat(s, [StartReload(t, cfgs)], s1, steps, s2);
    OneStep(s2, FailReload(t), s3);
    RunConcat(s, [StartReload(t, cfgs)] + steps, s2, [FailReload(t)], s3);
  }

  /** What the pool is after the failure, if no flag has changed meanwhile: what the plan says. */
  lemma FailureLeaves(s: State, t: Tid, cfgs: seq<Config>, s1: State, steps: seq<Step>, s2: State, s3: State)
    requires Reachable(s) && Pending(s) == {} && Fails(s, t, cfgs, s1, steps, s2, s3)
    requires s3.version == s.version && Pending(s3) == {}
    ensures forall l :: Now(s3)(l) == Leftover(s, cfgs)(l)
  {
    var writes := PlanReload(cfgs, AsIds(Current(s, Pool)), s.names, s.names, []).writes;
    ReachableExclusive(s);
    ProgressStarts(s, t, cfgs, s1);
    ExclusiveStep(s, StartReload(t, cfgs), s1);
    ProgressOverRun(s1, steps, s2, t, writes, Now(s));
    FailedHistory(s2, t, s3, writes, Now(s));
    FailureRuns(s, t, cfgs, s1, steps, s2, s3);
    PlanSpares(cfgs, AsIds(Current(s, Pool)), s.names, s.names, []);
    forall id ensures Now(s3)(Healthy(id)) == Leftover(s, cfgs)(Healthy(id)) {
      SameVersionSameFlags(s, [StartReload(t, cfgs)] + steps + [FailReload(t)], s3, id);
      AfterAllSpares(Now(s), writes, id);
    }
  }

  /** Exactly when a failing reload does no harm.  It starts from a quiet state with a list cached for
      the current version, other threads do what they like, and at the end the version is the same, no
      bump is under way and the cache holds the same list: that list is the list of the pool if and
      only if the writes the configurations call for, made on the pool as it stood, do not change it. */
  lemma FailedReloadCoherentIff(s: State, t: Tid, cfgs: seq<Config>, s1: State, steps: seq<Step>, s2: State, s3: State)
    requires Reachable(s) && Quiet(s) && s.cached.Some? && s.cached.value.version == s.version
    requires Fails(s, t, cfgs, s1, steps, s2, s3)
    requires s3.version == s.version && Pending(s3) == {} && s3.cached == s.cached
    ensures s3.cached.value.list == ListAt(s3.override, Now(s3))
       <==> ListAt(s.override, Leftover(s, cfgs)) == ListAt(s.override, Now(s))
  {
    QuietIsCoherent(s);
    assert Pending(s) == {};
    FailureLeaves(s, t, cfgs, s1, steps, s2, s3);
    SameMomentSameList(s3.override, Leftover(s, cfgs), Now(s3));
    FailureRuns(s, t, cfgs, s1, steps, s2, s3);
    ReachableInv(s);
    RunKeepsInv(s, [StartReload(t, cfgs)] + steps + [FailReload(t)], s3);
  }

  // ------------------------------------------------------- what a failed reload does

  const GOOD := Config("a", Some("http://a"), ["m"], "", "", 0, 1, false, false, "", 0, Off)
  const BAD := GOOD.(models := ["n"], retry := Malformed)

  /** A concrete run: its steps and every state it passes through. */
  datatype Trace = Trace(states: seq<State>, steps: seq<Step>)

  ghost predicate Ends(tr: Trace, s: State) {
    && |tr.states| == |tr.steps| + 1
    && tr.states[0] == Start("acme", [GOOD])
    && tr.states[|tr.steps|] == s
    && forall i :: 0 <= i < |tr.steps| ==> Next(tr.states[i], tr.steps[i]) == Some(tr.states[i + 1])
  }

  lemma {:induction false} TraceRuns(tr: Trace, s: State, k: nat)
    requires Ends(tr, s) && k <= |tr.steps|
    ensures Run(tr.states[k], tr.steps[k..]) == Some(s)
    decreases |tr.steps| - k
  {
    if k < |tr.steps| {
      TraceRuns(tr, s, k + 1);
      assert tr.steps[k..][1..] == tr.steps[k + 1..];
    }
  }

  lemma Take(tr: Trace, s: State, step: Step) returns (tr': Trace, s': State)
    requires Ends(tr, s) && Next(s, step).Some?
    ensures Ends(tr', s') && Next(s, step) == Some(s')
  {
    s' := Next(s, step).value;
    tr' := Trace(tr.states + [s'], tr.steps + [step]);
  }

  lemma FirstRequestEntered() returns (tr: Trace, s: State)
    ensures Ends(tr, s)
    ensures s == Start("acme", [GOOD]).(threads := map[0 := Building(0, ReadPool, [])], listLock := Some(0))
  {
    s := Start("acme", [GOOD]);
    tr := Trace([s], []);
    tr, s := Take(tr, s, LoadVersion(0));
    tr, s := Take(tr, s, Enter(0, false));
  }

  lemma FirstPool(s: State)
    requires s.history == Start("acme", [GOOD]).history
    ensures Current(s, Pool) == Ids([0]) && Current(s, Healthy(0)) == Flag(true)
    ensures Current(s, Models(0)) == Names(["m"]) && Current(s, Static(0)) == Flag(false)
  {
    assert Identity(1) == [0];
    assert InitialHistory([GOOD]) ==
      InitialHistory([])[Models(0) := [Names(["m"])]][Owner(0) := [Text("")]][Static(0) := [Flag(false)]];
  }

  lemma OneRead(s0: State, tr: Trace, s: State, b: Builder) returns (tr': Trace, s': State)
    requires Ends(tr, s) && 0 in s.threads && s.threads[0].Building? && s.threads[0].version == 0
    requires s == s0.(threads := map[0 := s.threads[0]], listLock := Some(0))
    requires Sound(s.threads[0].b) && !s.threads[0].b.Built?
    requires Feed(s.override, s.threads[0].b, Current(s, Wants(s.threads[0].b))) == b
    ensures Ends(tr', s') && 0 in s'.threads && s'.threads[0].Building? && s'.threads[0].version == 0
    ensures s'.threads[0].b == b
    ensures s' == s0.(threads := map[0 := s'.threads[0]], listLock := Some(0))
  {
    tr', s' := Take(tr, s, Read(0));
  }

  lemma BuiltFromGood()
    ensures AtModel("acme", [0], ["m"], []) == Built([Model("m", "acme")])
  {
    assert AtModel("acme", [0], ["m"], []) == AtModel("acme", [0], [], [Model("m", "acme")]);
  }

  /** Request 0 reads the pool, the flag and the models, and has its list. */
  lemma FirstListBuilt() returns (tr: Trace, s: State)
    ensures Ends(tr, s) && 0 in s.threads && s.threads[0].Building? && s.threads[0].version == 0
    ensures s.threads[0].b == Built([Model("m", "acme")])
    ensures s == Start("acme", [GOOD]).(threads := map[0 := s.threads[0]], listLock := Some(0))
  {
    var s0 := Start("acme", [GOOD]);
    tr, s := FirstRequestEntered();
    FirstPool(s);
    BuiltFromGood();
    tr, s := OneRead(s0, tr, s, ReadHealthy([0], []));
    tr, s := OneRead(s0, tr, s, ReadModels([0], []));
    tr, s := OneRead(s0, tr, s, Built([Model("m", "acme")]));
  }

  /** Request 0 builds and stores the list of the first configuration. */
  lemma FirstListCached() returns (tr: Trace, s: State, e: Entry)
    ensures Ends(tr, s)
    ensures e.version == 0 && e.list == [Model("m", "acme")]
    ensures s == Start("acme", [GOOD]).(cached := Some(e), served := [e])
  {
    tr, s := FirstListBuilt();
    e := Entry(0, [Model("m", "acme")], s.threads[0].seen);
    tr, s := Take(tr, s, Store(0));
    assert s.threads == map[];
  }

  lemma StartFailing(tr: Trace, s: State) returns (tr': Trace, s': State)
    requires Ends(tr, s) && s.threads == map[] && s.poolLock == None && s.names == ["a"]
    requires Current(s, Pool) == Ids([0])
    ensures Ends(tr', s')
    ensures s' == s.(poolLock := Some(1), threads := map[1 := Reloading(Fields(0, BAD), false, map[])])
  {
    assert Find(s.names, [0], "a") == Some(0);
    assert PlanReload([BAD], [0], s.names, s.names, []) == Plan(Fields(0, BAD), false, s.names);
    tr', s' := Take(tr, s, StartReload(1, [BAD]));
  }

  /** One write of the failing reload: histories grow at that location, all else stays. */
  lemma OneWrite(tr: Trace, s: State, at: Loc, v: Value, rest: seq<Write>, writes: Marks)
      returns (tr': Trace, s': State, writes': Marks)
    requires Ends(tr, s) && s.threads == map[1 := Reloading([Write(at, v)] + rest, false, writes)]
    ensures Ends(tr', s')
    ensures s' == Put(s, at, v).(threads := map[1 := Reloading(rest, false, writes')])
  {
    tr', s' := Take(tr, s, WriteField(1));
    writes' := writes[at := |History(s, at)|];
  }

  lemma FailNow(tr: Trace, s: State, writes: Marks) returns (tr': Trace, s': State)
    requires Ends(tr, s) && s.threads == map[1 := Reloading([], false, writes)]
    ensures Ends(tr', s')
    ensures s' == s.(threads := map[], lost := Later(s.lost, writes), poolLock := None)
  {
    tr', s' := Take(tr, s, FailReload(1));
    assert s'.threads == map[];
  }

  lemma FailedReload(tr: Trace, s: State) returns (tr': Trace, s': State, lost: Marks)
    requires Ends(tr, s) && s.threads == map[] && s.poolLock == None && s.names == ["a"]
    requires Current(s, Pool) == Ids([0])
    ensures Ends(tr', s')
    ensures s' == Put(Put(Put(s, Models(0), Names(["n"])), Owner(0), Text("")), Static(0), Flag(false)).(lost := lost)
  {
    var owner, static_ := Write(Owner(0), Text("")), Write(Static(0), Flag(false));
    var writes;
    assert Fields(0, BAD) == [Write(Models(0), Names(["n"]))] + [owner, static_];
    assert [owner, static_] == [owner] + [static_] && [static_] == [static_] + [];
    tr', s' := StartFailing(tr, s);
    tr', s', writes := OneWrite(tr', s', Models(0), Names(["n"]), [owner, static_], map[]);
    tr', s', writes := OneWrite(tr', s', Owner(0), Text(""), [static_], writes);
    tr', s', writes := OneWrite(tr', s', Static(0), Flag(false), [], writes);
    tr', s' := FailNow(tr', s', writes);
    lost := s'.lost;
  }

  /** A reload whose `retry_after` does not parse has already replaced the models of a backend it
      keeps, and bumps nothing: with every thread gone and both locks free, the cached list still
      carries the current version and is not the list of the pool. */
  lemma FailedReloadLeavesStaleCache() returns (s: State)
    ensures Reachable(s)
    ensures s.threads == map[] && s.listLock == None && s.poolLock == None
    ensures s.cached.Some? && s.cached.value.version == s.version
    ensures s.cached.value.list == [Model("m", "acme")]
    ensures ListAt(s.override, Now(s)) == [Model("n", "acme")]
  {
    var tr, s0, e := FirstListCached();
    FirstPool(s0);
    var tr', s', lost := FailedReload(tr, s0);
    s := s';
    TraceRuns(tr', s, 0);
    assert tr'.steps[0..] == tr'.steps;
    NewPoolListed(s0, s);
  }

  lemma NewPoolListed(s0: State, s: State)
    requires s.history == Put(Put(Put(s0, Models(0), Names(["n"])), Owner(0), Text("")), Static(0), Flag(false)).history
    requires Current(s0, Pool) == Ids([0]) && Current(s0, Healthy(0)) == Flag(true)
    ensures ListAt("acme", Now(s)) == [Model("n", "acme")]
  {
    var s1 := Put(s0, Models(0), Names(["n"]));
    var s2 := Put(s1, Owner(0), Text(""));
    forall l ensures Current(s, l) == if l == Static(0) then Flag(false) else Current(s2, l) {
      CurrentAfterPut(s2, s, Static(0), Flag(false), l);
    }
    forall l ensures Current(s2, l) == if l == Owner(0) then Text("") else Current(s1, l) {
      CurrentAfterPut(s1, s2, Owner(0), Text(""), l);
    }
    forall l ensures Current(s1, l) == if l == Models(0) then Names(["n"]) else Current(s0, l) {
      CurrentAfterPut(s0, s1, Models(0), Names(["n"]), l);
    }
    ListOfOne(Now(s));
  }

  lemma ListOfOne(now: Moment)
    requires now(Pool) == Ids([0]) && now(Healthy(0)) == Flag(true) && now(Models(0)) == Names(["n"])
    requires now(Owner(0)) == Text("") && now(Static(0)) == Flag(false)
    ensures ListAt("acme", now) == [Model("n", "acme")]
  {
    assert ViewsOf(now, [0]) == [View(true, 0, ["n"], "", false)];
    assert OfferAll([], ["n"], "acme") == [Model("n", "acme")];
    assert ListModels("acme", [View(true, 0, ["n"], "", false)]) == [Model("n", "acme")];
  }
}
