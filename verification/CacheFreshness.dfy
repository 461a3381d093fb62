/** What a client of `/v1/models` sees, from its own request's point of view. */
module CacheFreshness {
  import opened Options
  import opened PoolSpec
  import opened CacheProtocol
  import opened CacheFrames
  import opened CachePlans
  import opened CacheProofs

  /** Whatever list request thread t is on, it loaded the version at v or later. */
  predicate LoadedSince(s: State, t: Tid, v: nat) {
    && v <= s.version
    && (t in s.threads && s.threads[t].Loaded? ==> v <= s.threads[t].version)
    && (t in s.threads && s.threads[t].Building? ==> v <= s.threads[t].version)
  }

  lemma ListStep(s: State, step: Step, s': State, t: Tid, v: nat)
    requires LoadedSince(s, t, v) && Next(s, step) == Some(s')
    requires (step.LoadVersion? || step.Enter? || step.Read? || step.Store?) && step.t == t
    ensures t in s'.threads && s'.threads[t].Loaded? ==> v <= s'.threads[t].version
    ensures t in s'.threads && s'.threads[t].Building? ==> v <= s'.threads[t].version
  {
  }

  lemma RecorderStep(s: State, step: Step, s': State)
    requires Next(s, step) == Some(s') && (step.CountFailure? || step.ResetCount? || step.CompareAndSwap? || step.Bump?)
    ensures step.t in s'.threads ==> !s'.threads[step.t].Loaded? && !s'.threads[step.t].Building?
  {
  }

  lemma ReloadStep(s: State, step: Step, s': State)
    requires Next(s, step) == Some(s') && (step.StartReload? || step.WriteField? || step.FailReload?)
    ensures step.t in s'.threads ==> !s'.threads[step.t].Loaded? && !s'.threads[step.t].Building?
  {
  }

  lemma LoadedSinceOwnStep(s: State, step: Step, s': State, t: Tid, v: nat)
    requires LoadedSince(s, t, v) && Next(s, step) == Some(s') && !step.ClearCache? && step.t == t
    ensures t in s'.threads && s'.threads[t].Loaded? ==> v <= s'.threads[t].version
    ensures t in s'.threads && s'.threads[t].Building? ==> v <= s'.threads[t].version
  {
    if step.LoadVersion? || step.Enter? || step.Read? || step.Store? {
      ListStep(s, step, s', t, v);
    } else if step.CountFailure? || step.ResetCount? || step.CompareAndSwap? || step.Bump? {
      RecorderStep(s, step, s');
    } else {
      ReloadStep(s, step, s');
    }
  }

  lemma VersionGrows(s: State, step: Step, s': State)
    requires Next(s, step) == Some(s')
    ensures s.version <= s'.version
  {
  }

  lemma LoadedSinceStep(s: State, step: Step, s': State, t: Tid, v: nat)
    requires LoadedSince(s, t, v) && Next(s, step) == Some(s')
    ensures LoadedSince(s', t, v)
  {
    VersionGrows(s, step, s');
    if !step.ClearCache? && step.t == t {
      LoadedSinceOwnStep(s, step, s', t, v);
    } else {
      OnlyActorMoves(s, step, s');
      if step.ClearCache? { FrameOfOthers(s, step, s'); }
    }
  }

  lemma {:induction false} LoadedSinceRun(s: State, steps: seq<Step>, s': State, t: Tid, v: nat)
    requires LoadedSince(s, t, v) && Run(s, steps) == Some(s')
    ensures LoadedSince(s', t, v)
    decreases |steps|
  {
    if steps != [] {
      var mid := Next(s, steps[0]).value;
      LoadedSinceStep(s, steps[0], mid, t, v);
      LoadedSinceRun(mid, steps[1..], s', t, v);
    }
  }

  lemma {:induction false} RunConcat(a: State, x: seq<Step>, b: State, y: seq<Step>, c: State)
    requires Run(a, x) == Some(b) && Run(b, y) == Some(c)
    ensures Run(a, x + y) == Some(c)
    decreases |x|
  {
    if x == [] {
      assert x + y == y;
    } else {
      assert (x + y)[1..] == x[1..] + y;
      RunConcat(Next(a, x[0]).value, x[1..], b, y, c);
    }
  }

  lemma OneStep(a: State, step: Step, b: State)
    requires Next(a, step) == Some(b)
    ensures Run(a, [step]) == Some(b)
  {
    assert Run(b, []) == Some(b);
    assert [step][1..] == [];
  }

  lemma ReachableOn(s: State, steps: seq<Step>, s': State)
    requires Reachable(s) && Run(s, steps) == Some(s')
    ensures Reachable(s')
  {
    var override, cfgs, before :| Run(Start(override, cfgs), before) == Some(s);
    RunConcat(Start(override, cfgs), before, s, steps, s');
  }

  /** The step that answers request t, from the cache or after a build. */
  predicate Answers(s: State, step: Step, s': State, t: Tid) {
    && Next(s, step) == Some(s')
    && (step == Store(t) || (step.Enter? && step.t == t))
    && |s'.served| == |s.served| + 1
  }

  lemma AnswerVersion(s: State, step: Step, s': State, t: Tid, v: nat)
    requires LoadedSince(s, t, v) && Answers(s, step, s', t)
    ensures v <= s'.served[|s.served|].version
  {
  }

  /** The read is real and no older than the writes w. */
  predicate NoOlder(s: State, e: Seen, w: Marks) {
    && e.pos <= Newest(s, e.at)
    && e.value == History(s, e.at)[e.pos]
    && At(w, e.at) <= e.pos
  }

  lemma BumpAnnouncesAll(s: State, u: Tid, bumped: State, between: seq<Step>, asked: State)
    requires Reachable(s) && Next(s, Bump(u)) == Some(bumped) && Run(bumped, between) == Some(asked)
    ensures Reachable(asked)
    ensures forall l :: At(s.threads[u].writes, l) <= Announced(asked, asked.version, l)
  {
    OneStep(s, Bump(u), bumped);
    ReachableOn(s, [Bump(u)], bumped);
    ReachableOn(bumped, between, asked);
    forall l ensures At(s.threads[u].writes, l) <= Announced(asked, asked.version, l) {
      BumpAnnounces(s, u, bumped, between, asked, l);
    }
  }

  /** The steps from the moment request t asks to the moment it is answered. */
  lemma FromAskToAnswer(asked: State, t: Tid, loaded: State, during: seq<Step>, almost: State, last: Step, answered: State)
      returns (steps: seq<Step>)
    requires Next(asked, LoadVersion(t)) == Some(loaded) && Run(loaded, during) == Some(almost)
    requires Answers(almost, last, answered, t)
    ensures Run(asked, steps) == Some(answered)
    ensures |answered.served| == |almost.served| + 1
    ensures asked.version <= answered.served[|almost.served|].version
  {
    LoadedSinceRun(loaded, during, almost, t, asked.version);
    AnswerVersion(almost, last, answered, t, asked.version);
    OneStep(asked, LoadVersion(t), loaded);
    OneStep(almost, last, answered);
    RunConcat(asked, [LoadVersion(t)], loaded, during, almost);
    RunConcat(asked, [LoadVersion(t)] + during, almost, [last], answered);
    steps := [LoadVersion(t)] + during + [last];
  }

  lemma ReadsSince(asked: State, steps: seq<Step>, answered: State, k: nat, w: Marks)
    requires Reachable(asked) && Run(asked, steps) == Some(answered)
    requires k < |answered.served| && asked.version <= answered.served[k].version
    requires forall l :: At(w, l) <= Announced(asked, asked.version, l)
    ensures var e := answered.served[k];
            && Replay(answered.override, e.seen) == Some(Built(e.list))
            && forall i :: 0 <= i < |e.seen| ==> NoOlder(answered, e.seen[i], w)
  {
    ServedFresh(asked, steps, answered, k);
  }

  /** A request that loads the version after a bump has completed is answered with a list whose every
      read already saw what that bump announced: a health flip or a whole reload.  It does not matter
      whether the answer is a hit or a rebuild, nor who reaches the lock first. */
  lemma RequestSeesBump(s: State, u: Tid, bumped: State, between: seq<Step>, asked: State, t: Tid,
                        loaded: State, during: seq<Step>, almost: State, last: Step, answered: State)
    requires Reachable(s) && Next(s, Bump(u)) == Some(bumped) && Run(bumped, between) == Some(asked)
    requires Next(asked, LoadVersion(t)) == Some(loaded) && Run(loaded, during) == Some(almost)
    requires Answers(almost, last, answered, t)
    ensures |answered.served| == |almost.served| + 1 && u in s.threads && s.threads[u].Bumping?
    ensures var e := answered.served[|almost.served|];
            && Replay(answered.override, e.seen) == Some(Built(e.list))
            && forall i :: 0 <= i < |e.seen| ==> NoOlder(answered, e.seen[i], s.threads[u].writes)
  {
    var steps := FromAskToAnswer(asked, t, loaded, during, almost, last, answered);
    BumpAnnouncesAll(s, u, bumped, between, asked);
    ReadsSince(asked, steps, answered, |almost.served|, s.threads[u].writes);
  }

  // ------------------------------------------- a build during which nothing is written

  predicate Grows(s: State, s': State, l: Loc) {
    Newest(s, l) <= Newest(s', l) && (Newest(s', l) == Newest(s, l) ==> History(s', l) == History(s, l))
  }

  lemma SwapGrows(s: State, t: Tid, id: Id, was: bool, l: Loc)
    ensures Grows(s, Swap(s, t, id, was), l)
  {
    if l != Healthy(id) { SwapSpares(s, t, id, was, l); }
  }

  lemma WriteGrows(s: State, t: Tid, s': State, l: Loc)
    requires Next(s, WriteField(t)) == Some(s')
    ensures Grows(s, s', l)
  {
    var w := s.threads[t].todo[0];
    PutExtends(s, w.at, w.value);
    assert History(s', l) == History(Put(s, w.at, w.value), l);
  }

  /** Histories only grow, in every state. */
  lemma HistoryGrows(s: State, step: Step, s': State, l: Loc)
    requires Next(s, step) == Some(s')
    ensures Grows(s, s', l)
  {
    match step
    case CompareAndSwap(t) => SwapGrows(s, t, s.threads[t].id, s.threads[t].Tripping?, l);
    case WriteField(t) => WriteGrows(s, t, s', l);
    case Bump(t) => SameHistories(s, s');
    case FailReload(t) => SameHistories(s, s');
    case _ =>
      SharedFrame(s, step, s');
      SameHistories(s, s');
  }

  lemma SameHistories(s: State, s': State)
    requires s'.history == s.history
    ensures forall l :: History(s', l) == History(s, l) && Current(s', l) == Current(s, l)
  {
    assert forall l :: History(s', l) == History(s, l);
  }

  lemma {:induction false} HistoryGrowsOverRun(s: State, steps: seq<Step>, s': State, l: Loc)
    requires Run(s, steps) == Some(s')
    ensures Grows(s, s', l)
    decreases |steps|
  {
    if steps != [] {
      var mid := Next(s, steps[0]).value;
      HistoryGrows(s, steps[0], mid, l);
      HistoryGrowsOverRun(mid, steps[1..], s', l);
    }
  }

  /** No location has been written between the two states. */
  ghost predicate Unwritten(s: State, s': State) {
    forall l :: Newest(s', l) == Newest(s, l)
  }

  lemma UnwrittenFirst(s: State, step: Step, mid: State, steps: seq<Step>, s': State)
    requires Next(s, step) == Some(mid) && Run(mid, steps) == Some(s') && Unwritten(s, s')
    ensures Unwritten(s, mid) && Unwritten(mid, s')
    ensures forall l :: Current(mid, l) == Current(s, l)
  {
    forall l ensures Newest(mid, l) == Newest(s, l) && Newest(s', l) == Newest(mid, l) && Current(mid, l) == Current(s, l) {
      HistoryGrows(s, step, mid, l);
      HistoryGrowsOverRun(mid, steps, s', l);
    }
  }

  /** Whatever build thread t is on, everything it has read is what stands there at that moment. */
  ghost predicate ReadsCurrent(s: State, t: Tid, now: Moment) {
    t in s.threads && s.threads[t].Building? ==>
      && Replay(s.override, s.threads[t].seen) == Some(s.threads[t].b)
      && forall k :: 0 <= k < |s.threads[t].seen| ==> s.threads[t].seen[k].value == now(s.threads[t].seen[k].at)
  }

  lemma ReadStaysCurrent(s: State, t: Tid, s': State, now: Moment)
    requires ReadsCurrent(s, t, now) && Next(s, Read(t)) == Some(s') && forall l :: Current(s, l) == now(l)
    ensures ReadsCurrent(s', t, now)
  {
    var th := s.threads[t];
    var l := Wants(th.b);
    var e := Seen(l, Newest(s, l), Current(s, l));
    assert s'.threads[t].seen == th.seen + [e] && (th.seen + [e])[..|th.seen|] == th.seen;
  }

  /** A build starts with nothing read. */
  lemma EnterReadsNothing(s: State, t: Tid, expired: bool, s': State, now: Moment)
    requires Next(s, Enter(t, expired)) == Some(s')
    ensures ReadsCurrent(s', t, now)
  {
    EnterEffect(s, t, expired, s');
    if t in s'.threads { assert s'.threads[t] == Building(s.threads[t].version, ReadPool, []); }
  }

  /** No other step of its own leaves a thread in a build. */
  lemma NoBuildBegun(s: State, step: Step, s': State)
    requires Next(s, step) == Some(s') && !step.Enter? && !step.Read? && !step.ClearCache?
    ensures step.t in s'.threads ==> !s'.threads[step.t].Building?
  {
    if step.StartReload? || step.WriteField? || step.FailReload? {
      ReloadsTakeNoListLock(s, step, s');
    } else if step.Store? {
    } else {
      RecordersTakeNoListLock(s, step, s');
    }
  }

  lemma OverrideStays(s: State, step: Step, s': State)
    requires Next(s, step) == Some(s')
    ensures s'.override == s.override
  {
  }

  lemma ReadsCurrentStep(s: State, step: Step, s': State, t: Tid, now: Moment)
    requires ReadsCurrent(s, t, now) && Next(s, step) == Some(s') && forall l :: Current(s, l) == now(l)
    ensures ReadsCurrent(s', t, now)
  {
    OverrideStays(s, step, s');
    if step.ClearCache? {
      FrameOfOthers(s, step, s');
    } else if step.t != t {
      OnlyActorMoves(s, step, s');
    } else if step.Read? {
      ReadStaysCurrent(s, t, s', now);
    } else if step.Enter? {
      EnterReadsNothing(s, t, step.expired, s', now);
    } else {
      NoBuildBegun(s, step, s');
    }
  }

  lemma {:induction false} ReadsCurrentOverRun(s: State, steps: seq<Step>, s': State, t: Tid, now: Moment)
    requires ReadsCurrent(s, t, now) && Run(s, steps) == Some(s') && Unwritten(s, s')
    requires forall l :: Current(s, l) == now(l)
    ensures ReadsCurrent(s', t, now) && s'.override == s.override && forall l :: Current(s', l) == now(l)
    decreases |steps|
  {
    if steps != [] {
      var mid := Next(s, steps[0]).value;
      UnwrittenFirst(s, steps[0], mid, steps[1..], s');
      OverrideStays(s, steps[0], mid);
      ReadsCurrentStep(s, steps[0], mid, t, now);
      ReadsCurrentOverRun(mid, steps[1..], s', t, now);
    }
  }

  lemma StoreEffect(s: State, t: Tid, s': State)
    requires Next(s, Store(t)) == Some(s')
    ensures t in s.threads && s.threads[t].Building? && s.threads[t].b.Built?
    ensures s'.cached == Some(Entry(s.threads[t].version, s.threads[t].b.list, s.threads[t].seen))
    ensures s'.served == s.served + [s'.cached.value]
    ensures s'.history == s.history && s'.override == s.override
  {
  }

  /** From any state at all, also one in which failed reloads have left writes that nothing announces:
      a list built while no location is written is the list of the pool, and so is the cache then. */
  lemma UndisturbedBuildIsRight(s: State, t: Tid, expired: bool, entered: State, steps: seq<Step>, almost: State, stored: State)
    requires Next(s, Enter(t, expired)) == Some(entered)
    requires Run(entered, steps) == Some(almost) && Unwritten(entered, almost)
    requires Next(almost, Store(t)) == Some(stored)
    ensures stored.cached.Some? && stored.cached.value.list == ListAt(stored.override, Now(stored))
    ensures stored.served == almost.served + [stored.cached.value]
  {
    var now := Now(entered);
    EnterReadsNothing(s, t, expired, entered, now);
    ReadsCurrentOverRun(entered, steps, almost, t, now);
    StoreEffect(almost, t, stored);
    ReplayAtOneMoment(almost.override, now, almost.threads[t].seen);
    SameHistories(almost, stored);
    SameMomentSameList(stored.override, now, Now(stored));
  }

  /** Lists depend on what is read and on nothing else. */
  lemma SameMomentSameList(override: string, now: Moment, now': Moment)
    requires forall l :: now'(l) == now(l)
    ensures ListAt(override, now') == ListAt(override, now)
  {
    assert ViewsOf(now', AsIds(now(Pool))) == ViewsOf(now, AsIds(now(Pool)));
  }
}
