/** That the protocol of `CacheProtocol` goes on: locks are given back, nobody is stuck but behind a list
    that is being built, and a request whose cache has expired gets the list of the pool. */
module CacheProgress {
  import opened Configs
  import opened Options
  import opened PoolSpec
  import opened CacheProtocol
  import opened CacheFrames
  import opened CachePlans
  import opened CacheProofs
  import opened CacheFreshness

  // ---------------------------------------------------------------- locks are given back

  /** A lock that is taken is held by a thread that works under it. */
  ghost predicate Held(s: State) {
    && (s.poolLock.Some? ==> s.poolLock.value in s.threads && HoldsPool(s.threads[s.poolLock.value]))
    && (s.listLock.Some? ==> s.listLock.value in s.threads && s.threads[s.listLock.value].Building?)
  }

  /** A step that keeps a lock taken keeps its holder at work. */
  lemma PoolStaysHeld(s: State, step: Step, s': State)
    requires Held(s) && Next(s, step) == Some(s')
    ensures s'.poolLock.Some? ==> s'.poolLock.value in s'.threads && HoldsPool(s'.threads[s'.poolLock.value])
  {
    OnlyActorMoves(s, step, s');
    if step.StartReload? || step.WriteField? || step.Bump? || step.FailReload? {
      PoolLockMoved(s, step, s');
    } else {
      PoolLockKept(s, step, s');
    }
  }

  lemma PoolLockMoved(s: State, step: Step, s': State)
    requires Next(s, step) == Some(s') && (step.StartReload? || step.WriteField? || step.Bump? || step.FailReload?)
    ensures s'.poolLock == s.poolLock || s'.poolLock == Some(step.t) || s'.poolLock == None
    ensures step.t in s'.threads ==> HoldsPool(s'.threads[step.t])
    ensures step.t !in s'.threads ==> s'.poolLock == None || !HoldsPool(s.threads[step.t])
    ensures s'.poolLock == Some(step.t) && s.poolLock != s'.poolLock ==> step.t in s'.threads
  {
    match step
    case StartReload(t, _) => assert s'.threads[t].Reloading?;
    case WriteField(t) => assert HoldsPool(s'.threads[t]);
    case Bump(t) =>
    case FailReload(t) =>
  }

  lemma PoolLockKept(s: State, step: Step, s': State)
    requires Next(s, step) == Some(s')
    requires !step.StartReload? && !step.WriteField? && !step.Bump? && !step.FailReload?
    ensures s'.poolLock == s.poolLock
    ensures !step.ClearCache? && step.t in s.threads ==> !HoldsPool(s.threads[step.t])
    ensures step.ClearCache? ==> s'.threads == s.threads
  {
  }

  lemma ListStaysHeld(s: State, step: Step, s': State)
    requires Held(s) && Next(s, step) == Some(s')
    ensures s'.listLock.Some? ==> s'.listLock.value in s'.threads && s'.threads[s'.listLock.value].Building?
  {
    OnlyActorMoves(s, step, s');
    if step.Enter? || step.Read? || step.Store? || step.ClearCache? {
      ListLockMoved(s, step, s');
    } else {
      ListLockKept(s, step, s');
    }
  }

  lemma ListLockMoved(s: State, step: Step, s': State)
    requires Next(s, step) == Some(s') && (step.Enter? || step.Read? || step.Store? || step.ClearCache?)
    ensures s'.listLock == (if step.Read? then s.listLock else None) || (step.Enter? && s'.listLock == Some(step.t))
    ensures step.Read? || s'.listLock.Some? ==> step.t in s'.threads && s'.threads[step.t].Building?
  {
  }

  lemma ListLockKept(s: State, step: Step, s': State)
    requires Next(s, step) == Some(s')
    requires !step.Enter? && !step.Read? && !step.Store? && !step.ClearCache?
    ensures s'.listLock == s.listLock
    ensures step.t in s.threads ==> !s.threads[step.t].Building?
  {
  }

  lemma {:induction false} HeldOverRun(s: State, steps: seq<Step>, s': State)
    requires Held(s) && Run(s, steps) == Some(s')
    ensures Held(s')
    decreases |steps|
  {
    if steps != [] {
      var mid := Next(s, steps[0]).value;
      PoolStaysHeld(s, steps[0], mid);
      ListStaysHeld(s, steps[0], mid);
      HeldOverRun(mid, steps[1..], s');
    }
  }

  lemma ReachableHeld(s: State)
    requires Reachable(s)
    ensures Held(s)
  {
    var override, cfgs, steps :| Run(Start(override, cfgs), steps) == Some(s);
    HeldOverRun(Start(override, cfgs), steps, s);
  }

  /** A reload can start exactly while none is under way, and a request that has loaded the version gets
      on exactly while no list is being built. */
  lemma LocksFreeIff(s: State, t: Tid, cfgs: seq<Config>, expired: bool)
    requires Reachable(s)
    ensures t !in s.threads ==>
              (Next(s, StartReload(t, cfgs)).Some? <==> forall u :: u in s.threads ==> !HoldsPool(s.threads[u]))
    ensures t in s.threads && s.threads[t].Loaded? ==>
              (Next(s, Enter(t, expired)).Some? <==> forall u :: u in s.threads ==> !s.threads[u].Building?)
  {
    ReachableHeld(s);
    ReachableExclusive(s);
    assert Next(s, Enter(t, expired)).Some? <==> t in s.threads && s.threads[t].Loaded? && s.listLock.None?;
    assert Next(s, StartReload(t, cfgs)).Some? <==> t !in s.threads && s.poolLock.None?;
  }

  /** Every other call can start at any time on an idle thread: a recorder for every backend ever made, a
      list request; and the cache can be dropped exactly while no list is being built. */
  lemma CallsStart(s: State, t: Tid, id: Id)
    requires Reachable(s) && t !in s.threads
    ensures Next(s, CountFailure(t, id)).Some? <==> id < |s.names|
    ensures Next(s, ResetCount(t, id)).Some? <==> id < |s.names|
    ensures Next(s, LoadVersion(t)).Some?
    ensures Next(s, ClearCache).Some? <==> forall u :: u in s.threads ==> !s.threads[u].Building?
  {
    ReachableHeld(s);
    ReachableExclusive(s);
    assert Next(s, ClearCache).Some? <==> s.listLock.None?;
  }

  // ------------------------------------------------------------------- nobody is stuck

  /** What a thread does next. */
  function Turn(th: Thread, t: Tid): Step {
    match th
    case Tripping(_) => CompareAndSwap(t)
    case Recovering(_) => CompareAndSwap(t)
    case Reloading(todo, _, _) => if todo == [] then FailReload(t) else WriteField(t)
    case Bumping(_, _) => Bump(t)
    case Loaded(_) => Enter(t, false)
    case Building(_, b, _) => if b.Built? then Store(t) else Read(t)
  }

  /** In every reachable state every thread can take its next step, except that a request waits while
      another one builds; and that one can. */
  lemma NobodyStuck(s: State, t: Tid)
    requires Reachable(s) && t in s.threads
    ensures Next(s, Turn(s.threads[t], t)).Some?
            || (&& s.threads[t].Loaded? && s.listLock.Some? && s.listLock.value in s.threads
                && s.threads[s.listLock.value].Building?
                && Next(s, Turn(s.threads[s.listLock.value], s.listLock.value)).Some?)
  {
    ReachableInv(s);
    ReachableHeld(s);
    TurnComes(s, t);
    if s.listLock.Some? { TurnComes(s, s.listLock.value); }
  }

  lemma TurnComes(s: State, t: Tid)
    requires t in s.threads && ThreadOk(s, s.threads[t])
    ensures Next(s, Turn(s.threads[t], t)).Some? || (s.threads[t].Loaded? && s.listLock.Some?)
  {
    match s.threads[t]
    case Building(v, b, seen) => assert Replay(s.override, seen) == Some(b) && Sound(b);
    case Reloading(todo, ok, writes) => assert ok ==> todo != [];
    case _ =>
  }

  // --------------------------------------------------------------- hits and builds

  /** A request is answered from the cache exactly if the list there has not expired and was built for
      the version the request loaded; else it begins to build. */
  lemma HitIff(s: State, t: Tid, expired: bool, s': State)
    requires Next(s, Enter(t, expired)) == Some(s')
    ensures var hit := s.cached.Some? && !expired && s.cached.value.version == s.threads[t].version;
            && (hit ==> t !in s'.threads && s'.served == s.served + [s.cached.value])
            && (!hit ==> t in s'.threads && s'.threads[t] == Building(s.threads[t].version, ReadPool, [])
                         && s'.served == s.served)
            && s'.cached == s.cached && s'.history == s.history
  {
  }

  lemma CachedByStoreOnly(s: State, step: Step, s': State)
    requires Next(s, step) == Some(s') && !step.Store?
    ensures s'.cached == s.cached || s'.cached == None
    ensures step.ClearCache? ==> s'.cached == None
  {
  }

  lemma {:induction false} StaysCleared(s: State, steps: seq<Step>, s': State)
    requires s.cached == None && Run(s, steps) == Some(s') && forall i :: 0 <= i < |steps| ==> !steps[i].Store?
    ensures s'.cached == None
    decreases |steps|
  {
    if steps != [] {
      CachedByStoreOnly(s, steps[0], Next(s, steps[0]).value);
      StaysCleared(Next(s, steps[0]).value, steps[1..], s');
    }
  }

  /** Once the cache has been dropped, the next request builds, whatever happens in between. */
  lemma ClearedMeansBuild(s: State, cleared: State, steps: seq<Step>, before: State, t: Tid, expired: bool, after: State)
    requires Next(s, ClearCache) == Some(cleared) && Run(cleared, steps) == Some(before)
    requires forall i :: 0 <= i < |steps| ==> !steps[i].Store?
    requires Next(before, Enter(t, expired)) == Some(after)
    ensures t in after.threads && after.threads[t].Building? && after.served == before.served
  {
    CachedByStoreOnly(s, ClearCache, cleared);
    StaysCleared(cleared, steps, before);
    HitIff(before, t, expired, after);
  }

  // ------------------------------------------------------------- a build comes to its end

  /** How far a builder is from its end while the pool stands still: backends left, reads left on this
      one before its models, models left. */
  function Ahead(b: Builder, pool: nat): nat
    requires Sound(b)
  {
    match b
    case ReadPool => pool + 1
    case ReadHealthy(todo, _) => |todo|
    case ReadStatic(todo, _) => |todo|
    case ReadModels(todo, _) => |todo|
    case TestOwner(todo, _, _) => |todo|
    case UseOwner(todo, _, _) => |todo|
    case Built(_) => 0
  }

  function Stage(b: Builder): nat {
    if b.ReadHealthy? then 3 else if b.ReadStatic? then 2 else if b.ReadModels? then 1 else 0
  }

  function ModelsLeft(b: Builder): nat {
    if b.TestOwner? then 2 * |b.rest| + 1 else if b.UseOwner? then 2 * |b.rest| else 0
  }

  predicate Nearer(b': Builder, b: Builder, pool: nat)
    requires Sound(b) && Sound(b')
  {
    || Ahead(b', pool) < Ahead(b, pool)
    || (Ahead(b', pool) == Ahead(b, pool) && Stage(b') < Stage(b))
    || (Ahead(b', pool) == Ahead(b, pool) && Stage(b') == Stage(b) && ModelsLeft(b') < ModelsLeft(b))
  }

  lemma {:induction false} AtModelNearer(override: string, todo: seq<Id>, rest: seq<string>, acc: seq<Model>, pool: nat)
    requires todo != []
    ensures var b := AtModel(override, todo, rest, acc);
            || Ahead(b, pool) < |todo|
            || (Ahead(b, pool) == |todo| && b.TestOwner? && |b.rest| <= |rest|)
    decreases |rest|
  {
    if rest != [] && Listed(acc, rest[0]) {
      AtModelNearer(override, todo, rest[1..], acc, pool);
    } else if rest != [] && override != "" {
      AtModelNearer(override, todo, rest[1..], acc + [Model(rest[0], override)], pool);
    }
  }

  lemma FeedNearer(override: string, b: Builder, v: Value, pool: nat)
    requires Sound(b) && !b.Built? && (b.ReadPool? ==> |AsIds(v)| == pool)
    ensures Nearer(Feed(override, b, v), b, pool)
  {
    match b
    case ReadModels(todo, acc) => AtModelNearer(override, todo, AsNames(v), acc, pool);
    case TestOwner(todo, rest, acc) =>
      AtModelNearer(override, todo, rest[1..], acc + [Model(rest[0], "self-hosted")], pool);
    case UseOwner(todo, rest, acc) =>
      AtModelNearer(override, todo, rest[1..], acc + [Model(rest[0], AsText(v))], pool);
    case _ =>
  }

  lemma OneMoreRead(s: State, t: Tid) returns (s': State)
    requires t in s.threads && s.threads[t].Building? && Sound(s.threads[t].b) && !s.threads[t].b.Built?
    ensures Next(s, Read(t)) == Some(s') && t in s'.threads && s'.threads[t].Building?
    ensures s' == s.(threads := s.threads[t := s'.threads[t]]) && s'.threads[t].version == s.threads[t].version
    ensures Sound(s'.threads[t].b) && Nearer(s'.threads[t].b, s.threads[t].b, |PoolIds(s)|)
  {
    s' := Next(s, Read(t)).value;
    var b := s.threads[t].b;
    FeedNearer(s.override, b, Current(s, Wants(b)), |PoolIds(s)|);
  }

  /** Left alone, a build reads its way to a list. */
  lemma {:induction false} BuildEnds(s: State, t: Tid) returns (steps: seq<Step>, s': State)
    requires t in s.threads && s.threads[t].Building? && Sound(s.threads[t].b)
    ensures Run(s, steps) == Some(s') && forall i :: 0 <= i < |steps| ==> steps[i] == Read(t)
    ensures t in s'.threads && s'.threads[t].Building? && s'.threads[t].b.Built?
    ensures s' == s.(threads := s.threads[t := s'.threads[t]]) && s'.threads[t].version == s.threads[t].version
    decreases Ahead(s.threads[t].b, |PoolIds(s)|), Stage(s.threads[t].b), ModelsLeft(s.threads[t].b)
  {
    if s.threads[t].b.Built? {
      steps, s' := [], s;
      assert s.threads[t := s.threads[t]] == s.threads;
    } else {
      var mid := OneMoreRead(s, t);
      assert History(mid, Pool) == History(s, Pool);
      var rest;
      rest, s' := BuildEnds(mid, t);
      steps := [Read(t)] + rest;
      OneStep(s, Read(t), mid);
      RunConcat(s, [Read(t)], mid, rest, s');
      assert mid.threads[t := s'.threads[t]] == s.threads[t := s'.threads[t]];
    }
  }

  lemma SameHistoryUnwritten(s: State, s': State)
    requires s'.history == s.history
    ensures Unwritten(s, s') && forall l :: Now(s')(l) == Now(s)(l)
  {
    SameHistories(s, s');
  }

  /** From any state in which no list is being built, whatever failed reloads have left there: a request
      that finds the cache expired can run on its own to its answer, writes nothing, and both serves and
      caches the list of the pool for the current version. */
  lemma ExpiryHeals(s: State, t: Tid) returns (steps: seq<Step>, s': State)
    requires t !in s.threads && s.listLock.None?
    ensures Run(s, steps) == Some(s') && (forall i :: 0 <= i < |steps| ==> !steps[i].ClearCache? && steps[i].t == t)
    ensures s'.history == s.history && s'.version == s.version && s'.listLock.None? && s'.threads == s.threads
    ensures s'.cached.Some? && s'.cached.value.version == s.version
    ensures s'.cached.value.list == ListAt(s.override, Now(s)) && s'.served == s.served + [s'.cached.value]
  {
    var loaded := With(s, t, Loaded(s.version));
    var entered := With(loaded, t, Building(s.version, ReadPool, [])).(listLock := Some(t));
    assert Next(s, LoadVersion(t)) == Some(loaded) && Next(loaded, Enter(t, true)) == Some(entered);
    var building, almost := BuildEnds(entered, t);
    s' := Next(almost, Store(t)).value;
    SameHistoryUnwritten(entered, almost);
    UndisturbedBuildIsRight(loaded, t, true, entered, building, almost, s');
    StoreEffect(almost, t, s');
    SameHistoryUnwritten(s, s');
    SameMomentSameList(s.override, Now(s), Now(s'));
    OneStep(s, LoadVersion(t), loaded);
    OneStep(loaded, Enter(t, true), entered);
    OneStep(almost, Store(t), s');
    RunConcat(s, [LoadVersion(t)], loaded, [Enter(t, true)], entered);
    RunConcat(s, [LoadVersion(t)] + [Enter(t, true)], entered, building, almost);
    steps := [LoadVersion(t)] + [Enter(t, true)] + building + [Store(t)];
    RunConcat(s, [LoadVersion(t)] + [Enter(t, true)] + building, almost, [Store(t)], s');
  }
}
