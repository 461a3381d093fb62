/** Which thread a step moves, what it leaves alone, and the two locks. */
module CacheFrames {
  import opened Options
  import opened CacheProtocol

  /** Threads that have written and are about to bump. */
  function Pending(s: State): set<Tid> {
    set t | t in s.threads && s.threads[t].Bumping?
  }

  lemma PendingUpdate(s: State, s': State, t: Tid, th: Thread)
    requires s'.threads == s.threads[t := th]
    ensures Pending(s') == if th.Bumping? then Pending(s) + {t} else Pending(s) - {t}
  {
  }

  function Actor(step: Step): Tid {
    if step.ClearCache? then 0 else step.t
  }

  /** Every thread but t stays where it is. */
  predicate OthersStay(s: State, s': State, t: Tid) {
    && (forall u :: u in s'.threads && u != t ==> u in s.threads && s'.threads[u] == s.threads[u])
    && (forall u :: u in s.threads && u != t ==> u in s'.threads && s'.threads[u] == s.threads[u])
  }

  lemma OnlyActorMoves(s: State, step: Step, s': State)
    requires Next(s, step) == Some(s')
    ensures OthersStay(s, s', Actor(step))
  {
    match step
    case CompareAndSwap(t) => OnlySwapperMoves(s, t, s.threads[t].id, s.threads[t].Tripping?);
    case StartReload(t, cfgs) => OnlyReloaderMoves(s, step, s');
    case WriteField(t) => OnlyReloaderMoves(s, step, s');
    case Bump(_) => OnlyFinisherMoves(s, step, s');
    case FailReload(_) => OnlyFinisherMoves(s, step, s');
    case Store(_) => OnlyFinisherMoves(s, step, s');
    case Enter(_, _) => OnlyListerMoves(s, step, s');
    case Read(_) => OnlyListerMoves(s, step, s');
    case _ => OnlyStarterMoves(s, step, s');
  }

  lemma OnlySwapperMoves(s: State, t: Tid, id: Id, was: bool)
    ensures OthersStay(s, Swap(s, t, id, was), t)
  {
  }

  lemma OnlyReloaderMoves(s: State, step: Step, s': State)
    requires Next(s, step) == Some(s') && (step.StartReload? || step.WriteField?)
    ensures OthersStay(s, s', Actor(step))
  {
  }

  lemma OnlyFinisherMoves(s: State, step: Step, s': State)
    requires Next(s, step) == Some(s') && (step.Bump? || step.FailReload? || step.Store?)
    ensures OthersStay(s, s', Actor(step))
  {
  }

  lemma OnlyStarterMoves(s: State, step: Step, s': State)
    requires Next(s, step) == Some(s')
    requires step.CountFailure? || step.ResetCount? || step.LoadVersion? || step.ClearCache?
    ensures OthersStay(s, s', Actor(step))
  {
  }

  lemma OnlyListerMoves(s: State, step: Step, s': State)
    requires Next(s, step) == Some(s') && (step.Enter? || step.Read?)
    ensures OthersStay(s, s', Actor(step))
  {
  }

  /** Steps that write no shared location, announce nothing and lose nothing. */
  predicate WritesNothing(step: Step) {
    !step.CompareAndSwap? && !step.Bump? && !step.WriteField? && !step.FailReload?
  }

  lemma SharedFrame(s: State, step: Step, s': State)
    requires WritesNothing(step) && Next(s, step) == Some(s')
    ensures s'.history == s.history && s'.announced == s.announced && s'.version == s.version && s'.lost == s.lost
    ensures s'.flips == s.flips && s'.commits == s.commits
  {
  }

  lemma ActorFrame(s: State, step: Step, s': State)
    requires WritesNothing(step) && Next(s, step) == Some(s')
    ensures step.ClearCache? ==> s'.threads == s.threads
    ensures !step.ClearCache? && step.t in s.threads ==> !s.threads[step.t].Reloading? && !s.threads[step.t].Bumping?
    ensures !step.ClearCache? && step.t in s'.threads ==> !s'.threads[step.t].Bumping?
  {
    match step
    case StartReload(t, cfgs) => assert t !in s.threads && s'.threads[t].Reloading?;
    case Enter(t, _) => assert t in s'.threads ==> s'.threads[t].Building?;
    case _ =>
  }

  lemma FrameOfOthers(s: State, step: Step, s': State)
    requires WritesNothing(step) && Next(s, step) == Some(s')
    ensures s'.history == s.history && s'.announced == s.announced && s'.version == s.version && s'.lost == s.lost
    ensures s'.flips == s.flips && s'.commits == s.commits
    ensures OthersStay(s, s', Actor(step))
    ensures Pending(s') == Pending(s)
    ensures Actor(step) in s.threads ==>
              step.ClearCache? || (!s.threads[Actor(step)].Reloading? && !s.threads[Actor(step)].Bumping?)
    ensures step.ClearCache? ==> s'.threads == s.threads
  {
    SharedFrame(s, step, s');
    ActorFrame(s, step, s');
    OnlyActorMoves(s, step, s');
  }

  lemma CurrentAfterPut(s: State, s': State, at: Loc, v: Value, l: Loc)
    requires s'.history == Put(s, at, v).history
    ensures Current(s', l) == if l == at then v else Current(s, l)
  {
    assert History(s', l) == History(Put(s, at, v), l);
  }

  // ----------------------------------------------------------- one reload at a time

  predicate HoldsPool(th: Thread) {
    th.Reloading? || (th.Bumping? && th.reload)
  }

  /** The two locks belong to the threads that work under them. */
  ghost predicate Exclusive(s: State) {
    && (forall t :: t in s.threads && HoldsPool(s.threads[t]) ==> s.poolLock == Some(t))
    && (forall t :: t in s.threads && s.threads[t].Building? ==> s.listLock == Some(t))
  }

  /** A step takes a lock only when it is free, and gives up only its own. */
  lemma PoolLockMoves(s: State, step: Step, s': State)
    requires Exclusive(s) && Next(s, step) == Some(s')
    ensures s'.poolLock == s.poolLock || s.poolLock == None || s.poolLock == Some(Actor(step))
    ensures Actor(step) in s'.threads && HoldsPool(s'.threads[Actor(step)]) ==> s'.poolLock == Some(Actor(step))
  {
    match step
    case CompareAndSwap(t) => assert !HoldsPool(s.threads[t]);
    case Bump(t) => assert t !in s'.threads;
    case StartReload(t, cfgs) => assert s'.poolLock == Some(t);
    case WriteField(t) => assert HoldsPool(s.threads[t]) && s'.poolLock == s.poolLock;
    case FailReload(t) => assert t !in s'.threads;
    case _ => NoPoolLock(s, step, s');
  }

  lemma NoPoolLock(s: State, step: Step, s': State)
    requires Exclusive(s) && Next(s, step) == Some(s')
    requires !step.CompareAndSwap? && !step.Bump? && !step.StartReload? && !step.WriteField? && !step.FailReload?
    ensures s'.poolLock == s.poolLock
    ensures Actor(step) in s'.threads && HoldsPool(s'.threads[Actor(step)]) ==> s'.poolLock == Some(Actor(step))
  {
    match step
    case Read(t) => assert s'.threads[t].Building?;
    case Enter(t, _) => assert t in s'.threads ==> s'.threads[t].Building?;
    case Store(t) => assert t !in s'.threads;
    case ClearCache => assert s'.threads == s.threads;
    case CountFailure(t, _) => assert t in s'.threads ==> s'.threads[t].Tripping?;
    case ResetCount(t, _) => assert s'.threads[t].Recovering?;
    case LoadVersion(t) => assert s'.threads[t].Loaded?;
  }

  lemma ListLockMoves(s: State, step: Step, s': State)
    requires Exclusive(s) && Next(s, step) == Some(s')
    ensures s'.listLock == s.listLock || s.listLock == None || s.listLock == Some(Actor(step))
    ensures Actor(step) in s'.threads && s'.threads[Actor(step)].Building? ==> s'.listLock == Some(Actor(step))
  {
    match step
    case Enter(t, _) => assert t in s'.threads ==> s'.listLock == Some(t);
    case Read(t) => assert s.threads[t].Building? && s'.listLock == s.listLock;
    case Store(t) => assert t !in s'.threads;
    case ClearCache =>
    case _ => NoListLock(s, step, s');
  }

  lemma NoListLock(s: State, step: Step, s': State)
    requires Exclusive(s) && Next(s, step) == Some(s')
    requires !step.Enter? && !step.Read? && !step.Store? && !step.ClearCache?
    ensures s'.listLock == s.listLock
    ensures Actor(step) in s'.threads ==> !s'.threads[Actor(step)].Building?
  {
    if step.StartReload? || step.WriteField? || step.FailReload? {
      ReloadsTakeNoListLock(s, step, s');
    } else {
      RecordersTakeNoListLock(s, step, s');
    }
  }

  lemma ReloadsTakeNoListLock(s: State, step: Step, s': State)
    requires Next(s, step) == Some(s') && (step.StartReload? || step.WriteField? || step.FailReload?)
    ensures s'.listLock == s.listLock
    ensures step.t in s'.threads ==> !s'.threads[step.t].Building?
  {
    if step.StartReload? { assert s'.threads[step.t].Reloading?; }
  }

  lemma RecordersTakeNoListLock(s: State, step: Step, s': State)
    requires Next(s, step) == Some(s')
    requires step.CountFailure? || step.ResetCount? || step.CompareAndSwap? || step.Bump? || step.LoadVersion?
    ensures s'.listLock == s.listLock
    ensures step.t in s'.threads ==> !s'.threads[step.t].Building?
  {
  }

  /** Two threads that hold the pool's lock are one. */
  lemma SameHolder(s: State, t: Tid, u: Tid)
    requires Exclusive(s) && t in s.threads && u in s.threads && HoldsPool(s.threads[t]) && HoldsPool(s.threads[u])
    ensures t == u
  {
  }

  lemma ExclusiveStep(s: State, step: Step, s': State)
    requires Exclusive(s) && Next(s, step) == Some(s')
    ensures Exclusive(s')
  {
    PoolLockMoves(s, step, s');
    ListLockMoves(s, step, s');
    OnlyActorMoves(s, step, s');
    LocksOfOthers(s, s', Actor(step));
  }

  lemma LocksOfOthers(s: State, s': State, t: Tid)
    requires Exclusive(s)
    requires OthersStay(s, s', t)
    requires s'.poolLock == s.poolLock || s.poolLock == None || s.poolLock == Some(t)
    requires s'.listLock == s.listLock || s.listLock == None || s.listLock == Some(t)
    requires t in s'.threads && HoldsPool(s'.threads[t]) ==> s'.poolLock == Some(t)
    requires t in s'.threads && s'.threads[t].Building? ==> s'.listLock == Some(t)
    ensures Exclusive(s')
  {
  }
}
