/** What every run of `CacheProtocol` keeps, and what clients of `/v1/models` can rely on. */
module CacheProofs {
  import opened Configs
  import opened Options
  import opened PoolSpec
  import opened CacheProtocol
  import opened CacheFrames
  import opened CachePlans

  // ------------------------------------------------------------ grounded lists

  ghost predicate Marked(s: State, m: Marks) {
    forall l :: At(m, l) <= Newest(s, l)
  }

  /** A read of a real value, no older than anything announced when version v was set. */
  predicate Witnessed(s: State, v: nat, e: Seen) {
    && e.pos <= Newest(s, e.at)
    && History(s, e.at)[e.pos] == e.value
    && Announced(s, v, e.at) <= e.pos
  }

  predicate Grounded(s: State, v: nat, seen: seq<Seen>) {
    v <= s.version && forall k :: 0 <= k < |seen| ==> Witnessed(s, v, seen[k])
  }

  /** The list is what the builder makes of reads that are all grounded. */
  predicate GroundedEntry(s: State, e: Entry) {
    Grounded(s, e.version, e.seen) && Replay(s.override, e.seen) == Some(Built(e.list))
  }

  ghost predicate ThreadOk(s: State, th: Thread) {
    match th
    case Tripping(_) => true
    case Recovering(_) => true
    case Reloading(todo, ok, writes) =>
      Marked(s, writes) && (ok ==> todo != []) && forall k :: 0 <= k < |todo| ==> !todo[k].at.Healthy?
    case Bumping(_, writes) => Marked(s, writes)
    case Loaded(v) => v <= s.version
    case Building(v, b, seen) => Grounded(s, v, seen) && Replay(s.override, seen) == Some(b)
  }

  ghost predicate Versions(s: State) {
    && |s.announced| == s.version + 1
    && (forall v :: 0 <= v <= s.version ==> Marked(s, s.announced[v]))
    && (forall v, w, l :: 0 <= v <= w <= s.version ==> Announced(s, v, l) <= Announced(s, w, l))
  }

  ghost predicate Grounding(s: State) {
    && Versions(s)
    && (forall t :: t in s.threads ==> ThreadOk(s, s.threads[t]))
    && (s.cached.Some? ==> GroundedEntry(s, s.cached.value))
    && (forall k :: 0 <= k < |s.served| ==> GroundedEntry(s, s.served[k]))
  }

  /** Histories, versions and the record of served lists only grow. */
  ghost predicate Extends(s: State, s': State) {
    && s'.override == s.override
    && s.version <= s'.version
    && s.announced <= s'.announced
    && s.served <= s'.served
    && forall l :: History(s, l) <= History(s', l)
  }

  lemma GroundedExtends(s: State, s': State, v: nat, seen: seq<Seen>)
    requires Extends(s, s') && Versions(s) && Grounded(s, v, seen)
    ensures Grounded(s', v, seen)
  {
    forall k | 0 <= k < |seen| ensures Witnessed(s', v, seen[k]) {
      assert Witnessed(s, v, seen[k]);
      assert History(s, seen[k].at) <= History(s', seen[k].at);
      assert s'.announced[v] == s.announced[v];
    }
  }

  lemma MarkedExtends(s: State, s': State, m: Marks)
    requires Extends(s, s') && Marked(s, m)
    ensures Marked(s', m)
  {
    forall l ensures At(m, l) <= Newest(s', l) {
      assert At(m, l) <= Newest(s, l);
      assert History(s, l) <= History(s', l);
    }
  }

  lemma ThreadOkExtends(s: State, s': State, th: Thread)
    requires Extends(s, s') && Versions(s) && ThreadOk(s, th)
    ensures ThreadOk(s', th)
  {
    match th
    case Tripping(_) =>
    case Recovering(_) =>
    case Reloading(_, _, writes) => MarkedExtends(s, s', writes);
    case Bumping(_, writes) => MarkedExtends(s, s', writes);
    case Loaded(_) =>
    case Building(v, _, seen) => GroundedExtends(s, s', v, seen);
  }

  /** A step that only extends the past keeps the invariant if what it newly puts down is sound. */
  lemma GroundingExtends(s: State, s': State)
    requires Grounding(s) && Extends(s, s') && Versions(s')
    requires forall t :: t in s'.threads ==> (t in s.threads && s'.threads[t] == s.threads[t]) || ThreadOk(s', s'.threads[t])
    requires s'.cached == s.cached || s'.cached == None || GroundedEntry(s', s'.cached.value)
    requires forall k :: |s.served| <= k < |s'.served| ==> GroundedEntry(s', s'.served[k]) || Some(s'.served[k]) == s.cached
    ensures Grounding(s')
  {
    forall t | t in s'.threads ensures ThreadOk(s', s'.threads[t]) {
      if t in s.threads && s'.threads[t] == s.threads[t] { ThreadOkExtends(s, s', s.threads[t]); }
    }
    if s.cached.Some? { GroundedExtends(s, s', s.cached.value.version, s.cached.value.seen); }
    forall k | 0 <= k < |s'.served| ensures GroundedEntry(s', s'.served[k]) {
      if k < |s.served| { GroundedExtends(s, s', s.served[k].version, s.served[k].seen); }
    }
  }

  lemma VersionsKept(s: State, s': State)
    requires Versions(s) && Extends(s, s') && s'.version == s.version && s'.announced == s.announced
    ensures Versions(s')
  {
    forall v | 0 <= v <= s'.version ensures Marked(s', s'.announced[v]) {
      MarkedExtends(s, s', s.announced[v]);
    }
    forall v, w, l | 0 <= v <= w <= s'.version ensures Announced(s', v, l) <= Announced(s', w, l) {
      assert Announced(s, v, l) <= Announced(s, w, l);
    }
  }

  lemma PutExtends(s: State, l: Loc, v: Value)
    ensures Extends(s, Put(s, l, v))
    ensures forall k :: k != l ==> History(Put(s, l, v), k) == History(s, k)
    ensures History(Put(s, l, v), l) == History(s, l) + [v]
  {
  }

  /** Writing a location and remembering where keeps marks below the newest values. */
  lemma MarkedWrite(s: State, s': State, m: Marks, l: Loc, v: Value)
    requires Marked(s, m) && s'.history == Put(s, l, v).history
    ensures Marked(s', m[l := |History(s, l)|])
  {
    forall k ensures At(m[l := |History(s, l)|], k) <= Newest(s', k) {
      assert At(m, k) <= Newest(s, k);
      assert History(s', k) == History(Put(s, l, v), k);
      PutExtends(s, l, v);
    }
  }

  lemma SwapGrounding(s: State, t: Tid, id: Id, was: bool)
    requires Grounding(s)
    ensures Grounding(Swap(s, t, id, was)) && Extends(s, Swap(s, t, id, was))
  {
    var s' := Swap(s, t, id, was);
    PutExtends(s, Healthy(id), Flag(!was));
    assert Extends(s, s');
    VersionsKept(s, s');
    if AsFlag(Current(s, Healthy(id))) == was {
      MarkedWrite(s, s', map[], Healthy(id), Flag(!was));
      assert ThreadOk(s', s'.threads[t]);
    }
    GroundingExtends(s, s');
  }

  /** What a bump does to the announcements. */
  lemma BumpEffect(s: State, t: Tid, s': State)
    requires Versions(s) && Next(s, Bump(t)) == Some(s')
    ensures t in s.threads && s.threads[t].Bumping?
    ensures s'.version == s.version + 1 && s'.history == s.history && s'.override == s.override
    ensures s'.announced == s.announced + [Later(s.announced[s.version], s.threads[t].writes)]
    ensures s'.threads == s.threads - {t} && s'.cached == s.cached && s'.served == s.served
  {
  }

  lemma BumpVersions(s: State, t: Tid, s': State)
    requires Grounding(s) && Next(s, Bump(t)) == Some(s')
    ensures Versions(s') && Extends(s, s')
    ensures forall l :: At(s.threads[t].writes, l) <= Announced(s', s'.version, l)
  {
    BumpEffect(s, t, s');
    var last := s.announced[s.version];
    var m := Later(last, s.threads[t].writes);
    assert ThreadOk(s, s.threads[t]) && Marked(s, last);
    assert forall l :: History(s', l) == History(s, l);
    assert Extends(s, s');
    assert Marked(s', m) by {
      forall l ensures At(m, l) <= Newest(s', l) {
        assert At(last, l) <= Newest(s, l) && At(s.threads[t].writes, l) <= Newest(s, l);
      }
    }
    forall v | 0 <= v <= s'.version ensures Marked(s', s'.announced[v]) {
      if v <= s.version { MarkedExtends(s, s', s.announced[v]); }
    }
    forall v, w, l | 0 <= v <= w <= s'.version ensures Announced(s', v, l) <= Announced(s', w, l) {
      if v <= s.version {
        assert Announced(s', v, l) == Announced(s, v, l) <= Announced(s, s.version, l);
        if w <= s.version { assert Announced(s', w, l) == Announced(s, w, l); }
      }
    }
  }

  lemma BumpGrounding(s: State, t: Tid, s': State)
    requires Grounding(s) && Next(s, Bump(t)) == Some(s')
    ensures Grounding(s') && Extends(s, s')
    ensures forall l :: At(s.threads[t].writes, l) <= Announced(s', s'.version, l)
  {
    BumpEffect(s, t, s');
    BumpVersions(s, t, s');
    GroundingExtends(s, s');
  }

  lemma WriteGrounding(s: State, t: Tid, s': State)
    requires Grounding(s) && Next(s, WriteField(t)) == Some(s')
    ensures Grounding(s') && Extends(s, s')
  {
    var th := s.threads[t];
    var w := th.todo[0];
    assert ThreadOk(s, th);
    PutExtends(s, w.at, w.value);
    assert Extends(s, s') by {
      forall l ensures History(s, l) <= History(s', l) {
        assert History(s', l) == History(Put(s, w.at, w.value), l);
      }
    }
    VersionsKept(s, s');
    MarkedWrite(s, s', th.writes, w.at, w.value);
    assert ThreadOk(s', s'.threads[t]);
    GroundingExtends(s, s');
  }

  lemma ReadGrounding(s: State, t: Tid, s': State)
    requires Grounding(s) && Next(s, Read(t)) == Some(s')
    ensures Grounding(s') && Extends(s, s')
  {
    var th := s.threads[t];
    var l := Wants(th.b);
    var e := Seen(l, Newest(s, l), Current(s, l));
    assert ThreadOk(s, th);
    assert Extends(s, s');
    VersionsKept(s, s');
    assert Witnessed(s', th.version, e) by {
      assert At(s.announced[th.version], l) <= Newest(s, l);
    }
    GroundedExtends(s, s', th.version, th.seen);
    assert (th.seen + [e])[..|th.seen|] == th.seen;
    assert ThreadOk(s', s'.threads[t]);
    GroundingExtends(s, s');
  }

  lemma StoreGrounding(s: State, t: Tid, s': State)
    requires Grounding(s) && Next(s, Store(t)) == Some(s')
    ensures Grounding(s') && Extends(s, s')
  {
    assert ThreadOk(s, s.threads[t]);
    assert Extends(s, s');
    VersionsKept(s, s');
    GroundedExtends(s, s', s.threads[t].version, s.threads[t].seen);
    GroundingExtends(s, s');
  }

  lemma StartReloadGrounding(s: State, t: Tid, cfgs: seq<Config>, s': State)
    requires Grounding(s) && Next(s, StartReload(t, cfgs)) == Some(s')
    ensures Grounding(s') && Extends(s, s')
  {
    PlanSpares(cfgs, AsIds(Current(s, Pool)), s.names, s.names, []);
    assert Extends(s, s');
    VersionsKept(s, s');
    assert Marked(s', map[]);
    assert ThreadOk(s', s'.threads[t]);
    GroundingExtends(s, s');
  }

  /** A hit hands out the cached list; anything else starts a build. */
  lemma EnterEffect(s: State, t: Tid, expired: bool, s': State)
    requires Next(s, Enter(t, expired)) == Some(s')
    ensures t in s.threads && s.threads[t].Loaded? && s'.cached == s.cached
    ensures if t in s'.threads
            then s'.served == s.served && s'.threads == s.threads[t := Building(s.threads[t].version, ReadPool, [])]
            else s.cached.Some? && s'.served == s.served + [s.cached.value] && s'.threads == s.threads - {t}
  {
  }

  lemma EnterGrounding(s: State, t: Tid, expired: bool, s': State)
    requires Grounding(s) && Next(s, Enter(t, expired)) == Some(s')
    ensures Grounding(s') && Extends(s, s')
  {
    EnterEffect(s, t, expired, s');
    SharedFrame(s, Enter(t, expired), s');
    assert ThreadOk(s, s.threads[t]);
    assert Extends(s, s') by {
      forall l ensures History(s, l) <= History(s', l) { assert History(s', l) == History(s, l); }
    }
    VersionsKept(s, s');
    if t in s'.threads { assert ThreadOk(s', s'.threads[t]); }
    GroundingExtends(s, s');
  }

  /** Steps that touch no location, no version and no list. */
  lemma QuietGrounding(s: State, step: Step, s': State)
    requires Grounding(s) && Next(s, step) == Some(s')
    requires step.CountFailure? || step.ResetCount? || step.FailReload? || step.LoadVersion? || step.ClearCache?
    ensures Grounding(s') && Extends(s, s')
  {
    assert s'.history == s.history && s'.announced == s.announced && s'.version == s.version && s'.served == s.served;
    assert Extends(s, s');
    VersionsKept(s, s');
    forall t | t in s'.threads
      ensures (t in s.threads && s'.threads[t] == s.threads[t]) || ThreadOk(s', s'.threads[t])
    {
    }
    GroundingExtends(s, s');
  }

  lemma GroundingStep(s: State, step: Step, s': State)
    requires Grounding(s) && Next(s, step) == Some(s')
    ensures Grounding(s') && Extends(s, s')
  {
    match step
    case CompareAndSwap(t) => SwapGrounding(s, t, s.threads[t].id, s.threads[t].Tripping?);
    case Bump(t) => BumpGrounding(s, t, s');
    case WriteField(t) => WriteGrounding(s, t, s');
    case Read(t) => ReadGrounding(s, t, s');
    case Store(t) => StoreGrounding(s, t, s');
    case StartReload(t, cfgs) => StartReloadGrounding(s, t, cfgs, s');
    case Enter(t, expired) => EnterGrounding(s, t, expired, s');
    case CountFailure(_, _) => QuietGrounding(s, step, s');
    case ResetCount(_, _) => QuietGrounding(s, step, s');
    case FailReload(_) => QuietGrounding(s, step, s');
    case LoadVersion(_) => QuietGrounding(s, step, s');
    case ClearCache => QuietGrounding(s, step, s');
  }

  // ------------------------------------------------- nothing is forgotten

  /** The newest value of the location is announced, about to be announced by some thread, or was
      written by a reload that failed. */
  ghost predicate Covered(s: State, l: Loc) {
    || Newest(s, l) <= Announced(s, s.version, l)
    || Newest(s, l) <= At(s.lost, l)
    || exists t :: t in s.threads && Newest(s, l) <= At(Unannounced(s.threads[t]), l)
  }

  function PoolIds(s: State): seq<Id> {
    AsIds(Current(s, Pool))
  }

  /** The pool, the health flags, and the fields of the backends in the pool.  A backend that a reload
      has dropped never comes back. */
  predicate Relevant(s: State, l: Loc) {
    match l
    case Pool => true
    case Healthy(_) => true
    case Models(id) => id in PoolIds(s)
    case Owner(id) => id in PoolIds(s)
    case Static(id) => id in PoolIds(s)
  }

  ghost predicate Coverage(s: State) {
    forall l :: Relevant(s, l) ==> Covered(s, l)
  }

  /** Carrying one thread's unannounced writes over, whatever happens to that thread. */
  lemma CoveredKept(s: State, s': State, t: Tid, l: Loc)
    requires Covered(s, l) && Newest(s', l) == Newest(s, l)
    requires Announced(s, s.version, l) <= Announced(s', s'.version, l)
    requires At(s.lost, l) <= At(s'.lost, l) || At(s.lost, l) == 0
    requires forall u :: u in s.threads && u != t ==> u in s'.threads && s'.threads[u] == s.threads[u]
    requires t in s.threads ==>
               || At(Unannounced(s.threads[t]), l) == 0
               || (t in s'.threads && At(Unannounced(s.threads[t]), l) <= At(Unannounced(s'.threads[t]), l))
               || At(Unannounced(s.threads[t]), l) <= Announced(s', s'.version, l)
               || At(Unannounced(s.threads[t]), l) <= At(s'.lost, l)
    ensures Covered(s', l)
  {
    if u :| u in s.threads && Newest(s, l) <= At(Unannounced(s.threads[u]), l) {
      if u != t { assert u in s'.threads && Newest(s', l) <= At(Unannounced(s'.threads[u]), l); }
    }
  }

  lemma SwapCoverage(s: State, t: Tid, id: Id, was: bool)
    requires Grounding(s) && Coverage(s) && t in s.threads && !s.threads[t].Reloading? && !s.threads[t].Bumping?
    ensures Coverage(Swap(s, t, id, was))
  {
    var s' := Swap(s, t, id, was);
    SwapSpares(s, t, id, was, Pool);
    forall l | Relevant(s', l) ensures Covered(s', l) {
      assert Relevant(s, l) && Covered(s, l);
      if AsFlag(Current(s, Healthy(id))) == was && l == Healthy(id) {
        FlipCovered(s, t, id, was);
      } else {
        SwapElsewhere(s, t, id, was, l);
        CoveredKept(s, s', t, l);
      }
    }
  }

  lemma FlipCovered(s: State, t: Tid, id: Id, was: bool)
    requires AsFlag(Current(s, Healthy(id))) == was
    ensures Covered(Swap(s, t, id, was), Healthy(id))
  {
    var s' := Swap(s, t, id, was);
    PutExtends(s, Healthy(id), Flag(!was));
    assert t in s'.threads && Newest(s', Healthy(id)) <= At(Unannounced(s'.threads[t]), Healthy(id));
  }

  lemma SwapElsewhere(s: State, t: Tid, id: Id, was: bool, l: Loc)
    requires AsFlag(Current(s, Healthy(id))) != was || l != Healthy(id)
    ensures Newest(Swap(s, t, id, was), l) == Newest(s, l)
  {
    if l != Healthy(id) { SwapSpares(s, t, id, was, l); }
  }

  lemma BumpCoverage(s: State, t: Tid, s': State)
    requires Grounding(s) && Coverage(s) && Next(s, Bump(t)) == Some(s')
    ensures Coverage(s')
  {
    BumpGrounding(s, t, s');
    assert History(s', Pool) == History(s, Pool);
    forall l | Relevant(s', l) ensures Covered(s', l) {
      assert Relevant(s, l) && Covered(s, l);
      assert Announced(s', s.version, l) == Announced(s, s.version, l);
      assert Announced(s', s.version, l) <= Announced(s', s'.version, l);
      CoveredKept(s, s', t, l);
    }
  }

  /** A write of a field, by a reload that goes on. */
  lemma FieldCoverage(s: State, t: Tid, s': State)
    requires Grounding(s) && Coverage(s) && AllThorough(s) && Next(s, WriteField(t)) == Some(s')
    requires s'.threads[t].Reloading?
    ensures Coverage(s')
  {
    WriteEffect(s, t, s');
    var w := s.threads[t].todo[0];
    assert Thorough(s, s.threads[t]) && !w.at.Pool?;
    CurrentAfterPut(s, s', w.at, w.value, Pool);
    OnlyActorMoves(s, WriteField(t), s');
    forall l | Relevant(s', l) ensures Covered(s', l) {
      assert Relevant(s, l) && Covered(s, l);
      if l == w.at {
        assert t in s'.threads && Newest(s', l) <= At(Unannounced(s'.threads[t]), l);
      } else {
        CoveredKept(s, s', t, l);
      }
    }
  }

  /** Publication: everything of the new pool has just been written, so what earlier reloads that
      failed have left behind no longer matters. */
  lemma PublishCoverage(s: State, t: Tid, s': State)
    requires Grounding(s) && Coverage(s) && AllThorough(s) && Next(s, WriteField(t)) == Some(s')
    requires !s'.threads[t].Reloading?
    ensures Coverage(s')
  {
    var th := s.threads[t];
    var w := th.todo[0];
    assert Thorough(s, th) && w.at.Pool? && th.todo == [w];
    CurrentAfterPut(s, s', Pool, w.value, Pool);
    forall l | Relevant(s', l) ensures Covered(s', l) {
      CurrentAfterPut(s, s', Pool, w.value, l);
      match l
      case Pool => PublishedCovered(s, t, s', l);
      case Healthy(id) => FlagCovered(s, t, s', id);
      case Models(id) => FieldWritten(s, t, id, l); PublishedCovered(s, t, s', l);
      case Owner(id) => FieldWritten(s, t, id, l); PublishedCovered(s, t, s', l);
      case Static(id) => FieldWritten(s, t, id, l); PublishedCovered(s, t, s', l);
    }
  }

  lemma FieldWritten(s: State, t: Tid, id: Id, l: Loc)
    requires t in s.threads && s.threads[t].Reloading? && Thorough(s, s.threads[t])
    requires s.threads[t].ok && |s.threads[t].todo| == 1 && id in AsIds(s.threads[t].todo[0].value) && FieldOf(l, id)
    ensures Newest(s, l) <= At(s.threads[t].writes, l)
  {
    assert !Writes(s.threads[t].todo, l);
  }

  lemma PublishedCovered(s: State, t: Tid, s': State, l: Loc)
    requires Next(s, WriteField(t)) == Some(s') && s.threads[t].todo[0].at.Pool?
    requires l.Pool? || Newest(s, l) <= At(s.threads[t].writes, l)
    ensures Covered(s', l)
  {
    CurrentAfterPut(s, s', Pool, s.threads[t].todo[0].value, l);
    assert t in s'.threads && Newest(s', l) <= At(Unannounced(s'.threads[t]), l);
  }

  lemma FlagCovered(s: State, t: Tid, s': State, id: Id)
    requires Coverage(s) && AllThorough(s) && Next(s, WriteField(t)) == Some(s') && s.threads[t].todo[0].at.Pool?
    ensures Covered(s', Healthy(id))
  {
    var l := Healthy(id);
    CurrentAfterPut(s, s', Pool, s.threads[t].todo[0].value, l);
    assert Covered(s, l) && Thorough(s, s.threads[t]);
    CoveredKept(s, s', t, l);
  }

  lemma WriteCoverage(s: State, t: Tid, s': State)
    requires Grounding(s) && Coverage(s) && AllThorough(s) && Next(s, WriteField(t)) == Some(s')
    ensures Coverage(s')
  {
    if s'.threads[t].Reloading? { FieldCoverage(s, t, s'); } else { PublishCoverage(s, t, s'); }
  }

  lemma FailCoverage(s: State, t: Tid, s': State)
    requires Coverage(s) && Next(s, FailReload(t)) == Some(s')
    ensures Coverage(s')
  {
    assert History(s', Pool) == History(s, Pool);
    forall l | Relevant(s', l) ensures Covered(s', l) {
      assert Relevant(s, l) && Covered(s, l);
      CoveredKept(s, s', t, l);
    }
  }

  lemma QuietCoverage(s: State, step: Step, s': State)
    requires Coverage(s) && WritesNothing(step) && Next(s, step) == Some(s')
    ensures Coverage(s')
  {
    FrameOfOthers(s, step, s');
    assert History(s', Pool) == History(s, Pool);
    forall l | Relevant(s', l) ensures Covered(s', l) {
      assert Relevant(s, l) && Covered(s, l);
      CoveredKept(s, s', Actor(step), l);
    }
  }

  lemma CoverageStep(s: State, step: Step, s': State)
    requires Grounding(s) && Coverage(s) && AllThorough(s) && Next(s, step) == Some(s')
    ensures Coverage(s')
  {
    match step
    case CompareAndSwap(t) => SwapCoverage(s, t, s.threads[t].id, s.threads[t].Tripping?);
    case Bump(t) => BumpCoverage(s, t, s');
    case WriteField(t) => WriteCoverage(s, t, s');
    case FailReload(t) => FailCoverage(s, t, s');
    case _ => QuietCoverage(s, step, s');
  }

  // -------------------------------------------------------- flips and versions

  /** The flag has alternated since the backend was created, once per successful swap. */
  ghost predicate Alternating(s: State) {
    forall id, k :: 0 <= k <= Newest(s, Healthy(id)) ==> History(s, Healthy(id))[k] == Flag(k % 2 == 0)
  }

  ghost predicate FlipsCounted(s: State) {
    forall id :: multiset(s.flips)[id] == Newest(s, Healthy(id))
  }

  predicate Accounted(s: State) {
    s.version + |Pending(s)| == |s.flips| + s.commits
  }

  ghost predicate Flipping(s: State) {
    Alternating(s) && FlipsCounted(s) && Accounted(s)
  }

  lemma FlipKeepsCounts(s: State, s': State, id: Id, b: bool)
    requires Alternating(s) && FlipsCounted(s) && Current(s, Healthy(id)) == Flag(!b)
    requires s'.history == Put(s, Healthy(id), Flag(b)).history && s'.flips == s.flips + [id]
    ensures Alternating(s') && FlipsCounted(s')
  {
    forall i ensures History(s', Healthy(i)) == History(s, Healthy(i)) + (if i == id then [Flag(b)] else []) {
      PutExtends(s, Healthy(id), Flag(b));
      assert History(s', Healthy(i)) == History(Put(s, Healthy(id), Flag(b)), Healthy(i));
    }
    FlipsGrow(s, s', id, b);
    FlagsAlternate(s, s', id, b);
  }

  lemma FlipsGrow(s: State, s': State, id: Id, b: bool)
    requires FlipsCounted(s) && s'.flips == s.flips + [id]
    requires forall i :: History(s', Healthy(i)) == History(s, Healthy(i)) + (if i == id then [Flag(b)] else [])
    ensures FlipsCounted(s')
  {
    forall i ensures multiset(s'.flips)[i] == Newest(s', Healthy(i)) {
      assert multiset(s.flips)[i] == Newest(s, Healthy(i));
    }
  }

  lemma FlagsAlternate(s: State, s': State, id: Id, b: bool)
    requires Alternating(s) && Current(s, Healthy(id)) == Flag(!b)
    requires forall i :: History(s', Healthy(i)) == History(s, Healthy(i)) + (if i == id then [Flag(b)] else [])
    ensures Alternating(s')
  {
    assert Current(s, Healthy(id)) == Flag(Newest(s, Healthy(id)) % 2 == 0);
    forall i, k | 0 <= k <= Newest(s', Healthy(i)) ensures History(s', Healthy(i))[k] == Flag(k % 2 == 0) {
      if k <= Newest(s, Healthy(i)) { assert History(s, Healthy(i))[k] == Flag(k % 2 == 0); }
    }
  }

  lemma SameFlags(s: State, s': State)
    requires Alternating(s) && FlipsCounted(s) && s'.flips == s.flips
    requires forall id :: History(s', Healthy(id)) == History(s, Healthy(id))
    ensures Alternating(s') && FlipsCounted(s')
  {
  }

  lemma SwapFlipping(s: State, t: Tid, id: Id, was: bool)
    requires Flipping(s) && t in s.threads && !s.threads[t].Bumping?
    ensures Flipping(Swap(s, t, id, was))
  {
    var s' := Swap(s, t, id, was);
    if AsFlag(Current(s, Healthy(id))) == was {
      assert Current(s, Healthy(id)) == Flag(was) by {
        assert History(s, Healthy(id))[Newest(s, Healthy(id))] == Flag(Newest(s, Healthy(id)) % 2 == 0);
      }
      FlipKeepsCounts(s, s', id, !was);
      PendingUpdate(s, s', t, s'.threads[t]);
    } else {
      SameFlags(s, s');
      assert Pending(s') == Pending(s);
    }
  }

  lemma BumpAccounted(s: State, t: Tid, s': State)
    requires Accounted(s) && Next(s, Bump(t)) == Some(s')
    ensures Accounted(s') && s'.flips == s.flips && s'.history == s.history
  {
    assert Pending(s') == Pending(s) - {t};
  }

  lemma BumpFlipping(s: State, t: Tid, s': State)
    requires Flipping(s) && Next(s, Bump(t)) == Some(s')
    ensures Flipping(s')
  {
    BumpAccounted(s, t, s');
    SameFlags(s, s');
  }

  lemma WriteSparesFlags(s: State, t: Tid, s': State)
    requires Grounding(s) && Next(s, WriteField(t)) == Some(s')
    ensures forall id :: History(s', Healthy(id)) == History(s, Healthy(id))
  {
    var w := s.threads[t].todo[0];
    assert ThreadOk(s, s.threads[t]);
    forall id ensures History(s', Healthy(id)) == History(s, Healthy(id)) {
      PutExtends(s, w.at, w.value);
      assert History(s', Healthy(id)) == History(Put(s, w.at, w.value), Healthy(id));
    }
  }

  lemma WriteAccounted(s: State, t: Tid, s': State)
    requires Accounted(s) && Next(s, WriteField(t)) == Some(s')
    ensures Accounted(s') && s'.flips == s.flips
  {
    PendingUpdate(s, s', t, s'.threads[t]);
  }

  lemma WriteFlipping(s: State, t: Tid, s': State)
    requires Grounding(s) && Flipping(s) && Next(s, WriteField(t)) == Some(s')
    ensures Flipping(s')
  {
    WriteSparesFlags(s, t, s');
    WriteAccounted(s, t, s');
    SameFlags(s, s');
  }

  lemma QuietFlipping(s: State, step: Step, s': State)
    requires Flipping(s) && Next(s, step) == Some(s') && WritesNothing(step)
    ensures Flipping(s')
  {
    FrameOfOthers(s, step, s');
    SameFlags(s, s');
  }

  lemma FailFlipping(s: State, t: Tid, s': State)
    requires Flipping(s) && Next(s, FailReload(t)) == Some(s')
    ensures Flipping(s')
  {
    SameFlags(s, s');
    assert Pending(s') == Pending(s);
  }

  lemma FlippingStep(s: State, step: Step, s': State)
    requires Grounding(s) && Flipping(s) && Next(s, step) == Some(s')
    ensures Flipping(s')
  {
    match step
    case CompareAndSwap(t) => SwapFlipping(s, t, s.threads[t].id, s.threads[t].Tripping?);
    case Bump(t) => BumpFlipping(s, t, s');
    case WriteField(t) => WriteFlipping(s, t, s');
    case FailReload(t) => FailFlipping(s, t, s');
    case _ => QuietFlipping(s, step, s');
  }

  // ---------------------------------------------------------------- every run

  ghost predicate Inv(s: State) {
    Grounding(s) && Coverage(s) && Flipping(s) && Exclusive(s) && AllThorough(s)
  }

  lemma InvStep(s: State, step: Step, s': State)
    requires Inv(s) && Next(s, step) == Some(s')
    ensures Inv(s') && Extends(s, s')
  {
    GroundingStep(s, step, s');
    CoverageStep(s, step, s');
    FlippingStep(s, step, s');
    ExclusiveStep(s, step, s');
    ThoroughStep(s, step, s');
  }

  lemma StartInv(override: string, cfgs: seq<Config>)
    ensures Inv(Start(override, cfgs))
  {
    var s := Start(override, cfgs);
    assert forall l :: Newest(s, l) == 0;
    assert s.announced[0] == map[];
    assert Marked(s, map[]);
    forall l ensures Covered(s, l) { assert Newest(s, l) <= Announced(s, s.version, l); }
    assert Pending(s) == {};
    forall id ensures History(s, Healthy(id)) == [Flag(true)] { assert Healthy(id) !in s.history; }
  }

  lemma ExtendsTransitive(a: State, b: State, c: State)
    requires Extends(a, b) && Extends(b, c)
    ensures Extends(a, c)
  {
    forall l ensures History(a, l) <= History(c, l) {
      assert History(a, l) <= History(b, l) && History(b, l) <= History(c, l);
    }
  }

  /** The invariant survives any interleaving. */
  lemma {:induction false} RunKeepsInv(s: State, steps: seq<Step>, s': State)
    requires Inv(s) && Run(s, steps) == Some(s')
    ensures Inv(s') && Extends(s, s')
    decreases |steps|
  {
    if steps != [] {
      var mid := Next(s, steps[0]).value;
      InvStep(s, steps[0], mid);
      RunKeepsInv(mid, steps[1..], s');
      ExtendsTransitive(s, mid, s');
    }
  }

  // ----------------------------------------------------------------- theorems

  /** States some run from a new pool can be in. */
  ghost predicate Reachable(s: State) {
    exists override, cfgs, steps :: Run(Start(override, cfgs), steps) == Some(s)
  }

  lemma ReachableInv(s: State)
    requires Reachable(s)
    ensures Inv(s)
  {
    var override, cfgs, steps :| Run(Start(override, cfgs), steps) == Some(s);
    StartInv(override, cfgs);
    RunKeepsInv(Start(override, cfgs), steps, s);
  }

  /** The two locks exclude: at most one reload is under way and at most one request builds. */
  lemma ReachableExclusive(s: State)
    requires Reachable(s)
    ensures Exclusive(s)
  {
    ReachableInv(s);
  }

  /** Nothing is waiting to be announced, and no reload that failed since the last published one has
      written anything. */
  predicate Quiet(s: State) {
    && (forall t :: t in s.threads ==> !s.threads[t].Bumping? && !s.threads[t].Reloading?)
    && s.lost == map[]
  }

  /** The pool, or something of a backend in it. */
  predicate Wanted(s: State, l: Loc) {
    l.Pool? || exists id :: id in PoolIds(s) && (l == Healthy(id) || FieldOf(l, id))
  }

  /** Every current value a list request would read has been announced. */
  ghost predicate Settled(s: State) {
    forall l :: Wanted(s, l) ==> Newest(s, l) <= Announced(s, s.version, l)
  }

  lemma QuietIsSettled(s: State)
    requires Reachable(s) && Quiet(s)
    ensures Settled(s)
  {
    ReachableInv(s);
    forall l | Wanted(s, l) ensures Newest(s, l) <= Announced(s, s.version, l) {
      assert Relevant(s, l) && Covered(s, l);
    }
  }

  // What a build reads.

  function Todo(b: Builder): seq<Id> {
    match b
    case ReadPool => []
    case ReadHealthy(todo, _) => todo
    case ReadStatic(todo, _) => todo
    case ReadModels(todo, _) => todo
    case TestOwner(todo, _, _) => todo
    case UseOwner(todo, _, _) => todo
    case Built(_) => []
  }

  lemma {:induction false} AtModelTodo(override: string, todo: seq<Id>, rest: seq<string>, acc: seq<Model>)
    requires todo != []
    ensures var b := AtModel(override, todo, rest, acc); !b.ReadPool? && forall id :: id in Todo(b) ==> id in todo
    decreases |rest|
  {
    if rest != [] && Listed(acc, rest[0]) {
      AtModelTodo(override, todo, rest[1..], acc);
    } else if rest != [] && override != "" {
      AtModelTodo(override, todo, rest[1..], acc + [Model(rest[0], override)]);
    }
  }

  /** A builder never goes back to the pool, and only goes through the backends it found there. */
  lemma FeedTodo(override: string, b: Builder, v: Value)
    requires Sound(b) && !b.Built?
    ensures var b' := Feed(override, b, v);
            && !b'.ReadPool?
            && forall id :: id in Todo(b') ==> id in (if b.ReadPool? then AsIds(v) else Todo(b))
  {
    match b
    case ReadPool =>
    case ReadHealthy(todo, acc) =>
    case ReadStatic(todo, acc) =>
    case ReadModels(todo, acc) => AtModelTodo(override, todo, AsNames(v), acc);
    case TestOwner(todo, rest, acc) => AtModelTodo(override, todo, rest[1..], acc + [Model(rest[0], "self-hosted")]);
    case UseOwner(todo, rest, acc) => AtModelTodo(override, todo, rest[1..], acc + [Model(rest[0], AsText(v))]);
  }

  /** The first read is of the pool, all others are of backends found there. */
  ghost predicate ReadsPoolFirst(seen: seq<Seen>) {
    seen != [] ==>
      && seen[0].at == Pool
      && forall k :: 1 <= k < |seen| ==>
           exists id :: id in AsIds(seen[0].value) && (seen[k].at == Healthy(id) || FieldOf(seen[k].at, id))
  }

  lemma {:induction false} ReplayReads(override: string, seen: seq<Seen>)
    requires Replay(override, seen).Some?
    ensures ReadsPoolFirst(seen)
    ensures Replay(override, seen).value.ReadPool? <==> seen == []
    ensures seen != [] ==> forall id :: id in Todo(Replay(override, seen).value) ==> id in AsIds(seen[0].value)
  {
    if seen != [] {
      var n := |seen| - 1;
      var b := Replay(override, seen[..n]).value;
      ReplayReads(override, seen[..n]);
      FeedTodo(override, b, seen[n].value);
      if n > 0 {
        assert seen[n].at == Wants(b) && Todo(b)[0] in Todo(b);
        assert seen[n].at == Healthy(Todo(b)[0]) || FieldOf(seen[n].at, Todo(b)[0]);
        forall k | 1 <= k < |seen|
          ensures exists id :: id in AsIds(seen[0].value) && (seen[k].at == Healthy(id) || FieldOf(seen[k].at, id))
        {
          if k < n { assert seen[..n][k] == seen[k]; }
        }
      }
    }
  }

  /** In a settled state a read that is no older than the current announcements is up to date. */
  lemma WantedIsCurrent(s: State, e: Seen)
    requires Settled(s) && Witnessed(s, s.version, e) && Wanted(s, e.at)
    ensures e.value == Now(s)(e.at)
  {
  }

  lemma SettledEntry(s: State, e: Entry)
    requires Settled(s) && GroundedEntry(s, e) && e.version == s.version
    ensures e.list == ListAt(s.override, Now(s))
  {
    ReplayReads(s.override, e.seen);
    WantedIsCurrent(s, e.seen[0]);
    forall k | 0 <= k < |e.seen| ensures e.seen[k].value == Now(s)(e.seen[k].at) {
      assert Witnessed(s, s.version, e.seen[k]);
      if k > 0 {
        var id :| id in AsIds(e.seen[0].value) && (e.seen[k].at == Healthy(id) || FieldOf(e.seen[k].at, id));
        assert id in PoolIds(s);
      }
      WantedIsCurrent(s, e.seen[k]);
    }
    ReplayAtOneMoment(s.override, Now(s), e.seen);
  }

  /** Cache coherence: once everything the list depends on has been announced, a cached list with the
      current version is the list of the pool as it is now. */
  lemma CacheCoherent(s: State)
    requires Reachable(s) && Settled(s)
    requires s.cached.Some? && s.cached.value.version == s.version
    ensures s.cached.value.list == ListAt(s.override, Now(s))
  {
    ReachableInv(s);
    SettledEntry(s, s.cached.value);
  }

  /** So it is whenever no bump and no reload is under way, and no reload that failed since the last
      published one has written anything. */
  lemma QuietIsCoherent(s: State)
    requires Reachable(s) && Quiet(s)
    requires s.cached.Some? && s.cached.value.version == s.version
    ensures s.cached.value.list == ListAt(s.override, Now(s))
  {
    QuietIsSettled(s);
    CacheCoherent(s);
  }

  /** Freshness: a list served to a request that loaded the version at or after `then` was built
      from reads none of which is older than anything announced by `then`. */
  lemma ServedFresh(then_: State, steps: seq<Step>, s: State, k: nat)
    requires Reachable(then_) && Run(then_, steps) == Some(s)
    requires k < |s.served| && then_.version <= s.served[k].version
    ensures Replay(s.override, s.served[k].seen) == Some(Built(s.served[k].list))
    ensures forall i :: 0 <= i < |s.served[k].seen| ==>
              var e := s.served[k].seen[i];
              && e.pos <= Newest(s, e.at)
              && e.value == History(s, e.at)[e.pos]
              && Announced(then_, then_.version, e.at) <= e.pos
  {
    ReachableInv(then_);
    RunKeepsInv(then_, steps, s);
    var v := s.served[k].version;
    assert GroundedEntry(s, s.served[k]);
    forall i | 0 <= i < |s.served[k].seen|
      ensures Announced(then_, then_.version, s.served[k].seen[i].at) <= s.served[k].seen[i].pos
    {
      var e := s.served[k].seen[i];
      assert Witnessed(s, v, e);
      assert Announced(s, then_.version, e.at) <= Announced(s, v, e.at);
      assert s.announced[then_.version] == then_.announced[then_.version];
    }
  }

  /** A completed bump announces what its thread wrote, for this version and every later one. */
  lemma BumpAnnounces(s: State, t: Tid, mid: State, steps: seq<Step>, s': State, l: Loc)
    requires Reachable(s) && Next(s, Bump(t)) == Some(mid) && Run(mid, steps) == Some(s')
    ensures At(s.threads[t].writes, l) <= Announced(s', s'.version, l)
  {
    ReachableInv(s);
    BumpGrounding(s, t, mid);
    InvStep(s, Bump(t), mid);
    RunKeepsInv(mid, steps, s');
    assert s'.announced[mid.version] == mid.announced[mid.version];
    assert Announced(s', mid.version, l) <= Announced(s', s'.version, l);
  }

  /** The version plus the bumps still to come is the number of successful swaps, over all backends
      ever created, plus the number of published reloads. */
  lemma VersionAccounting(s: State)
    requires Reachable(s)
    ensures s.version + |Pending(s)| == |s.flips| + s.commits
  {
    ReachableInv(s);
  }

  /** A backend is healthy exactly when its flag has been swapped an even number of times. */
  lemma HealthyIffEvenFlips(s: State, id: Id)
    requires Reachable(s)
    ensures Current(s, Healthy(id)) == Flag(multiset(s.flips)[id] % 2 == 0)
  {
    ReachableInv(s);
    assert multiset(s.flips)[id] == Newest(s, Healthy(id));
  }
}
