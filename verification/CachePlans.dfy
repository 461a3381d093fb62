/** What a reload plans to write. */
module CachePlans {
  import opened Configs
  import opened Options
  import opened CacheProtocol
  import opened CacheFrames

  // ------------------------------------------------------- what a plan installs

  function After(now: Moment, w: Write): Moment {
    l => if l == w.at then w.value else now(l)
  }

  function AfterAll(now: Moment, ws: seq<Write>): Moment
    decreases |ws|
  {
    if ws == [] then now else AfterAll(After(now, ws[0]), ws[1..])
  }

  lemma {:induction false} AfterAllConcat(now: Moment, a: seq<Write>, b: seq<Write>)
    ensures AfterAll(now, a + b) == AfterAll(AfterAll(now, a), b)
    decreases |a|
  {
    if a == [] {
      assert a + b == b;
    } else {
      assert (a + b)[1..] == a[1..] + b;
      AfterAllConcat(After(now, a[0]), a[1..], b);
    }
  }

  predicate Configured(now: Moment, id: Id, c: Config) {
    now(Models(id)) == Names(c.models) && now(Owner(id)) == Text(c.ownedBy) && now(Static(id)) == Flag(c.isStatic)
  }

  predicate SameBackend(now: Moment, now': Moment, id: Id) {
    && now'(Models(id)) == now(Models(id)) && now'(Owner(id)) == now(Owner(id)) && now'(Static(id)) == now(Static(id))
  }

  lemma FieldsInstall(now: Moment, id: Id, c: Config)
    ensures var now' := AfterAll(now, Fields(id, c));
            && Configured(now', id, c)
            && (forall i :: i != id ==> SameBackend(now, now', i))
  {
    var ws := Fields(id, c);
    var a1 := After(now, ws[0]);
    var a2 := After(a1, ws[1]);
    assert ws[1..][0] == ws[1] && ws[1..][1..] == ws[2..];
    assert AfterAll(a2, ws[2..]) == AfterAll(After(a2, ws[2]), ws[2..][1..]);
    assert AfterAll(now, ws) == After(a2, ws[2]);
  }

  /** The backends a reload publishes. */
  function PlannedIds(cfgs: seq<Config>, before: seq<Id>, names: seq<string>, next: nat): (ids: seq<Id>)
    ensures |ids| == |cfgs|
    decreases |cfgs|
  {
    if cfgs == [] then []
    else
      match Find(names, before, cfgs[0].name)
      case Some(id) => [id] + PlannedIds(cfgs[1..], before, names, next)
      case None => [next] + PlannedIds(cfgs[1..], before, names, next + 1)
  }

  /** Backend ids[i] carries the i-th name and configuration, and other backends are untouched. */
  ghost predicate Installed(cfgs: seq<Config>, ids: seq<Id>, names: seq<string>, now: Moment, now': Moment) {
    && |ids| == |cfgs|
    && (forall i :: 0 <= i < |cfgs| ==> ids[i] < |names| && names[ids[i]] == cfgs[i].name)
    && (forall i :: 0 <= i < |cfgs| ==> Configured(now', ids[i], cfgs[i]))
    && (forall id :: id !in ids ==> SameBackend(now, now', id))
  }

  lemma InstalledCons(cfgs: seq<Config>, id: Id, rest: seq<Id>, names: seq<string>, now: Moment, mid: Moment, now': Moment)
    requires cfgs != [] && DistinctNames(cfgs)
    requires id < |names| && names[id] == cfgs[0].name
    requires Configured(mid, id, cfgs[0]) && forall i :: i != id ==> SameBackend(now, mid, i)
    requires Installed(cfgs[1..], rest, names, mid, now')
    ensures Installed(cfgs, [id] + rest, names, now, now')
  {
    var ids := [id] + rest;
    forall i | 0 <= i < |rest| ensures rest[i] != id {
      assert names[rest[i]] == cfgs[1..][i].name == cfgs[i + 1].name;
    }
    assert SameBackend(mid, now', id);
    forall i | 0 <= i < |cfgs|
      ensures ids[i] < |names| && names[ids[i]] == cfgs[i].name && Configured(now', ids[i], cfgs[i])
    {
      if i > 0 { assert ids[i] == rest[i - 1] && cfgs[i] == cfgs[1..][i - 1]; }
    }
    forall i | i !in ids ensures SameBackend(now, now', i) {
      assert i != id by { assert ids[0] == id; }
      assert forall k :: 0 <= k < |rest| ==> rest[k] == ids[k + 1];
      assert SameBackend(now, mid, i) && SameBackend(mid, now', i);
    }
  }

  lemma PlanCons(cfgs: seq<Config>, before: seq<Id>, names: seq<string>, known: seq<string>, done: seq<Id>)
      returns (id: Id, known': seq<string>, q: Plan)
    requires cfgs != [] && names <= known
    requires PlanReload(cfgs, before, names, known, done).ok
    ensures known <= known' && id < |known'| && known'[id] == cfgs[0].name
    ensures q == PlanReload(cfgs[1..], before, names, known', done + [id]) && q.ok
    ensures PlanReload(cfgs, before, names, known, done) == q.(writes := Fields(id, cfgs[0]) + q.writes)
    ensures PlannedIds(cfgs, before, names, |known|) == [id] + PlannedIds(cfgs[1..], before, names, |known'|)
  {
    var c := cfgs[0];
    match Find(names, before, c.name)
    case Some(i) =>
      id, known' := i, known;
      q := PlanReload(cfgs[1..], before, names, known', done + [id]);
    case None =>
      id, known' := |known|, known + [c.name];
      q := PlanReload(cfgs[1..], before, names, known', done + [id]);
  }

  /** A plan that reaches its end publishes one backend per configured one, in order: the one the
      pool already had under that name, or a new one; each holds its configuration. */
  lemma {:induction false} PlanInstalls(cfgs: seq<Config>, before: seq<Id>, names: seq<string>, known: seq<string>,
                                        done: seq<Id>, now: Moment)
    requires PlanReload(cfgs, before, names, known, done).ok
    requires DistinctNames(cfgs) && names <= known
    ensures var p := PlanReload(cfgs, before, names, known, done);
            var ids := PlannedIds(cfgs, before, names, |known|);
            && known <= p.names
            && AfterAll(now, p.writes)(Pool) == Ids(done + ids)
            && Installed(cfgs, ids, p.names, now, AfterAll(now, p.writes))
    decreases |cfgs|
  {
    var p := PlanReload(cfgs, before, names, known, done);
    if cfgs == [] {
      assert AfterAll(now, p.writes) == After(now, p.writes[0]);
      assert done + [] == done;
    } else {
      var id, known', q := PlanCons(cfgs, before, names, known, done);
      var mid := AfterAll(now, Fields(id, cfgs[0]));
      var rest := PlannedIds(cfgs[1..], before, names, |known'|);
      FieldsInstall(now, id, cfgs[0]);
      PlanInstalls(cfgs[1..], before, names, known', done + [id], mid);
      AfterAllConcat(now, Fields(id, cfgs[0]), q.writes);
      InstalledCons(cfgs, id, rest, q.names, now, mid, AfterAll(mid, q.writes));
      assert done + ([id] + rest) == (done + [id]) + rest;
    }
  }

  // ------------------------------------------- a plan that may stop, and the heap code

  lemma OverwritesShift(cfgs: seq<Config>, i: nat)
    requires cfgs != [] && Parses(cfgs[0]) && i < |cfgs| - 1
    ensures Overwrites(cfgs, i + 1) <==> Overwrites(cfgs[1..], i)
  {
    if Overwrites(cfgs[1..], i) {
      forall k | 0 <= k < i + 1 ensures Parses(cfgs[k]) {
        if k > 0 { assert cfgs[k] == cfgs[1..][k - 1]; }
      }
    }
  }

  /** The backends in the pool have different names. */
  predicate NamesApart(before: seq<Id>, names: seq<string>) {
    forall a, b :: a in before && b in before && a < |names| && b < |names| && names[a] == names[b] ==> a == b
  }

  /** What the plan makes of a backend of the pool it is made for: overwritten if the reload gets to its
      name, else as it was.  This is what `ReloadPool` promises of the settings of a kept backend. */
  ghost predicate Overwritten(cfgs: seq<Config>, id: Id, name: string, now: Moment, now': Moment) {
    && (forall i :: 0 <= i < |cfgs| && Overwrites(cfgs, i) && cfgs[i].name == name ==> Configured(now', id, cfgs[i]))
    && ((forall i :: 0 <= i < |cfgs| && Overwrites(cfgs, i) ==> cfgs[i].name != name) ==> SameBackend(now, now', id))
  }

  /** One configuration that parses, in front of the others. */
  lemma OverwrittenCons(cfgs: seq<Config>, id: Id, name: string, now: Moment, mid: Moment, now': Moment)
    requires cfgs != [] && Parses(cfgs[0]) && DistinctNames(cfgs)
    requires if cfgs[0].name == name then Configured(mid, id, cfgs[0]) else SameBackend(now, mid, id)
    requires Overwritten(cfgs[1..], id, name, mid, now')
    ensures Overwritten(cfgs, id, name, now, now')
  {
    forall i: nat | i < |cfgs| - 1 ensures Overwrites(cfgs, i + 1) <==> Overwrites(cfgs[1..], i) {
      OverwritesShift(cfgs, i);
    }
    forall i: nat | i < |cfgs| && Overwrites(cfgs, i) && cfgs[i].name == name ensures Configured(now', id, cfgs[i]) {
      if i > 0 {
        assert Overwrites(cfgs[1..], i - 1) && cfgs[1..][i - 1] == cfgs[i];
      } else {
        assert forall k :: 0 <= k < |cfgs[1..]| ==> cfgs[1..][k].name != name;
      }
    }
    if forall i :: 0 <= i < |cfgs| && Overwrites(cfgs, i) ==> cfgs[i].name != name {
      assert Overwrites(cfgs, 0);
      forall k: nat | k < |cfgs[1..]| && Overwrites(cfgs[1..], k) ensures cfgs[1..][k].name != name {
        assert Overwrites(cfgs, k + 1);
      }
    }
  }

  /** One configuration that does not parse: at most it is written itself. */
  lemma OverwrittenLast(cfgs: seq<Config>, id: Id, name: string, now: Moment, now': Moment)
    requires cfgs != [] && !Parses(cfgs[0])
    requires if cfgs[0].url.Some? && cfgs[0].name == name then Configured(now', id, cfgs[0]) else SameBackend(now, now', id)
    ensures Overwritten(cfgs, id, name, now, now')
  {
    assert forall i: nat :: i < |cfgs| && Overwrites(cfgs, i) ==> i == 0;
    if cfgs[0].url.Some? { assert Overwrites(cfgs, 0); }
  }

  lemma {:induction false} PlanOverwrites(cfgs: seq<Config>, before: seq<Id>, names: seq<string>, known: seq<string>,
                                          done: seq<Id>, now: Moment, id: Id)
    requires DistinctNames(cfgs) && NamesApart(before, names) && names <= known && id in before && id < |names|
    ensures Overwritten(cfgs, id, names[id], now, AfterAll(now, PlanReload(cfgs, before, names, known, done).writes))
    decreases |cfgs|
  {
    var ws := PlanReload(cfgs, before, names, known, done).writes;
    if cfgs != [] {
      var c := cfgs[0];
      match Find(names, before, c.name)
      case Some(j) =>
        FieldsInstall(now, j, c);
        if Parses(c) {
          PlanOverwrites(cfgs[1..], before, names, known, done + [j], AfterAll(now, Fields(j, c)), id);
          AfterAllConcat(now, Fields(j, c), PlanReload(cfgs[1..], before, names, known, done + [j]).writes);
          OverwrittenCons(cfgs, id, names[id], now, AfterAll(now, Fields(j, c)), AfterAll(now, ws));
        } else {
          OverwrittenLast(cfgs, id, names[id], now, AfterAll(now, ws));
        }
      case None =>
        var known' := known + [c.name];
        FieldsInstall(now, |known|, c);
        if Parses(c) {
          PlanOverwrites(cfgs[1..], before, names, known', done + [|known|], AfterAll(now, Fields(|known|, c)), id);
          AfterAllConcat(now, Fields(|known|, c), PlanReload(cfgs[1..], before, names, known', done + [|known|]).writes);
          OverwrittenCons(cfgs, id, names[id], now, AfterAll(now, Fields(|known|, c)), AfterAll(now, ws));
        } else {
          OverwrittenLast(cfgs, id, names[id], now, AfterAll(now, ws));
        }
    } else {
      assert AfterAll(now, ws) == After(now, ws[0]);
    }
  }

  /** The plan reaches its end exactly if every configuration parses. */
  lemma {:induction false} PlanOk(cfgs: seq<Config>, before: seq<Id>, names: seq<string>, known: seq<string>, done: seq<Id>)
    ensures PlanReload(cfgs, before, names, known, done).ok <==> forall i :: 0 <= i < |cfgs| ==> Parses(cfgs[i])
    decreases |cfgs|
  {
    if cfgs != [] {
      assert forall i :: 1 <= i < |cfgs| ==> cfgs[i] == cfgs[1..][i - 1];
      match Find(names, before, cfgs[0].name)
      case Some(id) => PlanOk(cfgs[1..], before, names, known, done + [id]);
      case None => PlanOk(cfgs[1..], before, names, known + [cfgs[0].name], done + [|known|]);
    }
  }

  // --------------------------------------------------- a reload that is complete

  predicate FieldOf(l: Loc, id: Id) {
    l == Models(id) || l == Owner(id) || l == Static(id)
  }

  predicate Writes(ws: seq<Write>, l: Loc) {
    exists k :: 0 <= k < |ws| && ws[k].at == l
  }

  /** Writes of fields, and of the pool last of all exactly if the plan reaches its end. */
  predicate Shaped(ws: seq<Write>, ok: bool) {
    && (forall k :: 0 <= k < |ws| ==> !ws[k].at.Healthy? && (ws[k].at.Pool? ==> ok && k == |ws| - 1))
    && (ok ==> ws != [] && ws[|ws| - 1].at.Pool?)
  }

  lemma {:induction false} PlanShaped(cfgs: seq<Config>, before: seq<Id>, names: seq<string>, known: seq<string>, done: seq<Id>)
    ensures var p := PlanReload(cfgs, before, names, known, done); Shaped(p.writes, p.ok)
    decreases |cfgs|
  {
    if cfgs != [] {
      match Find(names, before, cfgs[0].name)
      case Some(id) => PlanShaped(cfgs[1..], before, names, known, done + [id]);
      case None => PlanShaped(cfgs[1..], before, names, known + [cfgs[0].name], done + [|known|]);
    }
  }

  /** Every backend in the pool the plan publishes has all its fields written. */
  ghost predicate Complete(ws: seq<Write>, done: seq<Id>)
    requires ws != []
  {
    forall id, l :: id in AsIds(ws[|ws| - 1].value) && FieldOf(l, id) ==> id in done || Writes(ws, l)
  }

  lemma CompleteCons(id: Id, c: Config, ws: seq<Write>, done: seq<Id>)
    requires ws != [] && Complete(ws, done + [id])
    ensures Complete(Fields(id, c) + ws, done)
  {
    var all := Fields(id, c) + ws;
    forall i, l | i in AsIds(all[|all| - 1].value) && FieldOf(l, i) ensures i in done || Writes(all, l) {
      if i == id {
        assert all[0].at == Models(id) && all[1].at == Owner(id) && all[2].at == Static(id);
      } else if i !in done {
        var k :| 0 <= k < |ws| && ws[k].at == l;
        assert all[k + 3].at == l;
      }
    }
  }

  lemma {:induction false} PlanCompletes(cfgs: seq<Config>, before: seq<Id>, names: seq<string>, known: seq<string>, done: seq<Id>)
    requires PlanReload(cfgs, before, names, known, done).ok
    ensures var ws := PlanReload(cfgs, before, names, known, done).writes; ws != [] && Complete(ws, done)
    decreases |cfgs|
  {
    if cfgs != [] {
      match Find(names, before, cfgs[0].name)
      case Some(id) =>
        PlanCompletes(cfgs[1..], before, names, known, done + [id]);
        CompleteCons(id, cfgs[0], PlanReload(cfgs[1..], before, names, known, done + [id]).writes, done);
      case None =>
        var id, known' := |known|, known + [cfgs[0].name];
        PlanCompletes(cfgs[1..], before, names, known', done + [id]);
        CompleteCons(id, cfgs[0], PlanReload(cfgs[1..], before, names, known', done + [id]).writes, done);
    }
  }

  /** What a reload under way has yet to write, together with what it has written and nobody has
      overwritten since, is every field of every backend it will publish. */
  ghost predicate Thorough(s: State, th: Thread)
    requires th.Reloading?
  {
    && Shaped(th.todo, th.ok)
    && (forall id :: At(th.writes, Healthy(id)) == 0)
    && (th.ok ==>
          forall id, l :: id in AsIds(th.todo[|th.todo| - 1].value) && FieldOf(l, id) ==>
            Writes(th.todo, l) || Newest(s, l) <= At(th.writes, l))
  }

  ghost predicate AllThorough(s: State) {
    && (forall t :: t in s.threads && s.threads[t].Reloading? ==> Thorough(s, s.threads[t]))
    && (forall id :: At(s.lost, Healthy(id)) == 0)
  }

  lemma ThoroughFrame(s: State, s': State, th: Thread)
    requires th.Reloading? && Thorough(s, th)
    requires forall l: Loc :: !l.Healthy? ==> Newest(s', l) == Newest(s, l)
    ensures Thorough(s', th)
  {
  }

  /** What the first write of a plan does to the state. */
  lemma WriteEffect(s: State, t: Tid, s': State)
    requires Next(s, WriteField(t)) == Some(s')
    ensures t in s.threads && s.threads[t].Reloading? && s.threads[t].todo != []
    ensures t in s'.threads && (s'.threads[t].Reloading? || s'.threads[t].Bumping?)
    ensures var th, th', w := s.threads[t], s'.threads[t], s.threads[t].todo[0];
            && th'.writes == th.writes[w.at := |History(s, w.at)|]
            && (th'.Reloading? ==> th'.ok == th.ok && th'.todo == th.todo[1..])
            && (th'.Reloading? <==> !(th.ok && |th.todo| == 1))
    ensures var w := s.threads[t].todo[0];
            forall l :: Newest(s', l) == if l == w.at then |History(s, l)| else Newest(s, l)
  {
    var w := s.threads[t].todo[0];
    forall l ensures Newest(s', l) == if l == w.at then |History(s, l)| else Newest(s, l) {
      CurrentAfterPut(s, s', w.at, w.value, l);
    }
  }

  lemma StillWrites(ws: seq<Write>, l: Loc)
    requires ws != [] && l != ws[0].at && Writes(ws, l)
    ensures Writes(ws[1..], l)
  {
    var k :| 0 <= k < |ws| && ws[k].at == l;
    assert ws[1..][k - 1].at == l;
  }

  /** The rest of the plan after its first write. */
  lemma ThoroughWrite(s: State, t: Tid, s': State)
    requires t in s.threads && s.threads[t].Reloading? && Thorough(s, s.threads[t]) && Next(s, WriteField(t)) == Some(s')
    ensures s'.threads[t].Reloading? ==> Thorough(s', s'.threads[t])
    ensures forall id :: At(s'.threads[t].writes, Healthy(id)) == 0
  {
    WriteEffect(s, t, s');
    var th, th' := s.threads[t], s'.threads[t];
    if th'.Reloading? && th.ok {
      assert th'.todo[|th'.todo| - 1] == th.todo[|th.todo| - 1];
      forall id, l | id in AsIds(th.todo[|th.todo| - 1].value) && FieldOf(l, id)
        ensures Writes(th'.todo, l) || Newest(s', l) <= At(th'.writes, l)
      {
        if l != th.todo[0].at && Writes(th.todo, l) { StillWrites(th.todo, l); }
      }
    }
  }

  /** Nothing but a reload writes what a reload writes. */
  lemma FieldsOfOthers(s: State, step: Step, s': State)
    requires Next(s, step) == Some(s') && !step.WriteField?
    ensures forall l: Loc :: !l.Healthy? ==> History(s', l) == History(s, l)
  {
    match step
    case CompareAndSwap(t) =>
      forall l: Loc | !l.Healthy? ensures History(s', l) == History(s, l) {
        SwapSpares(s, t, s.threads[t].id, s.threads[t].Tripping?, l);
      }
    case Bump(_) =>
    case StartReload(_, _) =>
    case FailReload(_) =>
    case _ => SharedFrame(s, step, s');
  }

  lemma SwapSpares(s: State, t: Tid, id: Id, was: bool, l: Loc)
    requires l != Healthy(id)
    ensures History(Swap(s, t, id, was), l) == History(s, l)
  {
  }

  lemma LostSpares(s: State, step: Step, s': State)
    requires AllThorough(s) && Next(s, step) == Some(s')
    ensures forall id :: At(s'.lost, Healthy(id)) == 0
  {
    match step
    case FailReload(t) => assert Thorough(s, s.threads[t]);
    case WriteField(t) => assert s'.lost == s.lost || s'.lost == map[];
    case CompareAndSwap(t) => assert s'.lost == s.lost;
    case Bump(_) => assert s'.lost == s.lost;
    case _ => SharedFrame(s, step, s');
  }

  lemma ThoroughStep(s: State, step: Step, s': State)
    requires Exclusive(s) && AllThorough(s) && Next(s, step) == Some(s')
    ensures AllThorough(s')
  {
    LostSpares(s, step, s');
    OnlyActorMoves(s, step, s');
    forall u | u in s'.threads && s'.threads[u].Reloading? ensures Thorough(s', s'.threads[u]) {
      if step.WriteField? {
        ThoroughWrite(s, step.t, s');
        SameHolder(s, step.t, u);
      } else {
        FieldsOfOthers(s, step, s');
        if u == Actor(step) && !step.ClearCache? {
          ReloadBegun(s, step, s');
        } else {
          ThreadsUnlessCleared(s, step, s', u);
          ThoroughFrame(s, s', s.threads[u]);
        }
      }
    }
  }

  lemma ThreadsUnlessCleared(s: State, step: Step, s': State, u: Tid)
    requires Next(s, step) == Some(s') && u in s'.threads && (u != Actor(step) || step.ClearCache?)
    ensures u in s.threads && s'.threads[u] == s.threads[u]
  {
    if step.ClearCache? { ActorFrame(s, step, s'); } else { OnlyActorMoves(s, step, s'); }
  }

  /** Of the steps that write no field only the start of a reload leaves a reload under way. */
  lemma ReloadBegun(s: State, step: Step, s': State)
    requires Next(s, step) == Some(s') && !step.WriteField? && !step.ClearCache?
    requires step.t in s'.threads && s'.threads[step.t].Reloading?
    ensures Thorough(s', s'.threads[step.t])
  {
    if step.StartReload? {
      var before := AsIds(Current(s, Pool));
      PlanShaped(step.cfgs, before, s.names, s.names, []);
      if PlanReload(step.cfgs, before, s.names, s.names, []).ok {
        PlanCompletes(step.cfgs, before, s.names, s.names, []);
      }
    } else {
      NoReload(s, step, s');
    }
  }

  lemma NoReload(s: State, step: Step, s': State)
    requires Next(s, step) == Some(s') && !step.WriteField? && !step.ClearCache? && !step.StartReload?
    ensures step.t in s'.threads ==> !s'.threads[step.t].Reloading?
  {
    if step.LoadVersion? || step.Enter? || step.Read? || step.Store? {
      ListersDoNotReload(s, step, s');
    } else {
      RecordersDoNotReload(s, step, s');
    }
  }

  lemma ListersDoNotReload(s: State, step: Step, s': State)
    requires Next(s, step) == Some(s') && (step.LoadVersion? || step.Enter? || step.Read? || step.Store?)
    ensures step.t in s'.threads ==> !s'.threads[step.t].Reloading?
  {
  }

  lemma RecordersDoNotReload(s: State, step: Step, s': State)
    requires Next(s, step) == Some(s')
    requires step.CountFailure? || step.ResetCount? || step.CompareAndSwap? || step.Bump? || step.FailReload?
    ensures step.t in s'.threads ==> !s'.threads[step.t].Reloading?
  {
  }

  lemma {:induction false} PlanSpares(cfgs: seq<Config>, before: seq<Id>, names: seq<string>, known: seq<string>, done: seq<Id>)
    ensures var p := PlanReload(cfgs, before, names, known, done);
            && (p.ok ==> p.writes != [])
            && forall k :: 0 <= k < |p.writes| ==> !p.writes[k].at.Healthy?
    decreases |cfgs|
  {
    if cfgs != [] {
      match Find(names, before, cfgs[0].name)
      case Some(id) => PlanSpares(cfgs[1..], before, names, known, done + [id]);
      case None => PlanSpares(cfgs[1..], before, names, known + [cfgs[0].name], done + [|known|]);
    }
  }
}
