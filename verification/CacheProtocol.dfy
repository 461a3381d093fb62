/** The health version, the backend pool and the `/v1/models` cache as concurrent threads.

    Each atomic access of the code is one step: the counter update, the compare-and-swap and the
    version bump of a health recorder; every field write of a pool reload, its publication and its
    bump; the version load, the lock and every read of a list request.  Any number of threads
    interleave in any order.

    A shared location keeps its whole history; the newest value is the current one.  The version
    carries the positions of those histories that had been announced when it was set. */
module CacheProtocol {
  import opened Configs
  import opened Options
  import opened PoolSpec
  import Health

  type Id = nat
  type Tid = nat

  /** The shared locations a list request reads. */
  datatype Loc = Pool | Healthy(id: Id) | Models(id: Id) | Owner(id: Id) | Static(id: Id)

  datatype Value = Ids(ids: seq<Id>) | Flag(b: bool) | Names(names: seq<string>) | Text(text: string)

  /** What a location holds before anything wrote it; a backend starts healthy. */
  function Initially(l: Loc): Value {
    match l
    case Pool => Ids([])
    case Healthy(_) => Flag(true)
    case Models(_) => Names([])
    case Owner(_) => Text("")
    case Static(_) => Flag(false)
  }

  function AsIds(v: Value): seq<Id> { if v.Ids? then v.ids else [] }
  function AsFlag(v: Value): bool { v.Flag? && v.b }
  function AsNames(v: Value): seq<string> { if v.Names? then v.names else [] }
  function AsText(v: Value): string { if v.Text? then v.text else "" }

  // ------------------------------------------------- the list builder, read by read

  /** Where a list request stands while it builds; `todo` are the backends from the current one on,
      `acc` the entries so far, `rest` the models of the current backend from the current one on. */
  datatype Builder =
    | ReadPool
    | ReadHealthy(todo: seq<Id>, acc: seq<Model>)
    | ReadStatic(todo: seq<Id>, acc: seq<Model>)
    | ReadModels(todo: seq<Id>, acc: seq<Model>)
    | TestOwner(todo: seq<Id>, rest: seq<string>, acc: seq<Model>)
    | UseOwner(todo: seq<Id>, rest: seq<string>, acc: seq<Model>)
    | Built(list: seq<Model>)

  /** The builder is between two reads of a backend's fields. */
  predicate Sound(b: Builder) {
    match b
    case ReadPool => true
    case ReadHealthy(todo, _) => todo != []
    case ReadStatic(todo, _) => todo != []
    case ReadModels(todo, _) => todo != []
    case TestOwner(todo, rest, acc) => todo != [] && rest != [] && !Listed(acc, rest[0])
    case UseOwner(todo, rest, acc) => todo != [] && rest != [] && !Listed(acc, rest[0])
    case Built(_) => true
  }

  function Wants(b: Builder): Loc
    requires Sound(b) && !b.Built?
  {
    match b
    case ReadPool => Pool
    case ReadHealthy(todo, _) => Healthy(todo[0])
    case ReadStatic(todo, _) => Static(todo[0])
    case ReadModels(todo, _) => Models(todo[0])
    case TestOwner(todo, _, _) => Owner(todo[0])
    case UseOwner(todo, _, _) => Owner(todo[0])
  }

  function AtBackend(todo: seq<Id>, acc: seq<Model>): (b: Builder)
    ensures Sound(b)
  {
    if todo == [] then Built(acc) else ReadHealthy(todo, acc)
  }

  function AtModel(override: string, todo: seq<Id>, rest: seq<string>, acc: seq<Model>): (b: Builder)
    requires todo != []
    ensures Sound(b)
    decreases |rest|
  {
    if rest == [] then AtBackend(todo[1..], acc)
    else if Listed(acc, rest[0]) then AtModel(override, todo, rest[1..], acc)
    else if override != "" then AtModel(override, todo, rest[1..], acc + [Model(rest[0], override)])
    else TestOwner(todo, rest, acc)
  }

  /** The builder after the value it wanted has been read. */
  function Feed(override: string, b: Builder, v: Value): (b': Builder)
    requires Sound(b) && !b.Built?
    ensures Sound(b')
  {
    match b
    case ReadPool => AtBackend(AsIds(v), [])
    case ReadHealthy(todo, acc) => if AsFlag(v) then ReadModels(todo, acc) else ReadStatic(todo, acc)
    case ReadStatic(todo, acc) => if AsFlag(v) then ReadModels(todo, acc) else AtBackend(todo[1..], acc)
    case ReadModels(todo, acc) => AtModel(override, todo, AsNames(v), acc)
    case TestOwner(todo, rest, acc) =>
      if AsText(v) != "" then UseOwner(todo, rest, acc)
      else AtModel(override, todo, rest[1..], acc + [Model(rest[0], "self-hosted")])
    case UseOwner(todo, rest, acc) =>
      AtModel(override, todo, rest[1..], acc + [Model(rest[0], AsText(v))])
  }

  // The same builder against a pool that stands still.

  /** Everything at one moment. */
  type Moment = Loc -> Value

  function ViewOf(now: Moment, id: Id): View {
    View(AsFlag(now(Healthy(id))), 0, AsNames(now(Models(id))), AsText(now(Owner(id))), AsFlag(now(Static(id))))
  }

  function ViewsOf(now: Moment, ids: seq<Id>): (vs: seq<View>)
    ensures |vs| == |ids| && forall i :: 0 <= i < |ids| ==> vs[i] == ViewOf(now, ids[i])
  {
    seq(|ids|, i requires 0 <= i < |ids| => ViewOf(now, ids[i]))
  }

  /** `build` of the pool as it is at that moment. */
  function ListAt(override: string, now: Moment): seq<Model> {
    ListModels(override, ViewsOf(now, AsIds(now(Pool))))
  }

  /** What a builder in the middle of its work still has to produce on a pool that stands still. */
  function Outcome(override: string, now: Moment, b: Builder): seq<Model>
    requires Sound(b)
  {
    match b
    case ReadPool => ListAt(override, now)
    case ReadHealthy(todo, acc) => ListFrom(override, ViewsOf(now, todo), acc)
    case ReadStatic(todo, acc) =>
      if AsFlag(now(Static(todo[0]))) then WithModels(override, now, todo, AsNames(now(Models(todo[0]))), acc)
      else ListFrom(override, ViewsOf(now, todo[1..]), acc)
    case ReadModels(todo, acc) => WithModels(override, now, todo, AsNames(now(Models(todo[0]))), acc)
    case TestOwner(todo, rest, acc) => WithModels(override, now, todo, rest, acc)
    case UseOwner(todo, rest, acc) =>
      WithModels(override, now, todo, rest[1..], acc + [Model(rest[0], AsText(now(Owner(todo[0]))))])
    case Built(list) => list
  }

  function WithModels(override: string, now: Moment, todo: seq<Id>, rest: seq<string>, acc: seq<Model>): seq<Model>
    requires todo != []
  {
    var owner := ResolveOwner(override, AsText(now(Owner(todo[0]))));
    ListFrom(override, ViewsOf(now, todo[1..]), OfferAll(acc, rest, owner))
  }

  lemma AtBackendOutcome(override: string, now: Moment, todo: seq<Id>, acc: seq<Model>)
    ensures Outcome(override, now, AtBackend(todo, acc)) == ListFrom(override, ViewsOf(now, todo), acc)
  {
  }

  lemma {:induction false} AtModelOutcome(override: string, now: Moment, todo: seq<Id>, rest: seq<string>, acc: seq<Model>)
    requires todo != []
    ensures Outcome(override, now, AtModel(override, todo, rest, acc)) == WithModels(override, now, todo, rest, acc)
    decreases |rest|
  {
    if rest == [] {
      AtBackendOutcome(override, now, todo[1..], acc);
    } else if Listed(acc, rest[0]) {
      AtModelOutcome(override, now, todo, rest[1..], acc);
    } else if override != "" {
      AtModelOutcome(override, now, todo, rest[1..], acc + [Model(rest[0], override)]);
    }
  }

  /** The owner test the builder has just passed still holds. */
  predicate Plausible(override: string, now: Moment, b: Builder)
    requires Sound(b)
  {
    && (b.TestOwner? ==> override == "")
    && (b.UseOwner? ==> override == "" && AsText(now(Owner(b.todo[0]))) != "")
  }

  lemma {:induction false} AtModelPlausible(override: string, now: Moment, todo: seq<Id>, rest: seq<string>, acc: seq<Model>)
    requires todo != []
    ensures Plausible(override, now, AtModel(override, todo, rest, acc))
    decreases |rest|
  {
    if rest != [] && Listed(acc, rest[0]) {
      AtModelPlausible(override, now, todo, rest[1..], acc);
    } else if rest != [] && override != "" {
      AtModelPlausible(override, now, todo, rest[1..], acc + [Model(rest[0], override)]);
    }
  }

  /** One read of a pool that stands still does not change what the build will produce. */
  lemma FeedKeepsOutcome(override: string, now: Moment, b: Builder)
    requires Sound(b) && !b.Built? && Plausible(override, now, b)
    ensures var b' := Feed(override, b, now(Wants(b)));
            && Plausible(override, now, b')
            && Outcome(override, now, b') == Outcome(override, now, b)
  {
    match b
    case ReadPool =>
      AtBackendOutcome(override, now, AsIds(now(Pool)), []);
    case ReadHealthy(todo, acc) =>
      assert ViewsOf(now, todo)[1..] == ViewsOf(now, todo[1..]);
    case ReadStatic(todo, acc) =>
      AtBackendOutcome(override, now, todo[1..], acc);
    case ReadModels(todo, acc) =>
      AtModelOutcome(override, now, todo, AsNames(now(Models(todo[0]))), acc);
      AtModelPlausible(override, now, todo, AsNames(now(Models(todo[0]))), acc);
    case TestOwner(todo, rest, acc) =>
      AtModelOutcome(override, now, todo, rest[1..], acc + [Model(rest[0], "self-hosted")]);
      AtModelPlausible(override, now, todo, rest[1..], acc + [Model(rest[0], "self-hosted")]);
    case UseOwner(todo, rest, acc) =>
      var owner := AsText(now(Owner(todo[0])));
      AtModelOutcome(override, now, todo, rest[1..], acc + [Model(rest[0], owner)]);
      AtModelPlausible(override, now, todo, rest[1..], acc + [Model(rest[0], owner)]);
  }

  // --------------------------------------------------------------- observations

  /** One read: the location, the position of its history that was current, and the value. */
  datatype Seen = Seen(at: Loc, pos: nat, value: Value)

  /** The builder after these reads, if they are the ones it asks for. */
  function Replay(override: string, seen: seq<Seen>): (b: Option<Builder>)
    ensures b.Some? ==> Sound(b.value)
  {
    if seen == [] then Some(ReadPool)
    else
      var last := seen[|seen| - 1];
      match Replay(override, seen[..|seen| - 1])
      case Some(b) => if !b.Built? && last.at == Wants(b) then Some(Feed(override, b, last.value)) else None
      case None => None
  }

  /** If every value read is the one standing at `now`, the list built is the list of `now`. */
  lemma {:induction false} ReplayAtOneMoment(override: string, now: Moment, seen: seq<Seen>)
    requires Replay(override, seen).Some?
    requires forall k :: 0 <= k < |seen| ==> seen[k].value == now(seen[k].at)
    ensures Plausible(override, now, Replay(override, seen).value)
    ensures Outcome(override, now, Replay(override, seen).value) == ListAt(override, now)
  {
    if seen != [] {
      var n := |seen| - 1;
      forall k | 0 <= k < n ensures seen[..n][k].value == now(seen[..n][k].at) {
        assert seen[..n][k] == seen[k];
      }
      ReplayAtOneMoment(override, now, seen[..n]);
      FeedKeepsOutcome(override, now, Replay(override, seen[..n]).value);
    }
  }

  // --------------------------------------------------------------------- reload

  datatype Write = Write(at: Loc, value: Value)

  /** Everything a reload will write, in order, and whether it reaches the end; `names` are the
      names of all backends ever allocated, indexed by id. */
  datatype Plan = Plan(writes: seq<Write>, ok: bool, names: seq<string>)

  /** The entry a map filled in order would hold for the name: the last backend that has it. */
  function Find(names: seq<string>, ids: seq<Id>, name: string): (r: Option<Id>)
    ensures r.Some? ==> r.value in ids && r.value < |names| && names[r.value] == name
    ensures r.None? ==> forall id :: id in ids && id < |names| ==> names[id] != name
  {
    if ids == [] then None
    else
      var n := |ids| - 1;
      assert ids == ids[..n] + [ids[n]];
      if ids[n] < |names| && names[ids[n]] == name then Some(ids[n]) else Find(names, ids[..n], name)
  }

  function Fields(id: Id, c: Config): seq<Write> {
    [Write(Models(id), Names(c.models)), Write(Owner(id), Text(c.ownedBy)), Write(Static(id), Flag(c.isStatic))]
  }

  function PlanReload(cfgs: seq<Config>, before: seq<Id>, names: seq<string>, known: seq<string>, done: seq<Id>): Plan
    decreases |cfgs|
  {
    if cfgs == [] then Plan([Write(Pool, Ids(done))], true, known)
    else
      var c := cfgs[0];
      match Find(names, before, c.name)
      case Some(id) =>
        if c.url.None? then Plan([], false, known)
        else if c.retry.Malformed? then Plan(Fields(id, c), false, known)
        else
          var p := PlanReload(cfgs[1..], before, names, known, done + [id]);
          p.(writes := Fields(id, c) + p.writes)
      case None =>
        if !Parses(c) then Plan([], false, known)
        else
          var p := PlanReload(cfgs[1..], before, names, known + [c.name], done + [|known|]);
          p.(writes := Fields(|known|, c) + p.writes)
  }

  // ---------------------------------------------------------------------- state

  /** All values a location has held; there is always a current one. */
  type Values = h: seq<Value> | h != [] witness [Ids([])]

  /** Positions of histories, 0 where absent. */
  type Marks = map<Loc, nat>

  function At(m: Marks, l: Loc): nat { if l in m then m[l] else 0 }

  function Later(a: Marks, b: Marks): (m: Marks)
    ensures forall l :: At(m, l) == if At(a, l) < At(b, l) then At(b, l) else At(a, l)
  {
    map l | l in a.Keys + b.Keys :: if At(a, l) < At(b, l) then At(b, l) else At(a, l)
  }

  /** Per version, what had been announced when it was set. */
  type Announcements = a: seq<Marks> | a != [] witness [map[]]

  /** A list with the version it was built for and the reads it was built from. */
  datatype Entry = Entry(version: nat, list: seq<Model>, seen: seq<Seen>)

  /** Where a thread stands; `writes` are the positions it wrote and has not yet announced. */
  datatype Thread =
    | Tripping(id: Id)
    | Recovering(id: Id)
    | Reloading(todo: seq<Write>, ok: bool, writes: Marks)
    | Bumping(reload: bool, writes: Marks)
    | Loaded(version: nat)
    | Building(version: nat, b: Builder, seen: seq<Seen>)

  datatype State = State(
    override: string,
    history: map<Loc, Values>,
    names: seq<string>,
    failCount: map<Id, int>,
    version: nat,
    announced: Announcements,
    poolLock: Option<Tid>,
    listLock: Option<Tid>,
    cached: Option<Entry>,
    served: seq<Entry>,          // every list handed to a client
    threads: map<Tid, Thread>,
    flips: seq<Id>,              // every successful compare-and-swap
    commits: nat,                // reloads that published their pool
    lost: Marks)                 // what reloads that failed since the last published one wrote

  function History(s: State, l: Loc): Values {
    if l in s.history then s.history[l] else [Initially(l)]
  }

  function Newest(s: State, l: Loc): nat {
    |History(s, l)| - 1
  }

  function Current(s: State, l: Loc): Value {
    History(s, l)[Newest(s, l)]
  }

  /** The pool as it is now. */
  function Now(s: State): Moment {
    l => Current(s, l)
  }

  function Announced(s: State, v: nat, l: Loc): nat {
    if v < |s.announced| then At(s.announced[v], l) else 0
  }

  function Unannounced(th: Thread): Marks {
    if th.Reloading? || th.Bumping? then th.writes else map[]
  }

  // ---------------------------------------------------------------------- steps

  datatype Step =
    | CountFailure(t: Tid, id: Id)
    | ResetCount(t: Tid, id: Id)
    | CompareAndSwap(t: Tid)
    | Bump(t: Tid)
    | StartReload(t: Tid, cfgs: seq<Config>)
    | WriteField(t: Tid)
    | FailReload(t: Tid)
    | LoadVersion(t: Tid)
    | Enter(t: Tid, expired: bool)
    | Read(t: Tid)
    | Store(t: Tid)
    | ClearCache

  function Put(s: State, l: Loc, v: Value): State {
    s.(history := s.history[l := History(s, l) + [v]])
  }

  function With(s: State, t: Tid, th: Thread): State {
    s.(threads := s.threads[t := th])
  }

  function Without(s: State, t: Tid): State {
    s.(threads := s.threads - {t})
  }

  /** The state after the step, if the step can be taken. */
  function Next(s: State, step: Step): Option<State> {
    match step
    case CountFailure(t, id) =>
      if t in s.threads || id >= |s.names| then None
      else
        var count := Health.Increment32(if id in s.failCount then s.failCount[id] else 0);
        var s1 := s.(failCount := s.failCount[id := count]);
        Some(if count >= 3 then With(s1, t, Tripping(id)) else s1)
    case ResetCount(t, id) =>
      if t in s.threads || id >= |s.names| then None
      else Some(With(s.(failCount := s.failCount[id := 0]), t, Recovering(id)))
    case CompareAndSwap(t) =>
      if t !in s.threads || !(s.threads[t].Tripping? || s.threads[t].Recovering?) then None
      else Some(Swap(s, t, s.threads[t].id, s.threads[t].Tripping?))
    case Bump(t) =>
      if t !in s.threads || !s.threads[t].Bumping? then None
      else
        var th := s.threads[t];
        Some(Without(s, t).(version := s.version + 1,
                            announced := s.announced + [Later(s.announced[|s.announced| - 1], th.writes)],
                            poolLock := if th.reload then None else s.poolLock))
    case StartReload(t, cfgs) =>
      if t in s.threads || s.poolLock.Some? then None
      else
        var p := PlanReload(cfgs, AsIds(Current(s, Pool)), s.names, s.names, []);
        Some(With(s.(names := p.names, poolLock := Some(t)), t, Reloading(p.writes, p.ok, map[])))
    case WriteField(t) =>
      if t !in s.threads || !s.threads[t].Reloading? || s.threads[t].todo == [] then None
      else
        var th := s.threads[t];
        var w := th.todo[0];
        var writes := th.writes[w.at := |History(s, w.at)|];
        var s1 := Put(s, w.at, w.value);
        Some(if th.ok && |th.todo| == 1
             then With(s1, t, Bumping(true, writes)).(commits := s.commits + 1, lost := map[])
             else With(s1, t, Reloading(th.todo[1..], th.ok, writes)))
    case FailReload(t) =>
      if t !in s.threads || !s.threads[t].Reloading? || s.threads[t].todo != [] || s.threads[t].ok then None
      else Some(Without(s, t).(lost := Later(s.lost, s.threads[t].writes), poolLock := None))
    case LoadVersion(t) =>
      if t in s.threads then None else Some(With(s, t, Loaded(s.version)))
    case Enter(t, expired) =>
      if t !in s.threads || !s.threads[t].Loaded? || s.listLock.Some? then None
      else
        var v := s.threads[t].version;
        Some(if s.cached.Some? && !expired && s.cached.value.version == v
             then Without(s, t).(served := s.served + [s.cached.value])
             else With(s, t, Building(v, ReadPool, [])).(listLock := Some(t)))
    case Read(t) =>
      if t !in s.threads || !s.threads[t].Building? || !Sound(s.threads[t].b) || s.threads[t].b.Built? then None
      else
        var th := s.threads[t];
        var l := Wants(th.b);
        Some(With(s, t, Building(th.version, Feed(s.override, th.b, Current(s, l)),
                                      th.seen + [Seen(l, Newest(s, l), Current(s, l))])))
    case Store(t) =>
      if t !in s.threads || !s.threads[t].Building? || !s.threads[t].b.Built? then None
      else
        var e := Entry(s.threads[t].version, s.threads[t].b.list, s.threads[t].seen);
        Some(Without(s, t).(cached := Some(e), served := s.served + [e], listLock := None))
    case ClearCache =>
      if s.listLock.Some? then None else Some(s.(cached := None))
  }

  /** The compare-and-swap of a recorder that wants to turn `was` into its opposite. */
  function Swap(s: State, t: Tid, id: Id, was: bool): State {
    if AsFlag(Current(s, Healthy(id))) == was then
      With(Put(s, Healthy(id), Flag(!was)), t, Bumping(false, map[Healthy(id) := |History(s, Healthy(id))|]))
        .(flips := s.flips + [id])
    else Without(s, t)
  }

  // ----------------------------------------------------------------------- runs

  function InitialHistory(cfgs: seq<Config>): (h: map<Loc, Values>)
    ensures forall l :: l in h ==> |h[l]| == 1 && !l.Healthy? && !l.Pool?
  {
    if cfgs == [] then map[]
    else
      var n := |cfgs| - 1;
      InitialHistory(cfgs[..n])[Models(n) := [Names(cfgs[n].models)]]
                               [Owner(n) := [Text(cfgs[n].ownedBy)]]
                               [Static(n) := [Flag(cfgs[n].isStatic)]]
  }

  function Identity(n: nat): seq<Id> { seq(n, i => i) }

  /** A new pool of these backends, before any request. */
  function Start(override: string, cfgs: seq<Config>): State {
    State(override,
          InitialHistory(cfgs)[Pool := [Ids(Identity(|cfgs|))]],
          seq(|cfgs|, i requires 0 <= i < |cfgs| => cfgs[i].name),
          map[], 0, [map[]], None, None, None, [], map[], [], 0, map[])
  }

  function Run(s: State, steps: seq<Step>): Option<State>
    decreases |steps|
  {
    if steps == [] then Some(s)
    else
      match Next(s, steps[0])
      case Some(s') => Run(s', steps[1..])
      case None => None
  }
}
