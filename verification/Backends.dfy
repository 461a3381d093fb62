/** The backend pool as heap code: backends with their counters, the model index, reload and
    selection. */
module Backends {
  import opened Configs
  import opened Options
  import opened PoolSpec
  import Health

  /** The shared version counter. */
  class Counter {
    var value: nat

    constructor ()
      ensures value == 0
    {
      value := 0;
    }
  }

  /** A buffered channel used as a semaphore. */
  class Semaphore {
    const capacity: nat
    var used: nat

    constructor (capacity: nat)
      ensures this.capacity == capacity && used == 0
    {
      this.capacity := capacity;
      used := 0;
    }
  }

  /** One upstream.  The fields that configuration decides are kept together in `settings`; a reload
      updates them one at a time.  The health fields and the counter are nobody's but the recorders'
      and the requests'. */
  class Backend {
    const name: string
    const healthVersion: Counter
    var settings: Settings
    var semaphore: Semaphore
    var healthy: bool
    var failCount: int
    var activeReqs: int

    function Status(): Health.Status
      reads this`healthy, this`failCount
    {
      Health.Status(healthy, failCount)
    }

    function Read(): Reading
      reads this`healthy, this`activeReqs
    {
      Reading(healthy, activeReqs)
    }

    function AsView(): View
      reads this
    {
      View(healthy, activeReqs, settings.models, settings.ownedBy, settings.isStatic)
    }

    constructor (cfg: Config, healthVersion: Counter)
      requires Parses(cfg)
      ensures name == cfg.name && this.healthVersion == healthVersion && settings == SettingsOf(cfg)
      ensures Status() == Health.FRESH && activeReqs == 0
      ensures fresh(semaphore) && semaphore.capacity == cfg.maxConcurrent && semaphore.used == 0
    {
      name := cfg.name;
      this.healthVersion := healthVersion;
      settings := SettingsOf(cfg);
      semaphore := new Semaphore(cfg.maxConcurrent);
      healthy := true;
      failCount := 0;
      activeReqs := 0;
    }

    /** Acquire with nobody else at work: a full semaphore stays full until the deadline passes.  When a
        slot is free and the context is `done` all the same, either may win: `luck` decides. */
    method Acquire(done: bool, luck: bool) returns (ok: bool)
      modifies this`activeReqs, semaphore`used
      ensures ok <==> old(semaphore.used) < semaphore.capacity && (done ==> luck)
      ensures semaphore.used == old(semaphore.used) + (if ok then 1 else 0)
      ensures activeReqs == old(activeReqs) + (if ok then 1 else 0)
    {
      ok := semaphore.used < semaphore.capacity && (!done || luck);
      if ok {
        semaphore.used := semaphore.used + 1;
        activeReqs := activeReqs + 1;
      }
    }

    method Release()
      requires semaphore.used > 0
      modifies this`activeReqs, semaphore`used
      ensures semaphore.used == old(semaphore.used) - 1 && activeReqs == old(activeReqs) - 1
    {
      semaphore.used := semaphore.used - 1;
      activeReqs := activeReqs - 1;
    }

    /** The status follows the sequential history; the version moves exactly when the flag does. */
    method RecordFailure()
      modifies this`failCount, this`healthy, healthVersion`value
      ensures Status() == Health.Record(old(Status()), Health.Failure)
      ensures healthVersion.value == old(healthVersion.value) + (if healthy != old(healthy) then 1 else 0)
    {
      failCount := Health.Increment32(failCount);
      if failCount >= 3 && healthy {
        healthy := false;
        healthVersion.value := healthVersion.value + 1;
      }
    }

    method RecordSuccess()
      modifies this`failCount, this`healthy, healthVersion`value
      ensures Status() == Health.Record(old(Status()), Health.Success)
      ensures healthVersion.value == old(healthVersion.value) + (if healthy != old(healthy) then 1 else 0)
    {
      failCount := 0;
      if !healthy {
        healthy := true;
        healthVersion.value := healthVersion.value + 1;
      }
    }

    /** The part of a reload that updates a backend the pool keeps.  A URL that does not parse is
        noticed before anything is written, a malformed `retry_after` after everything else is. */
    method Reconfigure(cfg: Config) returns (ok: bool)
      modifies this`settings, this`semaphore
      ensures ok == Parses(cfg)
      ensures settings == if cfg.url.Some? then SettingsOf(cfg) else old(settings)
      ensures settings.maxConcurrent == old(settings).maxConcurrent ==> semaphore == old(semaphore)
      ensures settings.maxConcurrent != old(settings).maxConcurrent ==>
                fresh(semaphore) && semaphore.capacity == settings.maxConcurrent && semaphore.used == 0
    {
      if cfg.url.None? { return false; }
      settings := settings.(url := cfg.url.value);
      if settings.maxConcurrent != cfg.maxConcurrent {
        semaphore := new Semaphore(cfg.maxConcurrent);
      }
      settings := settings.(maxConcurrent := cfg.maxConcurrent);
      settings := settings.(models := cfg.models);
      settings := settings.(ownedBy := cfg.ownedBy);
      settings := settings.(isStatic := cfg.isStatic);
      settings := settings.(healthPath := cfg.healthPath);
      settings := settings.(healthInterval := cfg.healthInterval);
      settings := settings.(deprecated := cfg.deprecated);
      settings := settings.(successor := cfg.successor);
      settings := settings.(noticeInterval := cfg.noticeInterval);
      ok := true;
      match cfg.retry {
        case Off => settings := settings.(retryAfter := 0);
        case Every(d) => settings := settings.(retryAfter := d);
        case Malformed => settings := settings.(retryAfter := 0); ok := false;
      }
    }
  }

  // ------------------------------------------------------------------- index

  /** The in-order walk over backends and their model lists, emitting a backend once per occurrence
      of the model in its list. */
  function Walk<T>(bs: seq<T>, lists: seq<seq<string>>, m: string): seq<T>
    requires |bs| == |lists|
  {
    if bs == [] then []
    else
      var n := |bs| - 1;
      Walk(bs[..n], lists[..n], m) + Times(bs[n], Count(lists[n], m))
  }

  function Lookup<T>(index: map<string, seq<T>>, m: string): seq<T> {
    if m in index then index[m] else []
  }

  lemma TimesSnoc<T>(b: T, n: nat)
    ensures Times(b, n + 1) == Times(b, n) + [b]
  {
  }

  /** The index after one backend has been appended under each model of its list, in order. */
  function AddAll<T>(index: map<string, seq<T>>, b: T, models: seq<string>): map<string, seq<T>> {
    if models == [] then index
    else
      var n := |models| - 1;
      var before := AddAll(index, b, models[..n]);
      before[models[n] := Lookup(before, models[n]) + [b]]
  }

  /** The index the loop builds over backends made from the first configurations. */
  function IndexFor<T>(bs: seq<T>, cfgs: seq<Config>): map<string, seq<T>>
    requires |bs| <= |cfgs|
  {
    if bs == [] then map[]
    else AddAll(IndexFor(bs[..|bs| - 1], cfgs), bs[|bs| - 1], cfgs[|bs| - 1].models)
  }

  lemma {:induction false} AddAllLookup<T>(index: map<string, seq<T>>, b: T, models: seq<string>, m: string)
    ensures Lookup(AddAll(index, b, models), m) == Lookup(index, m) + Times(b, Count(models, m))
  {
    if models != [] {
      var n := |models| - 1;
      AddAllLookup(index, b, models[..n], m);
      if models[n] == m { TimesSnoc(b, Count(models[..n], m)); }
    }
  }

  /** The index is exactly the walk. */
  lemma {:induction false} IndexIsWalk<T>(bs: seq<T>, cfgs: seq<Config>, lists: seq<seq<string>>, m: string)
    requires |bs| == |lists| <= |cfgs|
    requires forall k :: 0 <= k < |lists| ==> lists[k] == cfgs[k].models
    ensures Lookup(IndexFor(bs, cfgs), m) == Walk(bs, lists, m)
  {
    if bs != [] {
      var n := |bs| - 1;
      IndexIsWalk(bs[..n], cfgs, lists[..n], m);
      AddAllLookup(IndexFor(bs[..n], cfgs), bs[n], cfgs[n].models, m);
    }
  }

  // When two families of model lists give the same walks.

  lemma {:induction false} WalkStays<T>(bs: seq<T>, lists: seq<seq<string>>, m: string)
    requires |bs| == |lists|
    ensures forall b :: b in Walk(bs, lists, m) ==> b in bs
  {
    if bs != [] { WalkStays(bs[..|bs| - 1], lists[..|bs| - 1], m); }
  }

  lemma {:induction false} TimesCounts<T>(b: T, n: nat)
    ensures multiset(Times(b, n))[b] == n
  {
    if n > 0 {
      TimesSnoc(b, n - 1);
      TimesCounts(b, n - 1);
    }
  }

  predicate Distinct<T(==)>(bs: seq<T>) {
    forall i, j :: 0 <= i < j < |bs| ==> bs[i] != bs[j]
  }

  /** A backend occurs in the walk once per occurrence of the model in its list. */
  lemma {:induction false} WalkCounts<T>(bs: seq<T>, lists: seq<seq<string>>, m: string, i: nat)
    requires |bs| == |lists| && Distinct(bs) && i < |bs|
    ensures multiset(Walk(bs, lists, m))[bs[i]] == Count(lists[i], m)
  {
    var n := |bs| - 1;
    var init, own := Walk(bs[..n], lists[..n], m), Times(bs[n], Count(lists[n], m));
    assert multiset(init + own) == multiset(init) + multiset(own);
    if i == n {
      WalkStays(bs[..n], lists[..n], m);
      assert bs[n] !in init;
      TimesCounts(bs[n], Count(lists[n], m));
    } else {
      WalkCounts(bs[..n], lists[..n], m, i);
      assert bs[i] !in own;
    }
  }

  lemma {:induction false} CountIsMultiplicity(ms: seq<string>, m: string)
    ensures Count(ms, m) == multiset(ms)[m]
  {
    if ms != [] {
      var n := |ms| - 1;
      assert ms == ms[..n] + [ms[n]];
      CountIsMultiplicity(ms[..n], m);
    }
  }

  lemma {:induction false} SameCountsSameWalk<T>(bs: seq<T>, a: seq<seq<string>>, b: seq<seq<string>>, m: string)
    requires |bs| == |a| == |b|
    requires forall i :: 0 <= i < |bs| ==> multiset(a[i]) == multiset(b[i])
    ensures Walk(bs, a, m) == Walk(bs, b, m)
  {
    if bs != [] {
      var n := |bs| - 1;
      SameCountsSameWalk(bs[..n], a[..n], b[..n], m);
      CountIsMultiplicity(a[n], m);
      CountIsMultiplicity(b[n], m);
    }
  }

  ghost predicate SameWalks<T>(bs: seq<T>, a: seq<seq<string>>, b: seq<seq<string>>)
    requires |bs| == |a| == |b|
  {
    forall m :: Walk(bs, a, m) == Walk(bs, b, m)
  }

  lemma SameWalksSameCounts<T>(bs: seq<T>, a: seq<seq<string>>, b: seq<seq<string>>, i: nat)
    requires |bs| == |a| == |b| && Distinct(bs) && i < |bs| && SameWalks(bs, a, b)
    ensures multiset(a[i]) == multiset(b[i])
  {
    forall m ensures multiset(a[i])[m] == multiset(b[i])[m] {
      assert Walk(bs, a, m) == Walk(bs, b, m);
      WalkCounts(bs, a, m, i);
      WalkCounts(bs, b, m, i);
      CountIsMultiplicity(a[i], m);
      CountIsMultiplicity(b[i], m);
    }
  }

  /** Two families of lists give the same walk for every model exactly when each backend's two lists
      hold the same models equally often. */
  lemma WalksAgreeIff<T>(bs: seq<T>, a: seq<seq<string>>, b: seq<seq<string>>)
    requires |bs| == |a| == |b| && Distinct(bs)
    ensures SameWalks(bs, a, b) <==> forall i :: 0 <= i < |bs| ==> multiset(a[i]) == multiset(b[i])
  {
    if SameWalks(bs, a, b) {
      forall i | 0 <= i < |bs| ensures multiset(a[i]) == multiset(b[i]) { SameWalksSameCounts(bs, a, b, i); }
    } else {
      var m :| Walk(bs, a, m) != Walk(bs, b, m);
      if forall i :: 0 <= i < |bs| ==> multiset(a[i]) == multiset(b[i]) { SameCountsSameWalk(bs, a, b, m); }
    }
  }

  /** What a reload makes of a kept backend's settings, whether it succeeds or not: overwritten if it
      gets to the name, else as they were. */
  predicate IsReloaded(cfgs: seq<Config>, name: string, was: Settings, now: Settings) {
    && (forall i :: 0 <= i < |cfgs| && Overwrites(cfgs, i) && cfgs[i].name == name ==> now == SettingsOf(cfgs[i]))
    && ((forall i :: 0 <= i < |cfgs| && Overwrites(cfgs, i) ==> cfgs[i].name != name) ==> now == was)
  }

  /** A reload would give every kept backend it gets to the models it has, equally often. */
  predicate KeepsLists(cfgs: seq<Config>, names: seq<string>, lists: seq<seq<string>>)
    requires |names| == |lists|
  {
    forall k, i :: 0 <= k < |names| && 0 <= i < |cfgs| && Overwrites(cfgs, i) && cfgs[i].name == names[k] ==>
      multiset(cfgs[i].models) == multiset(lists[k])
  }

  /** `now` are the lists a reload leaves behind it, of backends with these names. */
  predicate Rewritten(cfgs: seq<Config>, names: seq<string>, was: seq<seq<string>>, now: seq<seq<string>>)
    requires |names| == |was| == |now|
  {
    forall k :: 0 <= k < |names| ==>
      && (forall i :: 0 <= i < |cfgs| && Overwrites(cfgs, i) && cfgs[i].name == names[k] ==> now[k] == cfgs[i].models)
      && ((forall i :: 0 <= i < |cfgs| && Overwrites(cfgs, i) ==> cfgs[i].name != names[k]) ==> now[k] == was[k])
  }

  function ListsOf(settings: seq<Settings>): (l: seq<seq<string>>)
    ensures |l| == |settings| && forall k :: 0 <= k < |l| ==> l[k] == settings[k].models
  {
    seq(|settings|, k requires 0 <= k < |settings| => settings[k].models)
  }

  predicate AllReloaded(cfgs: seq<Config>, names: seq<string>, was: seq<Settings>, now: seq<Settings>)
    requires |names| == |was| == |now|
  {
    forall k :: 0 <= k < |names| ==> IsReloaded(cfgs, names[k], was[k], now[k])
  }

  lemma ReloadedIsRewritten(cfgs: seq<Config>, names: seq<string>, was: seq<Settings>, now: seq<Settings>)
    requires |names| == |was| == |now| && AllReloaded(cfgs, names, was, now)
    ensures Rewritten(cfgs, names, ListsOf(was), ListsOf(now))
  {
    forall k | 0 <= k < |names|
      ensures forall i :: 0 <= i < |cfgs| && Overwrites(cfgs, i) && cfgs[i].name == names[k] ==> now[k].models == cfgs[i].models
      ensures (forall i :: 0 <= i < |cfgs| && Overwrites(cfgs, i) ==> cfgs[i].name != names[k]) ==> now[k].models == was[k].models
    {
      assert IsReloaded(cfgs, names[k], was[k], now[k]);
    }
  }

  /** An index that fitted the lists `was` fits the lists `now` exactly if the reload kept them. */
  lemma ReloadedWalksIff<T>(bs: seq<T>, cfgs: seq<Config>, names: seq<string>, was: seq<Settings>, now: seq<Settings>)
    requires |bs| == |names| == |was| == |now| && Distinct(bs) && AllReloaded(cfgs, names, was, now)
    ensures SameWalks(bs, ListsOf(was), ListsOf(now)) <==> KeepsLists(cfgs, names, ListsOf(was))
  {
    ReloadedIsRewritten(cfgs, names, was, now);
    RewrittenKeepsIff(cfgs, names, ListsOf(was), ListsOf(now));
    WalksAgreeIff(bs, ListsOf(was), ListsOf(now));
  }

  lemma RewrittenKeepsIff(cfgs: seq<Config>, names: seq<string>, was: seq<seq<string>>, now: seq<seq<string>>)
    requires |names| == |was| == |now| && Rewritten(cfgs, names, was, now)
    ensures (forall k :: 0 <= k < |names| ==> multiset(was[k]) == multiset(now[k])) <==> KeepsLists(cfgs, names, was)
  {
    if forall k :: 0 <= k < |names| ==> multiset(was[k]) == multiset(now[k]) {
      assert KeepsLists(cfgs, names, was);
    }
    if KeepsLists(cfgs, names, was) {
      forall k | 0 <= k < |names| ensures multiset(was[k]) == multiset(now[k]) {
        if i :| 0 <= i < |cfgs| && Overwrites(cfgs, i) && cfgs[i].name == names[k] {
          assert now[k] == cfgs[i].models;
        }
      }
    }
  }

  method AddToIndex<T>(index: map<string, seq<T>>, b: T, models: seq<string>) returns (index': map<string, seq<T>>)
    ensures index' == AddAll(index, b, models)
  {
    index' := index;
    for i := 0 to |models|
      invariant index' == AddAll(index, b, models[..i])
    {
      assert models[..i + 1][..i] == models[..i];
      index' := index'[models[i] := Lookup(index', models[i]) + [b]];
    }
    assert models[..|models|] == models;
  }

  /** What a reload may change of a kept backend. */
  datatype Kept = Kept(settings: Settings, semaphore: Semaphore)

  ghost function KeptOf(bs: seq<Backend>): (l: seq<Kept>)
    reads bs
    ensures |l| == |bs| && forall i :: 0 <= i < |l| ==> l[i] == Kept(bs[i].settings, bs[i].semaphore)
  {
    seq(|bs|, i requires 0 <= i < |bs| reads bs => Kept(bs[i].settings, bs[i].semaphore))
  }

  ghost function SettingsIn(kept: seq<Kept>): (l: seq<Settings>)
    ensures |l| == |kept| && forall i :: 0 <= i < |l| ==> l[i] == kept[i].settings
  {
    seq(|kept|, i requires 0 <= i < |kept| => kept[i].settings)
  }

  ghost function SettingsList(bs: seq<Backend>): (l: seq<Settings>)
    reads bs
    ensures |l| == |bs| && forall i :: 0 <= i < |l| ==> l[i] == bs[i].settings
  {
    SettingsIn(KeptOf(bs))
  }

  ghost function ModelsOf(bs: seq<Backend>): (l: seq<seq<string>>)
    reads bs
    ensures |l| == |bs| && forall i :: 0 <= i < |l| ==> l[i] == bs[i].settings.models
  {
    ListsOf(SettingsList(bs))
  }

  /** For backends that carry the models of their configurations. */
  lemma IndexIsWalkOf(bs: seq<Backend>, cfgs: seq<Config>)
    requires |bs| == |cfgs|
    requires forall i :: 0 <= i < |bs| ==> bs[i].settings.models == cfgs[i].models
    ensures forall m :: Lookup(IndexFor(bs, cfgs), m) == Walk(bs, ModelsOf(bs), m)
  {
    forall m ensures Lookup(IndexFor(bs, cfgs), m) == Walk(bs, ModelsOf(bs), m) {
      IndexIsWalk(bs, cfgs, ModelsOf(bs), m);
    }
  }

  ghost function NamesOf(bs: seq<Backend>): (names: seq<string>)
    ensures |names| == |bs| && forall i :: 0 <= i < |names| ==> names[i] == bs[i].name
  {
    seq(|bs|, i requires 0 <= i < |bs| => bs[i].name)
  }

  function ReadingsOf(bs: seq<Backend>): (rs: seq<Reading>)
    reads bs
    ensures |rs| == |bs| && forall i :: 0 <= i < |rs| ==> rs[i] == bs[i].Read()
  {
    seq(|bs|, i requires 0 <= i < |bs| reads bs => bs[i].Read())
  }

  ghost function ViewsOf(bs: seq<Backend>): (vs: seq<View>)
    reads bs
    ensures |vs| == |bs| && forall i :: 0 <= i < |vs| ==> vs[i] == bs[i].AsView()
  {
    seq(|bs|, i requires 0 <= i < |bs| reads bs => bs[i].AsView())
  }

  datatype Selection = Picked(backend: Backend) | ErrUnknownModel | ErrBackendUnavailable

  /** A choice by position, read back as a choice among the candidates. */
  predicate Agrees(r: Selection, cs: seq<Backend>, c: Choice) {
    match c
    case UnknownModel => r == ErrUnknownModel
    case Unavailable => r == ErrBackendUnavailable
    case Panic => false
    case Chosen(i) => i < |cs| && r == Picked(cs[i])
  }

  /** Appending every backend to a new index.  The code does this in the loop that makes the
      backends; nothing reads the index in between. */
  method IndexAll<T>(bs: seq<T>, cfgs: seq<Config>) returns (index: map<string, seq<T>>)
    requires |bs| == |cfgs|
    ensures index == IndexFor(bs, cfgs)
  {
    index := map[];
    for i := 0 to |bs|
      invariant index == IndexFor(bs[..i], cfgs)
    {
      assert bs[..i + 1][..i] == bs[..i];
      index := AddToIndex(index, bs[i], cfgs[i].models);
    }
    assert bs[..|bs|] == bs;
  }

  ghost predicate IsConfigured(b: Backend, cfg: Config, version: Counter)
    reads b`settings
  {
    Parses(cfg) && b.name == cfg.name && b.healthVersion == version && b.settings == SettingsOf(cfg)
  }

  /** A backend as it is when no outcome and no request has reached it. */
  ghost predicate Untried(b: Backend)
    reads b`healthy, b`failCount, b`activeReqs
  {
    b.Status() == Health.FRESH && b.activeReqs == 0
  }

  /** Field by field, what the rest of the program reads from a backend is what its configuration says. */
  ghost predicate Carries(b: Backend, cfg: Config)
    reads b
  {
    && b.name == cfg.name
    && cfg.url == Some(b.settings.url)
    && b.AsView() == View(b.healthy, b.activeReqs, cfg.models, cfg.ownedBy, cfg.isStatic)
    && b.settings.maxConcurrent == cfg.maxConcurrent
    && b.settings.healthPath == cfg.healthPath && b.settings.healthInterval == cfg.healthInterval
    && b.settings.deprecated == cfg.deprecated && b.settings.successor == cfg.successor
    && b.settings.noticeInterval == cfg.noticeInterval
    && (match cfg.retry case Every(d) => b.settings.retryAfter == d case _ => b.settings.retryAfter == 0)
  }

  lemma ConfiguredCarries(bs: seq<Backend>, cfgs: seq<Config>, version: Counter)
    requires |bs| == |cfgs| && forall i :: 0 <= i < |cfgs| ==> IsConfigured(bs[i], cfgs[i], version)
    ensures forall i :: 0 <= i < |cfgs| ==> Carries(bs[i], cfgs[i])
  {
  }

  /** A kept backend's settings after the first n turns of the reload loop. */
  function SettingsAfter(cfgs: seq<Config>, n: nat, name: string, was: Settings): Settings
    requires n <= |cfgs|
  {
    if n == 0 then was
    else if cfgs[n - 1].name == name && cfgs[n - 1].url.Some? then SettingsOf(cfgs[n - 1])
    else SettingsAfter(cfgs, n - 1, name, was)
  }

  lemma {:induction false} SettingsAfterTurn(cfgs: seq<Config>, n: nat, i: nat, was: Settings)
    requires DistinctNames(cfgs) && i < n <= |cfgs| && cfgs[i].url.Some?
    ensures SettingsAfter(cfgs, n, cfgs[i].name, was) == SettingsOf(cfgs[i])
  {
    if i < n - 1 { SettingsAfterTurn(cfgs, n - 1, i, was); }
  }

  lemma {:induction false} SettingsUntouched(cfgs: seq<Config>, n: nat, name: string, was: Settings)
    requires n <= |cfgs| && forall i :: 0 <= i < n && cfgs[i].url.Some? ==> cfgs[i].name != name
    ensures SettingsAfter(cfgs, n, name, was) == was
  {
    if n > 0 { SettingsUntouched(cfgs, n - 1, name, was); }
  }

  /** The semaphore stays while its size does. */
  ghost predicate SlotsStay(was: Kept, now: Kept) {
    now.settings.maxConcurrent == was.settings.maxConcurrent ==> now.semaphore == was.semaphore
  }

  ghost predicate AllSlotsStay(was: seq<Kept>, now: seq<Kept>) {
    |now| == |was| && forall k :: 0 <= k < |was| ==> SlotsStay(was[k], now[k])
  }

  /** One turn of the reload loop, seen on the kept backends. */
  ghost predicate Stepped(cfg: Config, names: seq<string>, was: seq<Kept>, now: seq<Kept>)
    requires |names| == |was| == |now|
  {
    forall k :: 0 <= k < |names| ==>
      if names[k] != cfg.name || cfg.url.None? then now[k] == was[k]
      else now[k].settings == SettingsOf(cfg) && SlotsStay(was[k], now[k])
  }

  /** The first n turns. */
  ghost predicate Worked(cfgs: seq<Config>, n: nat, names: seq<string>, was: seq<Kept>, now: seq<Kept>)
    requires n <= |cfgs| && |names| == |was| == |now|
  {
    forall k :: 0 <= k < |names| ==>
      && now[k].settings == SettingsAfter(cfgs, n, names[k], was[k].settings)
      && SlotsStay(was[k], now[k])
      && ((forall i :: 0 <= i < n ==> cfgs[i].name != names[k]) ==> now[k] == was[k])
  }

  lemma WorkedStep(cfgs: seq<Config>, n: nat, names: seq<string>, was: seq<Kept>, mid: seq<Kept>, now: seq<Kept>)
    requires DistinctNames(cfgs) && n < |cfgs| && |names| == |was| == |mid| == |now|
    requires Worked(cfgs, n, names, was, mid) && Stepped(cfgs[n], names, mid, now)
    ensures Worked(cfgs, n + 1, names, was, now)
  {
  }

  /** Where a loop that has come to turn i ends: behind the first configuration that does not parse, or
      behind all of them. */
  function TurnsFrom(cfgs: seq<Config>, i: nat): (n: nat)
    requires i <= |cfgs|
    ensures i <= n <= |cfgs| && (n == i ==> n == |cfgs|)
    ensures forall k :: i <= k < n - 1 ==> Parses(cfgs[k])
    ensures i < n < |cfgs| ==> !Parses(cfgs[n - 1])
    decreases |cfgs| - i
  {
    if i == |cfgs| then i else if !Parses(cfgs[i]) then i + 1 else TurnsFrom(cfgs, i + 1)
  }

  /** The turns a reload of these configurations makes. */
  function TurnsOf(cfgs: seq<Config>): (n: nat)
    ensures n <= |cfgs|
  {
    TurnsFrom(cfgs, 0)
  }

  lemma ReloadIsReloaded(cfgs: seq<Config>, name: string, was: Settings)
    requires DistinctNames(cfgs)
    ensures IsReloaded(cfgs, name, was, SettingsAfter(cfgs, TurnsOf(cfgs), name, was))
  {
    var n := TurnsOf(cfgs);
    forall i: nat | i < |cfgs| ensures Overwrites(cfgs, i) <==> i < n && cfgs[i].url.Some? {
      if n <= i { assert !Parses(cfgs[n - 1]); }
    }
    if i :| 0 <= i < n && cfgs[i].url.Some? && cfgs[i].name == name {
      SettingsAfterTurn(cfgs, n, i, was);
    } else {
      SettingsUntouched(cfgs, n, name, was);
    }
  }

  /** The settings of the kept backends after the reload, whether it succeeds or not. */
  function AfterReload(cfgs: seq<Config>, names: seq<string>, was: seq<Settings>): (now: seq<Settings>)
    requires |names| == |was|
    ensures |now| == |was|
  {
    seq(|was|, k requires 0 <= k < |was| => SettingsAfter(cfgs, TurnsOf(cfgs), names[k], was[k]))
  }

  /** Each kept backend has been overwritten if the reload got to its name, and is as it was if not. */
  lemma AfterReloadMeans(cfgs: seq<Config>, names: seq<string>, was: seq<Settings>)
    requires DistinctNames(cfgs) && |names| == |was|
    ensures AllReloaded(cfgs, names, was, AfterReload(cfgs, names, was))
  {
    forall k | 0 <= k < |names| ensures IsReloaded(cfgs, names[k], was[k], AfterReload(cfgs, names, was)[k]) {
      ReloadIsReloaded(cfgs, names[k], was[k]);
    }
  }

  lemma WorkedIsReloaded(cfgs: seq<Config>, names: seq<string>, was: seq<Kept>, now: seq<Kept>)
    requires |names| == |was| == |now| && Worked(cfgs, TurnsOf(cfgs), names, was, now)
    ensures SettingsIn(now) == AfterReload(cfgs, names, SettingsIn(was))
  {
  }

  class Pool {
    var backends: seq<Backend>
    var modelIndex: map<string, seq<Backend>>
    const healthVersion: Counter

    /** Distinct names and one shared version. */
    ghost predicate Shaped()
      reads this, backends
    {
      && (forall i, j :: 0 <= i < j < |backends| ==> backends[i].name != backends[j].name)
      && (forall i :: 0 <= i < |backends| ==> backends[i].healthVersion == healthVersion)
    }

    /** The index is exactly the walk over these model lists. */
    ghost predicate IndexFits(lists: seq<seq<string>>)
      requires |lists| == |backends|
      reads this`backends, this`modelIndex
    {
      forall m :: Lookup(modelIndex, m) == Walk(backends, lists, m)
    }

    /** It is the walk over the lists as they are now. */
    ghost predicate Indexed()
      reads this, backends
    {
      IndexFits(ModelsOf(backends))
    }

    ghost predicate Valid()
      reads this, backends
    {
      Shaped() && Indexed()
    }

    constructor (cfgs: seq<Config>)
      requires DistinctNames(cfgs)
      requires forall i :: 0 <= i < |cfgs| ==> Parses(cfgs[i])
      ensures Valid() && |backends| == |cfgs| && fresh(healthVersion) && healthVersion.value == 0
      ensures forall i :: 0 <= i < |cfgs| ==>
                && fresh(backends[i]) && fresh(backends[i].semaphore)
                && IsConfigured(backends[i], cfgs[i], healthVersion) && Untried(backends[i])
    {
      backends := [];
      modelIndex := map[];
      healthVersion := new Counter();
      new;
      for i := 0 to |cfgs|
        invariant |backends| == i && fresh(healthVersion) && healthVersion.value == 0
        invariant forall k :: 0 <= k < i ==>
                    && fresh(backends[k]) && fresh(backends[k].semaphore)
                    && IsConfigured(backends[k], cfgs[k], healthVersion) && Untried(backends[k])
      {
        var b := new Backend(cfgs[i], healthVersion);
        backends := backends + [b];
      }
      modelIndex := IndexAll(backends, cfgs);
      IndexIsWalkOf(backends, cfgs);
    }

    /** The map holds exactly the pool's backends under their names. */
    ghost predicate HoldsAll(existing: map<string, Backend>)
      reads this`backends
    {
      && (forall b :: b in backends ==> b.name in existing && existing[b.name] == b)
      && (forall name :: name in existing ==> existing[name] in backends && existing[name].name == name)
    }

    method ByName() returns (existing: map<string, Backend>)
      requires Shaped()
      ensures HoldsAll(existing)
    {
      existing := map[];
      for i := 0 to |backends|
        invariant forall j :: 0 <= j < i ==> backends[j].name in existing && existing[backends[j].name] == backends[j]
        invariant forall name :: name in existing ==> existing[name] in backends && existing[name].name == name
      {
        existing := existing[backends[i].name := backends[i]];
      }
    }

    /** One turn of the reload loop: take over the backend of that name, updated, or make a new one. */
    method Adopt(existing: map<string, Backend>, cfg: Config) returns (r: Option<Backend>)
      requires Shaped() && HoldsAll(existing)
      modifies (set b | b in backends)`settings, (set b | b in backends)`semaphore
      ensures r.Some? <==> Parses(cfg)
      ensures r.Some? ==> IsConfigured(r.value, cfg, healthVersion)
      ensures r.Some? ==> if cfg.name in existing then r.value == existing[cfg.name] else fresh(r.value) && Untried(r.value)
      ensures Stepped(cfg, NamesOf(backends), old(KeptOf(backends)), KeptOf(backends))
    {
      if cfg.name in existing {
        var ok := existing[cfg.name].Reconfigure(cfg);
        return if ok then Some(existing[cfg.name]) else None;
      }
      if !Parses(cfg) { return None; }
      var b := new Backend(cfg, healthVersion);
      r := Some(b);
    }

    /** The backends of a reload, in order, or nothing if some configuration does not parse. */
    method Assemble(existing: map<string, Backend>, cfgs: seq<Config>) returns (r: Option<seq<Backend>>)
      requires Shaped() && DistinctNames(cfgs) && HoldsAll(existing)
      modifies (set b | b in backends)`settings, (set b | b in backends)`semaphore
      ensures r.Some? <==> forall k :: 0 <= k < |cfgs| ==> Parses(cfgs[k])
      ensures r.Some? ==> |r.value| == |cfgs|
      ensures r.Some? ==> forall k :: 0 <= k < |cfgs| ==>
                if cfgs[k].name in existing then r.value[k] == existing[cfgs[k].name]
                else fresh(r.value[k]) && Untried(r.value[k]) && IsConfigured(r.value[k], cfgs[k], healthVersion)
      ensures Worked(cfgs, TurnsOf(cfgs), NamesOf(backends), old(KeptOf(backends)), KeptOf(backends))
    {
      var newBackends: seq<Backend> := [];
      for i := 0 to |cfgs|
        invariant |newBackends| == i
        invariant TurnsFrom(cfgs, i) == TurnsOf(cfgs) && forall k :: 0 <= k < i ==> Parses(cfgs[k])
        invariant forall k :: 0 <= k < i ==>
                    if cfgs[k].name in existing then newBackends[k] == existing[cfgs[k].name]
                    else fresh(newBackends[k]) && Untried(newBackends[k]) && IsConfigured(newBackends[k], cfgs[k], healthVersion)
        invariant Worked(cfgs, i, NamesOf(backends), old(KeptOf(backends)), KeptOf(backends))
      {
        ghost var before := KeptOf(backends);
        var b := Adopt(existing, cfgs[i]);
        WorkedStep(cfgs, i, NamesOf(backends), old(KeptOf(backends)), before, KeptOf(backends));
        if b.None? { return None; }
        newBackends := newBackends + [b.value];
      }
      r := Some(newBackends);
    }

    /** An index that fitted the settings `was` fits those of now exactly if the reload kept the lists. */
    lemma OldIndex(cfgs: seq<Config>, was: seq<Settings>)
      requires Shaped() && |was| == |backends|
      requires DistinctNames(cfgs) && SettingsList(backends) == AfterReload(cfgs, NamesOf(backends), was)
      ensures IndexFits(ListsOf(was)) ==> (Indexed() <==> KeepsLists(cfgs, NamesOf(backends), ListsOf(was)))
    {
      AfterReloadMeans(cfgs, NamesOf(backends), was);
      ReloadedWalksIff(backends, cfgs, NamesOf(backends), was, SettingsList(backends));
      if IndexFits(ListsOf(was)) {
        assert Indexed() <==> SameWalks(backends, ListsOf(was), ModelsOf(backends));
      }
    }

    /** The whole of a reload up to where it publishes. */
    method Prepare(cfgs: seq<Config>) returns (r: Option<seq<Backend>>)
      requires Shaped() && DistinctNames(cfgs)
      modifies (set b | b in backends)`settings, (set b | b in backends)`semaphore
      ensures r.None? <==> exists i :: 0 <= i < |cfgs| && !Parses(cfgs[i])
      ensures SettingsList(backends) == AfterReload(cfgs, NamesOf(backends), old(SettingsList(backends)))
      ensures AllSlotsStay(old(KeptOf(backends)), KeptOf(backends))
      ensures r.Some? ==> |r.value| == |cfgs|
      ensures r.Some? ==> forall k :: 0 <= k < |cfgs| ==>
                && IsConfigured(r.value[k], cfgs[k], healthVersion)
                && (r.value[k] in backends || (fresh(r.value[k]) && Untried(r.value[k])))
      ensures r.Some? ==> forall k, b :: 0 <= k < |cfgs| && b in backends && b.name == cfgs[k].name ==> r.value[k] == b
    {
      var existing := ByName();
      r := Assemble(existing, cfgs);
      WorkedIsReloaded(cfgs, NamesOf(backends), old(KeptOf(backends)), KeptOf(backends));
      if r.Some? {
        forall k | 0 <= k < |cfgs| ensures IsConfigured(r.value[k], cfgs[k], healthVersion) {
          if cfgs[k].name in existing { Installed(cfgs, k, existing[cfgs[k].name], old(SettingsList(backends))); }
        }
      }
    }

    lemma Installed(cfgs: seq<Config>, k: nat, b: Backend, was: seq<Settings>)
      requires |was| == |backends| && DistinctNames(cfgs) && SettingsList(backends) == AfterReload(cfgs, NamesOf(backends), was)
      requires Overwrites(cfgs, k) && b in backends && b.name == cfgs[k].name
      ensures b.settings == SettingsOf(cfgs[k])
    {
      AfterReloadMeans(cfgs, NamesOf(backends), was);
      var i :| 0 <= i < |backends| && backends[i] == b;
      assert IsReloaded(cfgs, NamesOf(backends)[i], was[i], SettingsList(backends)[i]);
    }

    /** The end of a reload: new backends, new index, and the bump last. */
    method Publish(newBackends: seq<Backend>, cfgs: seq<Config>)
      requires DistinctNames(cfgs) && |newBackends| == |cfgs|
      requires forall k :: 0 <= k < |cfgs| ==> IsConfigured(newBackends[k], cfgs[k], healthVersion)
      modifies this`backends, this`modelIndex, healthVersion`value
      ensures Valid() && backends == newBackends && healthVersion.value == old(healthVersion.value) + 1
    {
      var newModelIndex := IndexAll(newBackends, cfgs);
      backends := newBackends;
      modelIndex := newModelIndex;
      healthVersion.value := healthVersion.value + 1;
      IndexIsWalkOf(backends, cfgs);
    }

    /** The reload, but for what an old index is worth after a failure. */
    method Rebuild(cfgs: seq<Config>) returns (err: bool)
      requires Shaped() && DistinctNames(cfgs)
      modifies this`backends, this`modelIndex, healthVersion`value
      modifies (set b | b in backends)`settings, (set b | b in backends)`semaphore
      ensures Shaped()
      ensures err <==> exists i :: 0 <= i < |cfgs| && !Parses(cfgs[i])
      ensures err ==> backends == old(backends) && modelIndex == old(modelIndex)
                      && healthVersion.value == old(healthVersion.value)
      ensures !err ==> Valid() && |backends| == |cfgs| && healthVersion.value == old(healthVersion.value) + 1
      ensures !err ==> forall i :: 0 <= i < |cfgs| ==> IsConfigured(backends[i], cfgs[i], healthVersion)
      ensures !err ==> forall i, b :: 0 <= i < |cfgs| && b in old(backends) && b.name == cfgs[i].name ==> backends[i] == b
      ensures !err ==> forall i :: 0 <= i < |cfgs| && backends[i] !in old(backends) ==>
                fresh(backends[i]) && Untried(backends[i])
      ensures SettingsList(old(backends)) == AfterReload(cfgs, old(NamesOf(backends)), old(SettingsList(backends)))
      ensures AllSlotsStay(old(KeptOf(backends)), KeptOf(old(backends)))
    {
      var newBackends := Prepare(cfgs);
      if newBackends.None? { return true; }
      Publish(newBackends.value, cfgs);
      err := false;
    }

    /** A reload either installs the configurations, keeping every backend whose name stays, or
        leaves what it publishes as it was, although it has overwritten the backends it got to; the
        index then fits what they serve now exactly if that is what they served before.  Health and
        counters are never touched.  An earlier failed reload is no obstacle. */
    method ReloadPool(cfgs: seq<Config>) returns (err: bool)
      requires Shaped() && DistinctNames(cfgs)
      modifies this`backends, this`modelIndex, healthVersion`value
      modifies (set b | b in backends)`settings, (set b | b in backends)`semaphore
      ensures Shaped()
      ensures err <==> exists i :: 0 <= i < |cfgs| && !Parses(cfgs[i])
      ensures err ==> backends == old(backends) && modelIndex == old(modelIndex)
                      && healthVersion.value == old(healthVersion.value)
      ensures err && old(Indexed()) ==> (Indexed() <==> KeepsLists(cfgs, NamesOf(backends), old(ModelsOf(backends))))
      ensures !err ==> Valid() && |backends| == |cfgs| && healthVersion.value == old(healthVersion.value) + 1
      ensures !err ==> forall i :: 0 <= i < |cfgs| ==> IsConfigured(backends[i], cfgs[i], healthVersion)
      ensures !err ==> forall i, b :: 0 <= i < |cfgs| && b in old(backends) && b.name == cfgs[i].name ==> backends[i] == b
      ensures !err ==> forall i :: 0 <= i < |cfgs| && backends[i] !in old(backends) ==>
                fresh(backends[i]) && Untried(backends[i])
      ensures SettingsList(old(backends)) == AfterReload(cfgs, old(NamesOf(backends)), old(SettingsList(backends)))
      ensures AllSlotsStay(old(KeptOf(backends)), KeptOf(old(backends)))
      ensures forall b :: b in old(backends) ==> b.Status() == old(b.Status()) && b.activeReqs == old(b.activeReqs)
      ensures !err ==> forall i :: 0 <= i < |cfgs| ==> Carries(backends[i], cfgs[i])
    {
      ghost var was := SettingsList(backends);
      err := Rebuild(cfgs);
      if err { OldIndex(cfgs, was); } else { ConfiguredCarries(backends, cfgs, healthVersion); }
    }

    /** The first pass: the least count below the 32-bit maximum on a healthy candidate, if any. */
    method FirstPass(cs: seq<Backend>) returns (best: Backend?, minReqs: int)
      ensures minReqs == LeastActive(ReadingsOf(cs))
      ensures best == null <==> minReqs == MAX_INT32
    {
      ghost var rs := ReadingsOf(cs);
      best, minReqs := null, MAX_INT32;
      for i := 0 to |cs|
        invariant minReqs == LeastActive(rs[..i])
        invariant best == null <==> minReqs == MAX_INT32
      {
        LeastStep(rs, i);
        if cs[i].healthy && cs[i].activeReqs < minReqs {
          minReqs := cs[i].activeReqs;
          best := cs[i];
        }
      }
      assert rs[..|cs|] == rs;
    }

    /** The second pass: the healthy candidates with exactly that count, in order. */
    method SecondPass(cs: seq<Backend>, minReqs: int) returns (tied: seq<Backend>)
      ensures var at := TiedAt(ReadingsOf(cs), minReqs);
              |tied| == |at| && forall k :: 0 <= k < |tied| ==> at[k] in at && tied[k] == cs[at[k]]
    {
      ghost var rs := ReadingsOf(cs);
      tied := [];
      for i := 0 to |cs|
        invariant |tied| == |TiedAt(rs[..i], minReqs)|
        invariant forall k :: 0 <= k < |tied| ==>
                    TiedAt(rs[..i], minReqs)[k] < i && tied[k] == cs[TiedAt(rs[..i], minReqs)[k]]
      {
        TiedStep(rs, i, minReqs);
        if cs[i].healthy && cs[i].activeReqs == minReqs { tied := tied + [cs[i]]; }
      }
      assert rs[..|cs|] == rs;
    }

    /** The two passes over the candidates; `pick` is the random number. */
    method LeastLoaded(cs: seq<Backend>, pick: nat) returns (r: Selection)
      ensures Agrees(r, cs, TwoPass(ReadingsOf(cs), ReadingsOf(cs), pick))
    {
      ghost var rs := ReadingsOf(cs);
      var best, minReqs := FirstPass(cs);
      if best == null { return ErrBackendUnavailable; }
      var tied := SecondPass(cs, minReqs);
      ghost var w :| 0 <= w < |rs| && rs[w].healthy && rs[w].active == minReqs;
      assert w in TiedAt(rs, minReqs);
      r := Picked(tied[Draw(pick, |tied|)]);
    }

    method SelectBackend(model: string, pick: nat) returns (r: Selection)
      ensures Agrees(r, Lookup(modelIndex, model), Select(ReadingsOf(Lookup(modelIndex, model)), pick))
    {
      var candidates := Lookup(modelIndex, model);
      if |candidates| == 0 { return ErrUnknownModel; }
      if |candidates| == 1 {
        return if candidates[0].healthy then Picked(candidates[0]) else ErrBackendUnavailable;
      }
      r := LeastLoaded(candidates, pick);
    }

    /** What the two passes give is `PoolSpec.TwoPassOutcome`. */
    method SelectAnyBackend(pick: nat) returns (r: Selection)
      ensures backends == [] ==> r == ErrBackendUnavailable
      ensures Agrees(r, backends, TwoPass(ReadingsOf(backends), ReadingsOf(backends), pick))
    {
      if |backends| == 0 { return ErrBackendUnavailable; }
      r := LeastLoaded(backends, pick);
    }
  }

  /** A pool, or nothing if some configuration does not parse. */
  method NewPool(cfgs: seq<Config>) returns (r: Option<Pool>)
    requires DistinctNames(cfgs)
    ensures r.None? <==> exists i :: 0 <= i < |cfgs| && !Parses(cfgs[i])
    ensures r.Some? ==> fresh(r.value) && r.value.Valid() && |r.value.backends| == |cfgs|
    ensures r.Some? ==> fresh(r.value.healthVersion) && r.value.healthVersion.value == 0
    ensures r.Some? ==> forall i :: 0 <= i < |cfgs| ==>
              && fresh(r.value.backends[i]) && fresh(r.value.backends[i].semaphore)
              && IsConfigured(r.value.backends[i], cfgs[i], r.value.healthVersion) && Untried(r.value.backends[i])
    ensures r.Some? ==> forall i :: 0 <= i < |cfgs| ==>
              && Carries(r.value.backends[i], cfgs[i])
              && r.value.backends[i].AsView() == View(true, 0, cfgs[i].models, cfgs[i].ownedBy, cfgs[i].isStatic)
  {
    for i := 0 to |cfgs|
      invariant forall k :: 0 <= k < i ==> Parses(cfgs[k])
    {
      if !Parses(cfgs[i]) { return None; }
    }
    var p := new Pool(cfgs);
    ConfiguredCarries(p.backends, cfgs, p.healthVersion);
    r := Some(p);
  }

  // ------------------------------------------------------------- routing facts

  /** The backends as they are now, but with these model lists. */
  ghost function ViewsWith(bs: seq<Backend>, lists: seq<seq<string>>): (vs: seq<View>)
    requires |bs| == |lists|
    reads bs
    ensures |vs| == |bs| && forall i :: 0 <= i < |vs| ==> vs[i] == bs[i].AsView().(models := lists[i])
  {
    seq(|bs|, i requires 0 <= i < |bs| reads bs => bs[i].AsView().(models := lists[i]))
  }

  lemma {:induction false} WalkReadings(bs: seq<Backend>, lists: seq<seq<string>>, m: string)
    requires |bs| == |lists|
    ensures ReadingsOf(Walk(bs, lists, m)) == Candidates(ViewsWith(bs, lists), m)
  {
    if bs != [] {
      var n := |bs| - 1;
      WalkReadings(bs[..n], lists[..n], m);
      assert ViewsWith(bs, lists)[..n] == ViewsWith(bs[..n], lists[..n]);
      var k := Count(lists[n], m);
      assert ReadingsOf(Times(bs[n], k)) == Times(bs[n].Read(), k);
      assert ReadingsOf(Walk(bs[..n], lists[..n], m) + Times(bs[n], k))
          == ReadingsOf(Walk(bs[..n], lists[..n], m)) + ReadingsOf(Times(bs[n], k));
    }
  }

  ghost predicate HealthyHas(bs: seq<Backend>, lists: seq<seq<string>>, m: string)
    requires |bs| == |lists|
    reads bs
  {
    exists i :: 0 <= i < |bs| && bs[i].healthy && m in lists[i]
  }

  ghost predicate StaticHas(bs: seq<Backend>, m: string)
    reads bs
  {
    exists b :: b in bs && b.settings.isStatic && m in b.settings.models
  }

  /** Routing through an index that was built over `lists`. */
  lemma RoutedThroughIndex(p: Pool, lists: seq<seq<string>>, m: string, pick: nat)
    requires |lists| == |p.backends| && Lookup(p.modelIndex, m) == Walk(p.backends, lists, m)
    requires forall b :: b in p.backends ==> b.activeReqs < MAX_INT32
    ensures Select(ReadingsOf(Lookup(p.modelIndex, m)), pick).Chosen? <==> HealthyHas(p.backends, lists, m)
  {
    var views := ViewsWith(p.backends, lists);
    WalkReadings(p.backends, lists, m);
    RoutedIff(views, m, pick);
    assert forall i :: 0 <= i < |views| ==> views[i].healthy == p.backends[i].healthy && views[i].models == lists[i];
  }

  lemma ListedFromPool(p: Pool, override: string, m: string)
    ensures Listed(ListModels(override, ViewsOf(p.backends)), m)
       <==> HealthyHas(p.backends, ModelsOf(p.backends), m) || StaticHas(p.backends, m)
  {
    var views := ViewsOf(p.backends);
    ListContents(override, views, m);
    assert forall i :: 0 <= i < |views| ==>
      (Eligible(views[i]) <==> p.backends[i].healthy || p.backends[i].settings.isStatic);
    if b :| b in p.backends && b.settings.isStatic && m in b.settings.models {
      var i :| 0 <= i < |p.backends| && p.backends[i] == b;
      assert Eligible(views[i]) && m in views[i].models;
    }
  }

  /** In a pool whose index fits, a model is listed exactly when a request for it would be routed, or
      some static backend serves it. */
  lemma PoolListsWhatItRoutes(p: Pool, override: string, m: string, pick: nat)
    requires p.Indexed()
    requires forall b :: b in p.backends ==> b.activeReqs < MAX_INT32
    ensures Listed(ListModels(override, ViewsOf(p.backends)), m)
       <==> Select(ReadingsOf(Lookup(p.modelIndex, m)), pick).Chosen? || StaticHas(p.backends, m)
  {
    RoutedThroughIndex(p, ModelsOf(p.backends), m, pick);
    ListedFromPool(p, override, m);
  }

  /** Configuration i is the first to name the model that counts: its backend is healthy or static. */
  ghost predicate FirstNaming(bs: seq<Backend>, cfgs: seq<Config>, m: string, i: nat)
    requires |bs| == |cfgs|
    reads bs
  {
    && i < |cfgs| && m in cfgs[i].models && (bs[i].healthy || cfgs[i].isStatic)
    && forall j :: 0 <= j < i ==> m !in cfgs[j].models || !(bs[j].healthy || cfgs[j].isStatic)
  }

  lemma ViewsCarried(p: Pool, cfgs: seq<Config>)
    requires |p.backends| == |cfgs| && forall i :: 0 <= i < |cfgs| ==> Carries(p.backends[i], cfgs[i])
    ensures var views := ViewsOf(p.backends);
            forall i :: 0 <= i < |cfgs| ==>
              && views[i].models == cfgs[i].models && views[i].ownedBy == cfgs[i].ownedBy
              && (Eligible(views[i]) <==> p.backends[i].healthy || cfgs[i].isStatic)
  {
    forall i | 0 <= i < |cfgs| ensures ViewsOf(p.backends)[i] == p.backends[i].AsView() && Carries(p.backends[i], cfgs[i]) {}
  }

  lemma FirstServingNames(p: Pool, cfgs: seq<Config>, m: string)
    requires |p.backends| == |cfgs| && forall i :: 0 <= i < |cfgs| ==> Carries(p.backends[i], cfgs[i])
    requires Served(ViewsOf(p.backends), m)
    ensures FirstNaming(p.backends, cfgs, m, FirstServing(ViewsOf(p.backends), m))
  {
    ViewsCarried(p, cfgs);
  }

  /** The list of a pool that carries these configurations, in their words: a model is listed exactly if
      one of them names it whose backend is healthy or which is static ... */
  lemma ListedAsConfigured(p: Pool, cfgs: seq<Config>, override: string, m: string)
    requires |p.backends| == |cfgs| && forall i :: 0 <= i < |cfgs| ==> Carries(p.backends[i], cfgs[i])
    ensures Listed(ListModels(override, ViewsOf(p.backends)), m)
       <==> exists i :: 0 <= i < |cfgs| && m in cfgs[i].models && (p.backends[i].healthy || cfgs[i].isStatic)
  {
    ListContents(override, ViewsOf(p.backends), m);
    ViewsCarried(p, cfgs);
    assert forall i :: 0 <= i < |cfgs| ==> ViewsOf(p.backends)[i].models == cfgs[i].models;
  }

  /** ... and it is owned by what the first of those says. */
  lemma OwnedAsConfigured(p: Pool, cfgs: seq<Config>, override: string, k: nat) returns (i: nat)
    requires |p.backends| == |cfgs| && forall i :: 0 <= i < |cfgs| ==> Carries(p.backends[i], cfgs[i])
    requires k < |ListModels(override, ViewsOf(p.backends))|
    ensures var e := ListModels(override, ViewsOf(p.backends))[k];
            && FirstNaming(p.backends, cfgs, e.id, i)
            && e.ownedBy == if override != "" then override else if cfgs[i].ownedBy != "" then cfgs[i].ownedBy else "self-hosted"
  {
    var views := ViewsOf(p.backends);
    var e := ListModels(override, views)[k];
    ListedOwner(override, views, k);
    FirstServingNames(p, cfgs, e.id);
    ViewsCarried(p, cfgs);
    i := FirstServing(views, e.id);
  }

  /** A failed reload can leave an index built over other lists than the backends carry now.  Listing
      and routing of a model then agree exactly when a static backend serves it, or healthy backends
      serve it now just if they did when the index was built. */
  lemma StaleIndexAgreesIff(p: Pool, lists: seq<seq<string>>, override: string, m: string, pick: nat)
    requires |lists| == |p.backends| && Lookup(p.modelIndex, m) == Walk(p.backends, lists, m)
    requires forall b :: b in p.backends ==> b.activeReqs < MAX_INT32
    ensures (Listed(ListModels(override, ViewsOf(p.backends)), m)
             <==> Select(ReadingsOf(Lookup(p.modelIndex, m)), pick).Chosen? || StaticHas(p.backends, m))
       <==> StaticHas(p.backends, m)
            || (HealthyHas(p.backends, ModelsOf(p.backends), m) <==> HealthyHas(p.backends, lists, m))
  {
    RoutedThroughIndex(p, lists, m, pick);
    ListedFromPool(p, override, m);
  }

  /** However an index came to be what it is, after any number of failed reloads: it is right exactly if
      every backend serves the models it was built over, equally often. */
  lemma StaleIndexFitsIff(p: Pool, lists: seq<seq<string>>)
    requires p.Shaped() && |lists| == |p.backends| && p.IndexFits(lists)
    ensures p.Indexed()
       <==> forall i :: 0 <= i < |lists| ==> multiset(lists[i]) == multiset(p.backends[i].settings.models)
  {
    WalksAgreeIff(p.backends, lists, ModelsOf(p.backends));
    assert p.Indexed() <==> SameWalks(p.backends, lists, ModelsOf(p.backends));
  }

  /** One backend with the given models. */
  function Alone(models: seq<string>, retry: Retry): Config {
    Config("a", Some("http://a"), models, "", "", 0, 1, false, false, "", 0, retry)
  }

  /** A pool of one backend that serves "m". */
  method AlonePool() returns (p: Pool)
    ensures fresh(p) && fresh(p.healthVersion) && p.Valid() && |p.backends| == 1
    ensures fresh(p.backends[0]) && p.backends[0].name == "a" && Untried(p.backends[0])
    ensures p.backends[0].settings == SettingsOf(Alone(["m"], Off))
    ensures Lookup(p.modelIndex, "m") == [p.backends[0]] && Lookup(p.modelIndex, "n") == []
  {
    p := new Pool([Alone(["m"], Off)]);
    assert IsConfigured(p.backends[0], Alone(["m"], Off), p.healthVersion);
    IndexOfAlone(p, "m", "m");
    IndexOfAlone(p, "m", "n");
  }

  lemma IndexOfAlone(p: Pool, served: string, m: string)
    requires p.Indexed() && |p.backends| == 1 && p.backends[0].settings.models == [served]
    ensures Lookup(p.modelIndex, m) == if m == served then [p.backends[0]] else []
  {
    var lists := ModelsOf(p.backends);
    assert lists == [[served]];
    assert p.backends[..0] == [] && lists[..0] == [] && [served][..0] == [];
    assert Count([served], m) == if m == served then 1 else 0;
    assert Walk(p.backends, lists, m) == Times(p.backends[0], Count([served], m));
  }

  /** Its backend now serves "n", its index still says "m". */
  lemma Misroutes(p: Pool)
    requires |p.backends| == 1 && p.backends[0].settings == SettingsOf(Alone(["n"], Malformed)) && p.backends[0].healthy
    requires Lookup(p.modelIndex, "m") == [p.backends[0]] && Lookup(p.modelIndex, "n") == []
    ensures !p.Indexed()
    ensures Listed(ListModels("", ViewsOf(p.backends)), "n") && !Listed(ListModels("", ViewsOf(p.backends)), "m")
  {
    if p.Indexed() { IndexOfAlone(p, "n", "n"); }
    ListedFromPool(p, "", "n");
    ListedFromPool(p, "", "m");
    assert ModelsOf(p.backends)[0] == ["n"];
  }

  lemma AloneReloaded(was: seq<Settings>)
    requires |was| == 1
    ensures AfterReload([Alone(["n"], Malformed)], ["a"], was) == [SettingsOf(Alone(["n"], Malformed))]
  {
    var bad := [Alone(["n"], Malformed)];
    AfterReloadMeans(bad, ["a"], was);
    assert Overwrites(bad, 0);
    assert IsReloaded(bad, ["a"][0], was[0], AfterReload(bad, ["a"], was)[0]);
  }

  /** A reload of such a pool that fails on `retry_after`. */
  method ReloadAlone(p: Pool)
    requires p.Shaped() && |p.backends| == 1 && p.backends[0].name == "a"
    modifies p, p.healthVersion, p.backends
    ensures p.Shaped() && p.backends == old(p.backends) && p.modelIndex == old(p.modelIndex)
    ensures p.backends[0].settings == SettingsOf(Alone(["n"], Malformed))
    ensures p.backends[0].healthy == old(p.backends[0].healthy) && p.backends[0].activeReqs == old(p.backends[0].activeReqs)
  {
    var cfgs := [Alone(["n"], Malformed)];
    ghost var was := SettingsList(p.backends);
    ghost var b := p.backends[0];
    assert NamesOf(p.backends) == ["a"];
    var err := p.ReloadPool(cfgs);
    assert !Parses(cfgs[0]);
    assert b.Status() == old(b.Status());
    AloneReloaded(was);
    assert SettingsList(p.backends)[0] == b.settings;
  }

  /** A pool is made and reloaded once; the reload fails on `retry_after`, and the pool lists a model it
      does not route and routes one it does not list. */
  method FailedReloadMisroutes() returns (p: Pool)
    ensures fresh(p) && |p.backends| == 1 && p.backends[0].healthy && p.backends[0].activeReqs == 0
    ensures p.Shaped() && !p.Indexed()
    ensures Listed(ListModels("", ViewsOf(p.backends)), "n") && Lookup(p.modelIndex, "n") == []
    ensures !Listed(ListModels("", ViewsOf(p.backends)), "m") && Lookup(p.modelIndex, "m") == [p.backends[0]]
  {
    p := AlonePool();
    ReloadAlone(p);
    Misroutes(p);
  }
}
