/** What the pool's snapshot means: which models are listed, and which backend is selected.

    A `View` is everything the list builder and the selector read from one backend.  The heap
    code (`Backends`, `ModelList`) and the interleaving model (`CacheProtocol`) are both proved
    against the functions of this module. */
module PoolSpec {

  datatype View = View(healthy: bool, active: int, models: seq<string>, ownedBy: string, isStatic: bool)

  /** One entry of the `/v1/models` response. */
  datatype Model = Model(id: string, ownedBy: string)

  // ---------------------------------------------------------------- listing

  predicate Listed(acc: seq<Model>, id: string) {
    exists k :: 0 <= k < |acc| && acc[k].id == id
  }

  function ResolveOwner(override: string, ownedBy: string): string {
    if override != "" then override
    else if ownedBy != "" then ownedBy
    else "self-hosted"
  }

  function Offer(acc: seq<Model>, id: string, owner: string): seq<Model> {
    if Listed(acc, id) then acc else acc + [Model(id, owner)]
  }

  function OfferAll(acc: seq<Model>, ids: seq<string>, owner: string): seq<Model>
    decreases |ids|
  {
    if ids == [] then acc else OfferAll(Offer(acc, ids[0], owner), ids[1..], owner)
  }

  predicate Eligible(v: View) {
    v.healthy || v.isStatic
  }

  function ListFrom(override: string, views: seq<View>, acc: seq<Model>): seq<Model>
    decreases |views|
  {
    if views == [] then acc
    else
      var v := views[0];
      ListFrom(override, views[1..],
               if Eligible(v) then OfferAll(acc, v.models, ResolveOwner(override, v.ownedBy)) else acc)
  }

  /** The list served for a pool whose backends look like `views`. */
  function ListModels(override: string, views: seq<View>): seq<Model> {
    ListFrom(override, views, [])
  }

  // An independent description of the same list.

  /** Every (id, owner) pair an eligible backend puts forward, in order, with repetitions. */
  function Offers(override: string, views: seq<View>): seq<Model> {
    if views == [] then []
    else
      (if Eligible(views[0]) then Owned(views[0].models, ResolveOwner(override, views[0].ownedBy)) else [])
      + Offers(override, views[1..])
  }

  function Owned(ids: seq<string>, owner: string): (r: seq<Model>)
    ensures |r| == |ids| && forall k :: 0 <= k < |ids| ==> r[k] == Model(ids[k], owner)
  {
    seq(|ids|, k requires 0 <= k < |ids| => Model(ids[k], owner))
  }

  predicate FirstWithId(offers: seq<Model>, j: nat)
    requires j < |offers|
  {
    forall i :: 0 <= i < j ==> offers[i].id != offers[j].id
  }

  /** Keep exactly the offers that are the first with their id. */
  function FirstOffers(offers: seq<Model>): seq<Model> {
    if offers == [] then []
    else
      var n := |offers| - 1;
      FirstOffers(offers[..n]) + (if FirstWithId(offers, n) then [offers[n]] else [])
  }

  lemma {:induction false} FirstOffersIds(offers: seq<Model>, id: string)
    ensures Listed(FirstOffers(offers), id) <==> Listed(offers, id)
  {
    if offers != [] {
      var n := |offers| - 1;
      var init := offers[..n];
      FirstOffersIds(init, id);
      var kept := FirstOffers(init);
      assert offers == init + [offers[n]];
      if Listed(kept, id) {
        var k :| 0 <= k < |kept| && kept[k].id == id;
        assert FirstOffers(offers)[k].id == id;
      }
      if offers[n].id == id {
        assert offers[n].id == id;
        if FirstWithId(offers, n) {
          assert FirstOffers(offers)[|kept|].id == id;
        } else {
          var i :| 0 <= i < n && offers[i].id == offers[n].id;
          assert init[i].id == id;
        }
      }
      if Listed(init, id) {
        var k :| 0 <= k < |init| && init[k].id == id;
        assert offers[k].id == id;
      }
      if Listed(offers, id) && offers[n].id != id {
        var k :| 0 <= k < |offers| && offers[k].id == id;
        assert init[k].id == id;
      }
    }
  }

  lemma FirstOffersSnoc(offers: seq<Model>, m: Model)
    ensures FirstOffers(offers + [m]) == Offer(FirstOffers(offers), m.id, m.ownedBy)
  {
    FirstOffersIds(offers, m.id);
    var all := offers + [m];
    assert all[..|offers|] == offers;
    if Listed(offers, m.id) {
      var k :| 0 <= k < |offers| && offers[k].id == m.id;
      assert all[k].id == all[|offers|].id;
      assert !FirstWithId(all, |offers|);
    } else {
      assert FirstWithId(all, |offers|);
    }
  }

  lemma {:induction false} OfferAllIsFirstOffers(before: seq<Model>, ids: seq<string>, owner: string)
    ensures OfferAll(FirstOffers(before), ids, owner)
         == FirstOffers(before + Owned(ids, owner))
    decreases |ids|
  {
    if ids == [] {
      assert before + Owned(ids, owner) == before;
    } else {
      assert before + Owned(ids, owner) == (before + [Model(ids[0], owner)]) + Owned(ids[1..], owner);
      FirstOffersSnoc(before, Model(ids[0], owner));
      OfferAllIsFirstOffers(before + [Model(ids[0], owner)], ids[1..], owner);
    }
  }

  lemma {:induction false} ListFromIsFirstOffers(override: string, views: seq<View>, before: seq<Model>)
    ensures ListFrom(override, views, FirstOffers(before)) == FirstOffers(before + Offers(override, views))
    decreases |views|
  {
    if views == [] {
      assert before + Offers(override, views) == before;
    } else {
      var v := views[0];
      var owner := ResolveOwner(override, v.ownedBy);
      var rest := Offers(override, views[1..]);
      if Eligible(v) {
        assert before + Offers(override, views) == (before + Owned(v.models, owner)) + rest;
        OfferAllIsFirstOffers(before, v.models, owner);
        ListFromIsFirstOffers(override, views[1..], before + Owned(v.models, owner));
      } else {
        assert Offers(override, views) == rest;
        ListFromIsFirstOffers(override, views[1..], before);
      }
    }
  }

  /** The incremental loop keeps, out of everything offered, the first offer of every id, in the
      order of those first offers: each id once, with the owner of its first eligible backend. */
  lemma ListIsFirstOffers(override: string, views: seq<View>)
    ensures ListModels(override, views) == FirstOffers(Offers(override, views))
  {
    ListFromIsFirstOffers(override, views, []);
    assert [] + Offers(override, views) == Offers(override, views);
  }

  predicate DistinctIds(l: seq<Model>) {
    forall i, j :: 0 <= i < j < |l| ==> l[i].id != l[j].id
  }

  lemma {:induction false} FirstOffersDistinct(offers: seq<Model>)
    ensures DistinctIds(FirstOffers(offers))
  {
    if offers != [] {
      var n := |offers| - 1;
      FirstOffersDistinct(offers[..n]);
      var kept := FirstOffers(offers[..n]);
      if FirstWithId(offers, n) {
        forall i | 0 <= i < |kept| ensures kept[i].id != offers[n].id {
          assert Listed(kept, kept[i].id);
          FirstOffersIds(offers[..n], kept[i].id);
          var k :| 0 <= k < n && offers[..n][k].id == kept[i].id;
          assert offers[k].id == kept[i].id;
        }
      }
    }
  }

  /** Some eligible backend serves the model. */
  predicate Served(views: seq<View>, id: string) {
    exists i :: 0 <= i < |views| && Eligible(views[i]) && id in views[i].models
  }

  lemma ListedConcat(a: seq<Model>, b: seq<Model>, id: string)
    ensures Listed(a + b, id) <==> Listed(a, id) || Listed(b, id)
  {
    if k :| 0 <= k < |a| && a[k].id == id { assert (a + b)[k].id == id; }
    if k :| 0 <= k < |b| && b[k].id == id { assert (a + b)[|a| + k].id == id; }
  }

  lemma OwnedIds(ids: seq<string>, owner: string, id: string)
    ensures Listed(Owned(ids, owner), id) <==> id in ids
  {
    if k :| 0 <= k < |ids| && ids[k] == id { assert Owned(ids, owner)[k].id == id; }
  }

  lemma ServedCons(views: seq<View>, id: string)
    requires views != []
    ensures Served(views, id) <==> (Eligible(views[0]) && id in views[0].models) || Served(views[1..], id)
  {
    if i :| 0 <= i < |views[1..]| && Eligible(views[1..][i]) && id in views[1..][i].models {
      assert views[i + 1] == views[1..][i];
    }
    if i :| 1 <= i < |views| && Eligible(views[i]) && id in views[i].models {
      assert views[1..][i - 1] == views[i];
    }
  }

  lemma {:induction false} OffersIds(override: string, views: seq<View>, id: string)
    ensures Listed(Offers(override, views), id) <==> Served(views, id)
  {
    if views != [] {
      OffersIds(override, views[1..], id);
      ServedCons(views, id);
      var owner := ResolveOwner(override, views[0].ownedBy);
      OwnedIds(views[0].models, owner, id);
      ListedConcat(if Eligible(views[0]) then Owned(views[0].models, owner) else [], Offers(override, views[1..]), id);
    }
  }

  /** Each id is listed once, and exactly the ids of eligible backends are listed. */
  lemma ListContents(override: string, views: seq<View>, id: string)
    ensures DistinctIds(ListModels(override, views))
    ensures Listed(ListModels(override, views), id) <==> Served(views, id)
  {
    ListIsFirstOffers(override, views);
    FirstOffersDistinct(Offers(override, views));
    FirstOffersIds(Offers(override, views), id);
    OffersIds(override, views, id);
  }

  /** The first eligible backend that serves the model. */
  function FirstServing(views: seq<View>, id: string): (i: nat)
    requires Served(views, id)
    ensures i < |views| && Eligible(views[i]) && id in views[i].models
    ensures forall j :: 0 <= j < i ==> !(Eligible(views[j]) && id in views[j].models)
  {
    if Eligible(views[0]) && id in views[0].models then 0
    else
      ServedCons(views, id);
      var i := 1 + FirstServing(views[1..], id);
      assert forall j :: 1 <= j < i ==> views[j] == views[1..][j - 1];
      i
  }

  lemma {:induction false} FirstOffersOrigin(offers: seq<Model>, k: nat) returns (j: nat)
    requires k < |FirstOffers(offers)|
    ensures j < |offers| && offers[j] == FirstOffers(offers)[k] && FirstWithId(offers, j)
  {
    var n := |offers| - 1;
    if k < |FirstOffers(offers[..n])| {
      j := FirstOffersOrigin(offers[..n], k);
    } else {
      j := n;
    }
  }

  lemma {:induction false} FirstOfferOwner(override: string, views: seq<View>, j: nat)
    requires j < |Offers(override, views)| && FirstWithId(Offers(override, views), j)
    ensures var o := Offers(override, views)[j];
            Served(views, o.id) && o.ownedBy == ResolveOwner(override, views[FirstServing(views, o.id)].ownedBy)
    decreases |views|
  {
    var v := views[0];
    var own := if Eligible(v) then Owned(v.models, ResolveOwner(override, v.ownedBy)) else [];
    var rest := Offers(override, views[1..]);
    var o := Offers(override, views)[j];
    ServedCons(views, o.id);
    if j >= |own| {
      forall i | 0 <= i < |own| ensures own[i].id != o.id {
        assert Offers(override, views)[i] == own[i];
      }
      OwnedIds(v.models, ResolveOwner(override, v.ownedBy), o.id);
      forall i | 0 <= i < j - |own| ensures rest[i].id != o.id {
        assert Offers(override, views)[|own| + i] == rest[i];
      }
      FirstOfferOwner(override, views[1..], j - |own|);
    }
  }

  /** Every listed model has an owner: the override if there is one, else what its first eligible
      backend says, and "self-hosted" exactly where that backend says nothing. */
  lemma ListedOwner(override: string, views: seq<View>, k: nat)
    requires k < |ListModels(override, views)|
    ensures var e := ListModels(override, views)[k];
            && e.ownedBy != "" && Served(views, e.id)
            && (override != "" ==> e.ownedBy == override)
            && (override == "" ==>
                  var said := views[FirstServing(views, e.id)].ownedBy;
                  if said == "" then e.ownedBy == "self-hosted" else e.ownedBy == said)
  {
    ListIsFirstOffers(override, views);
    var j := FirstOffersOrigin(Offers(override, views), k);
    FirstOfferOwner(override, views, j);
  }

  // -------------------------------------------------------------- selection

  /** What one pass of the selector reads from one candidate. */
  datatype Reading = Reading(healthy: bool, active: int)

  const MAX_INT32: int := 0x7fff_ffff

  datatype Choice = UnknownModel | Unavailable | Panic | Chosen(index: nat)

  /** The first pass: the least active count seen on a healthy candidate, starting from the
      largest 32-bit value, and whether any candidate was strictly below it. */
  function LeastActive(rs: seq<Reading>): (least: int)
    ensures least <= MAX_INT32
    ensures forall i :: 0 <= i < |rs| && rs[i].healthy ==> least <= rs[i].active
    ensures least < MAX_INT32 ==> exists i :: 0 <= i < |rs| && rs[i].healthy && rs[i].active == least
  {
    if rs == [] then MAX_INT32
    else
      var n := |rs| - 1;
      var m := LeastActive(rs[..n]);
      if rs[n].healthy && rs[n].active < m then rs[n].active else m
  }

  /** The second pass: positions of the healthy candidates whose count equals `least`. */
  function TiedAt(rs: seq<Reading>, least: int): (tied: seq<nat>)
    ensures forall i :: i in tied <==> 0 <= i < |rs| && rs[i].healthy && rs[i].active == least
  {
    if rs == [] then []
    else
      var n := |rs| - 1;
      var t := TiedAt(rs[..n], least);
      if rs[n].healthy && rs[n].active == least then t + [n] else t
  }

  lemma LeastStep(rs: seq<Reading>, i: nat)
    requires i < |rs|
    ensures LeastActive(rs[..i + 1])
         == if rs[i].healthy && rs[i].active < LeastActive(rs[..i]) then rs[i].active else LeastActive(rs[..i])
  {
    assert rs[..i + 1][..i] == rs[..i];
  }

  lemma TiedStep(rs: seq<Reading>, i: nat, least: int)
    requires i < |rs|
    ensures TiedAt(rs[..i + 1], least)
         == TiedAt(rs[..i], least) + (if rs[i].healthy && rs[i].active == least then [i] else [])
  {
    assert rs[..i + 1][..i] == rs[..i];
  }

  /** The random draw below n, as a function of the random number behind it. */
  function Draw(pick: nat, n: nat): (i: nat)
    requires n > 0
    ensures i < n
    ensures pick < n ==> i == pick
  {
    if pick < n then pick else Draw(pick - n, n)
  }

  /** The two passes as the code runs them, each with its own readings.  `pick` is the random
      number; an empty `tied` makes the random draw panic. */
  function TwoPass(first: seq<Reading>, second: seq<Reading>, pick: nat): Choice
    requires |first| == |second|
  {
    var least := LeastActive(first);
    if least == MAX_INT32 then Unavailable
    else
      var tied := TiedAt(second, least);
      if tied == [] then Panic else Chosen(tied[Draw(pick, |tied|)])
  }

  /** The whole of the selector on the candidates of one model, on a stable snapshot. */
  function Select(rs: seq<Reading>, pick: nat): Choice {
    if rs == [] then UnknownModel
    else if |rs| == 1 then (if rs[0].healthy then Chosen(0) else Unavailable)
    else TwoPass(rs, rs, pick)
  }

  predicate Below(rs: seq<Reading>) {
    forall i :: 0 <= i < |rs| ==> rs[i].active < MAX_INT32
  }

  predicate SomeHealthy(rs: seq<Reading>) {
    exists i :: 0 <= i < |rs| && rs[i].healthy
  }

  predicate IsLeastLoaded(rs: seq<Reading>, i: nat) {
    && i < |rs| && rs[i].healthy
    && forall j :: 0 <= j < |rs| && rs[j].healthy ==> rs[i].active <= rs[j].active
  }

  lemma LeastIsReached(rs: seq<Reading>)
    requires Below(rs) && SomeHealthy(rs)
    ensures LeastActive(rs) < MAX_INT32
    ensures TiedAt(rs, LeastActive(rs)) != []
  {
    var h :| 0 <= h < |rs| && rs[h].healthy;
    assert LeastActive(rs) <= rs[h].active;
    var w :| 0 <= w < |rs| && rs[w].healthy && rs[w].active == LeastActive(rs);
    assert w in TiedAt(rs, LeastActive(rs));
  }

  /** What one draw of the two passes gives on a stable snapshot, without the short cut. */
  lemma TwoPassOutcome(rs: seq<Reading>, pick: nat)
    requires Below(rs)
    ensures TwoPass(rs, rs, pick) == Unavailable <==> !SomeHealthy(rs)
    ensures TwoPass(rs, rs, pick).Chosen? <==> SomeHealthy(rs)
    ensures TwoPass(rs, rs, pick).Chosen? ==> IsLeastLoaded(rs, TwoPass(rs, rs, pick).index)
  {
    if SomeHealthy(rs) {
      LeastIsReached(rs);
      var tied := TiedAt(rs, LeastActive(rs));
      assert tied[Draw(pick, |tied|)] in tied;
    }
  }

  lemma SomeDrawPicks(rs: seq<Reading>, i: nat) returns (pick: nat)
    requires Below(rs) && IsLeastLoaded(rs, i)
    ensures TwoPass(rs, rs, pick) == Chosen(i)
  {
    LeastIsReached(rs);
    assert LeastActive(rs) == rs[i].active;
    var tied := TiedAt(rs, LeastActive(rs));
    pick :| 0 <= pick < |tied| && tied[pick] == i;
  }

  /** So the possible results of the two passes are exactly the healthy candidates of least count. */
  lemma TwoPassCorrect(rs: seq<Reading>)
    requires Below(rs)
    ensures forall pick: nat :: TwoPass(rs, rs, pick) != Panic && TwoPass(rs, rs, pick) != UnknownModel
    ensures forall pick: nat :: TwoPass(rs, rs, pick) == Unavailable <==> !SomeHealthy(rs)
    ensures forall i: nat :: IsLeastLoaded(rs, i) <==> exists pick: nat :: TwoPass(rs, rs, pick) == Chosen(i)
  {
    forall pick: nat
      ensures TwoPass(rs, rs, pick) == Unavailable <==> !SomeHealthy(rs)
      ensures TwoPass(rs, rs, pick).Chosen? <==> SomeHealthy(rs)
      ensures TwoPass(rs, rs, pick).Chosen? ==> IsLeastLoaded(rs, TwoPass(rs, rs, pick).index)
    {
      TwoPassOutcome(rs, pick);
    }
    forall i: nat | IsLeastLoaded(rs, i) ensures exists pick: nat :: TwoPass(rs, rs, pick) == Chosen(i) {
      var pick := SomeDrawPicks(rs, i);
    }
  }

  /** What any one random draw can give. */
  lemma SelectOutcome(rs: seq<Reading>, pick: nat)
    requires Below(rs)
    ensures Select(rs, pick) != Panic
    ensures Select(rs, pick) == UnknownModel <==> rs == []
    ensures Select(rs, pick) == Unavailable <==> rs != [] && !SomeHealthy(rs)
    ensures Select(rs, pick).Chosen? ==> IsLeastLoaded(rs, Select(rs, pick).index)
  {
    if |rs| > 1 { TwoPassOutcome(rs, pick); }
  }

  lemma SomeDrawSelects(rs: seq<Reading>, i: nat) returns (pick: nat)
    requires Below(rs) && IsLeastLoaded(rs, i)
    ensures Select(rs, pick) == Chosen(i)
  {
    pick := SomeDrawPicks(rs, i);
  }

  /** On a snapshot the outcomes are exactly: unknown for no candidate, unavailable for no healthy
      one, otherwise every healthy candidate of least count and no other; never a panic. */
  lemma SelectionCorrect(rs: seq<Reading>)
    requires Below(rs)
    ensures forall pick: nat :: Select(rs, pick) != Panic
    ensures forall pick: nat :: Select(rs, pick) == UnknownModel <==> rs == []
    ensures forall pick: nat :: Select(rs, pick) == Unavailable <==> rs != [] && !SomeHealthy(rs)
    ensures forall i: nat :: IsLeastLoaded(rs, i) <==> exists pick: nat :: Select(rs, pick) == Chosen(i)
  {
    forall pick: nat
      ensures Select(rs, pick) != Panic
      ensures Select(rs, pick) == UnknownModel <==> rs == []
      ensures Select(rs, pick) == Unavailable <==> rs != [] && !SomeHealthy(rs)
      ensures Select(rs, pick).Chosen? ==> IsLeastLoaded(rs, Select(rs, pick).index)
    {
      SelectOutcome(rs, pick);
    }
    forall i: nat | IsLeastLoaded(rs, i) ensures exists pick: nat :: Select(rs, pick) == Chosen(i) {
      var pick := SomeDrawSelects(rs, i);
    }
  }

  /** The single-candidate short cut gives the general answer unless that candidate is healthy and
      already at the largest 32-bit count, where the general code would report it unavailable. */
  lemma FastPathAgrees(r: Reading, pick: nat)
    requires r.active <= MAX_INT32
    ensures Select([r], pick) == TwoPass([r], [r], pick) <==> !(r.healthy && r.active == MAX_INT32)
  {
    var rs := [r];
    assert rs[..0] == [];
    assert LeastActive(rs) == if r.healthy && r.active < MAX_INT32 then r.active else MAX_INT32;
    var tied := TiedAt(rs, LeastActive(rs));
    if r.healthy && r.active < MAX_INT32 {
      assert 0 in tied;
      assert tied[Draw(pick, |tied|)] in tied;
    }
  }

  /** When the counters move between the passes, the draw panics exactly when no candidate shows,
      in the second pass, a healthy flag and the least count of the first pass. */
  lemma PanicExactly(first: seq<Reading>, second: seq<Reading>, pick: nat)
    requires |first| == |second|
    ensures TwoPass(first, second, pick) == Panic
       <==> (exists i :: 0 <= i < |first| && first[i].healthy && first[i].active < MAX_INT32)
            && !exists j :: 0 <= j < |second| && second[j].healthy && second[j].active == LeastActive(first)
  {
    var tied := TiedAt(second, LeastActive(first));
    if tied != [] { assert tied[0] in tied; }
    if j :| 0 <= j < |second| && second[j].healthy && second[j].active == LeastActive(first) { assert j in tied; }
  }

  /** The candidates tied for the least count in a pass. */
  function Ties(rs: seq<Reading>): set<nat> {
    set i: nat | i < |rs| && rs[i].healthy && rs[i].active == LeastActive(rs)
  }

  /** The candidates that look different in the second pass. */
  function Changed(first: seq<Reading>, second: seq<Reading>): set<nat>
    requires |first| == |second|
  {
    set i: nat | i < |first| && first[i] != second[i]
  }

  /** A panic needs every tied candidate to have moved between its two reads, and there is one. */
  lemma PanicNeedsAllTies(first: seq<Reading>, second: seq<Reading>, pick: nat)
    requires |first| == |second| && TwoPass(first, second, pick) == Panic
    ensures Ties(first) != {} && Ties(first) <= Changed(first, second)
  {
    var w :| 0 <= w < |first| && first[w].healthy && first[w].active == LeastActive(first);
    assert w in Ties(first);
    forall i | i in Ties(first) ensures first[i] != second[i] {
      assert i !in TiedAt(second, LeastActive(first));
    }
  }

  /** Fewer movements between the passes than candidates tied in the first never panic. */
  lemma FewChangesNeverPanic(first: seq<Reading>, second: seq<Reading>, pick: nat)
    requires |first| == |second| && |Changed(first, second)| < |Ties(first)|
    ensures TwoPass(first, second, pick) != Panic
  {
    if TwoPass(first, second, pick) == Panic {
      PanicNeedsAllTies(first, second, pick);
      SubsetSize(Ties(first), Changed(first, second));
      assert false;
    }
  }

  lemma {:induction false} SubsetSize(a: set<nat>, b: set<nat>)
    requires a <= b
    ensures |a| <= |b|
  {
    if x :| x in a { SubsetSize(a - {x}, b - {x}); }
  }

  /** What the second pass reads when every tied candidate has meanwhile acquired one request. */
  function AfterAcquires(rs: seq<Reading>): (after: seq<Reading>)
    ensures |after| == |rs|
    ensures forall i: nat :: i < |rs| ==>
              after[i] == if i in Ties(rs) then rs[i].(active := rs[i].active + 1) else rs[i]
  {
    seq(|rs|, i requires 0 <= i < |rs| => if i in Ties(rs) then rs[i].(active := rs[i].active + 1) else rs[i])
  }

  /** The bound is reached from every snapshot that has a healthy candidate: one acquisition on each
      tied candidate, and nothing else, between the passes panics whatever the draw. */
  lemma OneAcquireEachPanics(rs: seq<Reading>, pick: nat)
    requires Below(rs) && SomeHealthy(rs)
    ensures Changed(rs, AfterAcquires(rs)) == Ties(rs)
    ensures TwoPass(rs, AfterAcquires(rs), pick) == Panic
  {
    LeastIsReached(rs);
    PanicExactly(rs, AfterAcquires(rs), pick);
    var w :| 0 <= w < |rs| && rs[w].healthy && rs[w].active == LeastActive(rs);
  }

  /** Two idle candidates, each given a request by somebody else between the passes. */
  lemma SelectionCanPanic(pick: nat)
    ensures TwoPass([Reading(true, 0), Reading(true, 0)], [Reading(true, 1), Reading(true, 1)], pick) == Panic
  {
    var rs := [Reading(true, 0), Reading(true, 0)];
    assert rs[0].healthy;
    LeastIsReached(rs);
    assert LeastActive(rs) == 0 by {
      var w :| 0 <= w < |rs| && rs[w].healthy && rs[w].active == LeastActive(rs);
      assert rs[w].active == 0;
    }
    assert Ties(rs) == {0, 1};
    assert AfterAcquires(rs) == [Reading(true, 1), Reading(true, 1)];
    OneAcquireEachPanics(rs, pick);
  }

  // ------------------------------------------------- listing versus routing

  /** The candidates of a model: each backend once per occurrence of the model in its list. */
  function Candidates(views: seq<View>, m: string): seq<Reading> {
    if views == [] then []
    else
      var n := |views| - 1;
      Candidates(views[..n], m) + Times(Reading(views[n].healthy, views[n].active), Count(views[n].models, m))
  }

  function Times<T>(x: T, n: nat): (r: seq<T>)
    ensures |r| == n && forall i :: 0 <= i < n ==> r[i] == x
  {
    seq(n, _ => x)
  }

  function Count(ms: seq<string>, m: string): (c: nat)
    ensures c > 0 <==> m in ms
  {
    if ms == [] then 0
    else
      var n := |ms| - 1;
      assert ms == ms[..n] + [ms[n]];
      Count(ms[..n], m) + (if ms[n] == m then 1 else 0)
  }

  predicate IsCandidate(views: seq<View>, m: string, c: Reading) {
    exists i :: 0 <= i < |views| && m in views[i].models && c == Reading(views[i].healthy, views[i].active)
  }

  lemma IsCandidateSnoc(views: seq<View>, m: string, c: Reading)
    requires views != []
    ensures var n := |views| - 1;
            IsCandidate(views, m, c)
            <==> IsCandidate(views[..n], m, c) || (m in views[n].models && c == Reading(views[n].healthy, views[n].active))
  {
    var init := views[..|views| - 1];
    if i :| 0 <= i < |init| && m in init[i].models && c == Reading(init[i].healthy, init[i].active) {
      assert views[i] == init[i];
    }
    if i :| 0 <= i < |init| && m in views[i].models && c == Reading(views[i].healthy, views[i].active) {
      assert init[i] == views[i];
    }
  }

  lemma {:induction false} CandidatesContents(views: seq<View>, m: string, c: Reading)
    ensures c in Candidates(views, m) <==> IsCandidate(views, m, c)
  {
    if views != [] {
      var n := |views| - 1;
      CandidatesContents(views[..n], m, c);
      IsCandidateSnoc(views, m, c);
      var own := Times(Reading(views[n].healthy, views[n].active), Count(views[n].models, m));
      assert c in own <==> |own| > 0 && c == Reading(views[n].healthy, views[n].active) by {
        if |own| > 0 { assert own[0] in own; }
      }
    }
  }

  /** A request for the model is routed exactly when some healthy backend has it. */
  lemma RoutedIff(views: seq<View>, m: string, pick: nat)
    requires forall i :: 0 <= i < |views| ==> views[i].active < MAX_INT32
    ensures Select(Candidates(views, m), pick).Chosen?
       <==> exists i :: 0 <= i < |views| && views[i].healthy && m in views[i].models
  {
    var rs := Candidates(views, m);
    forall i | 0 <= i < |rs| ensures rs[i].active < MAX_INT32 {
      assert rs[i] in rs;
      CandidatesContents(views, m, rs[i]);
    }
    SelectOutcome(rs, pick);
    if SomeHealthy(rs) {
      var k :| 0 <= k < |rs| && rs[k].healthy;
      assert rs[k] in rs;
      CandidatesContents(views, m, rs[k]);
    }
    if i :| 0 <= i < |views| && views[i].healthy && m in views[i].models {
      CandidatesContents(views, m, Reading(views[i].healthy, views[i].active));
      assert SomeHealthy(rs);
    }
  }

  /** A model is listed exactly when a request for it would be routed, or a static backend keeps
      it listed while down. */
  lemma ListedIffRouted(override: string, views: seq<View>, m: string, pick: nat)
    requires forall i :: 0 <= i < |views| ==> views[i].active < MAX_INT32
    ensures Listed(ListModels(override, views), m)
       <==> Select(Candidates(views, m), pick).Chosen?
            || exists i :: 0 <= i < |views| && views[i].isStatic && m in views[i].models
  {
    ListContents(override, views, m);
    RoutedIff(views, m, pick);
    assert forall i :: 0 <= i < |views| ==> (Eligible(views[i]) <==> views[i].healthy || views[i].isStatic);
  }

  // ------------------------------------------------------ greedy load bound

  /** The readings of `loads` on healthy candidates. */
  function AllHealthy(loads: seq<nat>): (rs: seq<Reading>)
    ensures |rs| == |loads| && forall i :: 0 <= i < |rs| ==> rs[i] == Reading(true, loads[i])
  {
    seq(|loads|, i requires 0 <= i < |loads| => Reading(true, loads[i]))
  }

  /** `picks` is the run's random numbers: each request is selected and then acquires a slot. */
  function Serve(loads: seq<nat>, picks: seq<nat>): (after: seq<nat>)
    decreases |picks|
  {
    if picks == [] then loads
    else
      match Select(AllHealthy(loads), picks[0])
      case Chosen(i) => if i < |loads| then Serve(loads[i := loads[i] + 1], picks[1..]) else loads
      case _ => loads
  }

  function Max(s: seq<nat>): (m: nat)
    requires s != []
    ensures m in s && forall x :: x in s ==> x <= m
  {
    var n := |s| - 1;
    assert s == s[..n] + [s[n]];
    if n == 0 then s[0] else if Max(s[..n]) > s[n] then Max(s[..n]) else s[n]
  }

  function Min(s: seq<nat>): (m: nat)
    requires s != []
    ensures m in s && forall x :: x in s ==> m <= x
  {
    var n := |s| - 1;
    assert s == s[..n] + [s[n]];
    if n == 0 then s[0] else if Min(s[..n]) < s[n] then Min(s[..n]) else s[n]
  }

  function Sum(s: seq<nat>): nat {
    if s == [] then 0 else Sum(s[..|s| - 1]) + s[|s| - 1]
  }

  /** m is at most the fair share: total / n, rounded up. */
  predicate WithinShare(m: int, total: nat, n: nat) {
    Shares(n, m - 1) < total
  }

  /** n shares of m. */
  function Shares(n: nat, m: int): int {
    if n == 0 then 0 else Shares(n - 1, m) + m
  }

  lemma {:induction false} SharesIsProduct(n: nat, m: int)
    ensures Shares(n, m) == n * m
  {
    if n > 0 { SharesIsProduct(n - 1, m); }
  }

  lemma {:induction false} SharesMonotone(n: nat, a: int, b: int)
    requires a <= b
    ensures Shares(n, a) <= Shares(n, b)
  {
    if n > 0 { SharesMonotone(n - 1, a, b); }
  }

  function Larger(a: int, b: int): int { if a < b then b else a }

  lemma {:induction false} SumUpdate(s: seq<nat>, i: nat)
    requires i < |s|
    ensures Sum(s[i := s[i] + 1]) == Sum(s) + 1
  {
    var n := |s| - 1;
    var u := s[i := s[i] + 1];
    if i == n {
      assert u[..n] == s[..n];
    } else {
      assert u[..n] == s[..n][i := s[..n][i] + 1];
      SumUpdate(s[..n], i);
    }
  }

  lemma {:induction false} SumAtLeast(s: seq<nat>, m: nat)
    requires forall x :: x in s ==> m <= x
    ensures Shares(|s|, m) <= Sum(s)
  {
    if s != [] {
      var n := |s| - 1;
      forall x | x in s[..n] ensures m <= x { assert x in s; }
      SumAtLeast(s[..n], m);
      assert s[n] in s;
    }
  }

  lemma ShareIsCeiling(m: int, total: nat, n: nat)
    requires n > 0
    ensures WithinShare(m, total, n) <==> m <= (total + n - 1) / n
  {
    SharesIsProduct(n, m - 1);
    var q := (total + n - 1) / n;
    assert n * q <= total + n - 1 < n * q + n;
    if m <= q {
      assert n * (m - 1) <= n * (q - 1) by { MulMonotone(n, m - 1, q - 1); }
    } else {
      assert n * q <= n * (m - 1) by { MulMonotone(n, q, m - 1); }
    }
  }

  lemma MulMonotone(n: nat, a: int, b: int)
    requires a <= b
    ensures n * a <= n * b
  {
    assert n * (b - a) >= 0;
  }

  /** One selection and acquisition: a least loaded candidate gains one. */
  lemma OneServed(loads: seq<nat>, pick: nat) returns (i: nat)
    requires loads != [] && Max(loads) < MAX_INT32
    ensures Select(AllHealthy(loads), pick) == Chosen(i)
    ensures i < |loads| && loads[i] == Min(loads)
  {
    var rs := AllHealthy(loads);
    forall k | 0 <= k < |rs| ensures rs[k].active < MAX_INT32 { assert loads[k] in loads; }
    SelectOutcome(rs, pick);
    assert rs[0].healthy;
    i := Select(rs, pick).index;
    assert IsLeastLoaded(rs, i);
    assert loads[i] in loads;
    var w :| 0 <= w < |loads| && loads[w] == Min(loads);
    assert rs[i].active <= rs[w].active;
  }

  /** What a stretch of the run that turned `loads` into `u` may have done. */
  predicate Balanced(loads: seq<nat>, u: seq<nat>)
    requires loads != []
  {
    && |u| == |loads|
    && Sum(loads) <= Sum(u)
    && (Max(u) <= Max(loads) || WithinShare(Max(u), Sum(u), |loads|))
    && Max(u) - Min(u) <= Larger(Max(loads) - Min(loads), 1)
  }

  lemma OneServedBounds(loads: seq<nat>, i: nat)
    requires i < |loads| && loads[i] == Min(loads)
    ensures var u := loads[i := loads[i] + 1];
            && Sum(u) == Sum(loads) + 1
            && Balanced(loads, u)
            && Max(u) <= Max(loads) + 1
  {
    var u := loads[i := loads[i] + 1];
    SumUpdate(loads, i);
    SumAtLeast(loads, Min(loads));
    forall x | x in u ensures Min(loads) <= x <= Larger(Max(loads), Min(loads) + 1) {
      var k :| 0 <= k < |u| && u[k] == x;
      assert loads[k] in loads;
    }
    assert Max(u) in u && Min(u) in u && Min(loads) in loads;
  }

  lemma BalancedTransitive(a: seq<nat>, b: seq<nat>, c: seq<nat>)
    requires a != [] && Balanced(a, b) && Balanced(b, c)
    ensures Balanced(a, c)
  {
    if Max(c) <= Max(b) && WithinShare(Max(b), Sum(b), |b|) {
      WithinShareMonotone(Max(c), Sum(c), Max(b), Sum(b), |a|);
    }
  }

  lemma WithinShareMonotone(m: int, total: nat, m': int, total': nat, n: nat)
    requires m <= m' && total' <= total && WithinShare(m', total', n)
    ensures WithinShare(m, total, n)
  {
    SharesMonotone(n, m - 1, m' - 1);
  }

  lemma ServeUnfold(loads: seq<nat>, picks: seq<nat>, i: nat)
    requires picks != [] && i < |loads| && Select(AllHealthy(loads), picks[0]) == Chosen(i)
    ensures Serve(loads, picks) == Serve(loads[i := loads[i] + 1], picks[1..])
  {
  }

  lemma ServeOne(loads: seq<nat>, picks: seq<nat>) returns (u: seq<nat>)
    requires loads != [] && picks != [] && Max(loads) < MAX_INT32
    ensures Serve(loads, picks) == Serve(u, picks[1..])
    ensures Sum(u) == Sum(loads) + 1 && Balanced(loads, u) && u != [] && Max(u) <= Max(loads) + 1
  {
    var i := OneServed(loads, picks[0]);
    u := loads[i := loads[i] + 1];
    OneServedBounds(loads, i);
    ServeUnfold(loads, picks, i);
  }

  /** Least-connections keeps the pool balanced over any run of requests that nothing releases:
      no backend exceeds the starting peak or the fair share of the total, rounded up, and the
      imbalance never grows past the larger of the starting one and 1. */
  lemma {:induction false} GreedyBound(loads: seq<nat>, picks: seq<nat>)
    requires loads != []
    requires Max(loads) + |picks| < MAX_INT32
    ensures Balanced(loads, Serve(loads, picks))
    ensures Sum(Serve(loads, picks)) == Sum(loads) + |picks|
    decreases |picks|
  {
    if picks != [] {
      var u := ServeOne(loads, picks);
      GreedyBound(u, picks[1..]);
      BalancedTransitive(loads, u, Serve(u, picks[1..]));
    }
  }
}
