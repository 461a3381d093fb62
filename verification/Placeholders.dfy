/** Error templates: placeholders replaced one key after another, in the map's unspecified order. */
module Placeholders {

  // ------------------------------------------------------------------ the code

  /** Every non-overlapping occurrence of `pat`, from the left, replaced by `v`. */
  function ReplaceAll(s: string, pat: string, v: string): string
    requires pat != ""
    decreases |s|
  {
    if |s| < |pat| then s
    else if s[..|pat|] == pat then v + ReplaceAll(s[|pat|..], pat, v)
    else [s[0]] + ReplaceAll(s[1..], pat, v)
  }

  function Braced(name: string): string {
    "{" + name + "}"
  }

  /** The message after replacing the keys in this order. */
  function RenderIn(msg: string, order: seq<string>, m: map<string, string>): string
    requires forall k :: k in order ==> k in m
  {
    if order == [] then msg
    else
      var n := |order| - 1;
      ReplaceAll(RenderIn(msg, order[..n], m), Braced(order[n]), m[order[n]])
  }

  // --------------------------------------------------------------- the meaning

  datatype Segment = Literal(text: string) | Hole(name: string)

  predicate BraceFree(s: string) {
    '{' !in s && '}' !in s
  }

  /** Literals open no brace, names have none. */
  predicate WellFormed(segs: seq<Segment>) {
    forall i :: 0 <= i < |segs| ==>
      match segs[i] case Literal(text) => '{' !in text case Hole(name) => BraceFree(name)
  }

  function Source(segs: seq<Segment>): string {
    if segs == [] then ""
    else (if segs[0].Hole? then Braced(segs[0].name) else segs[0].text) + Source(segs[1..])
  }

  /** The holes named in `known` filled, all at once. */
  function Fill(segs: seq<Segment>, m: map<string, string>, known: set<string>): (r: seq<Segment>)
    requires known <= m.Keys
    ensures |r| == |segs|
    ensures forall i :: 0 <= i < |r| ==>
              r[i] == if segs[i].Hole? && segs[i].name in known then Literal(m[segs[i].name]) else segs[i]
  {
    seq(|segs|, i requires 0 <= i < |segs| =>
          if segs[i].Hole? && segs[i].name in known then Literal(m[segs[i].name]) else segs[i])
  }

  /** The message with every known placeholder replaced simultaneously, unknown ones left alone. */
  function Simultaneous(segs: seq<Segment>, m: map<string, string>): string {
    Source(Fill(segs, m, m.Keys))
  }

  // ---------------------------------------------------------------- confluence

  /** Text without an opening brace is passed over. */
  lemma {:induction false} PassOver(t: string, rest: string, name: string, v: string)
    requires '{' !in t
    ensures ReplaceAll(t + rest, Braced(name), v) == t + ReplaceAll(rest, Braced(name), v)
    decreases |t|
  {
    if t == "" {
      assert t + rest == rest;
    } else {
      var s := t + rest;
      assert s[1..] == t[1..] + rest;
      assert s[0] == t[0] && t[0] in t;
      PassOver(t[1..], rest, name, v);
      if |s| < |Braced(name)| {
        assert ReplaceAll(rest, Braced(name), v) == rest;
      } else {
        assert s[..|Braced(name)|][0] != Braced(name)[0];
        assert ReplaceAll(s, Braced(name), v) == [s[0]] + (t[1..] + ReplaceAll(rest, Braced(name), v));
        assert t == [t[0]] + t[1..];
      }
    }
  }

  lemma ReplaceHere(rest: string, name: string, v: string)
    ensures ReplaceAll(Braced(name) + rest, Braced(name), v) == v + ReplaceAll(rest, Braced(name), v)
  {
    var s := Braced(name) + rest;
    assert s[..|Braced(name)|] == Braced(name);
    assert s[|Braced(name)|..] == rest;
  }

  lemma OtherNameDiffers(other: string, rest: string, name: string)
    requires other != name && BraceFree(other) && BraceFree(name)
    requires |Braced(name)| <= |Braced(other) + rest|
    ensures (Braced(other) + rest)[..|Braced(name)|] != Braced(name)
  {
    var s := Braced(other) + rest;
    var p := s[..|Braced(name)|];
    if |other| < |name| {
      assert p[|other| + 1] == '}' && Braced(name)[|other| + 1] == name[|other|] && name[|other|] in name;
    } else if |name| < |other| {
      assert p[|name| + 1] == other[|name|] && other[|name|] in other && Braced(name)[|name| + 1] == '}';
    } else {
      var i := DifferAt(other, name);
      assert p[i + 1] == other[i] && Braced(name)[i + 1] == name[i];
    }
  }

  lemma DifferAt(a: string, b: string) returns (i: nat)
    requires |a| == |b| && a != b
    ensures i < |a| && a[i] != b[i]
  {
    i :| 0 <= i < |a| && a[i] != b[i];
  }

  lemma ReplaceElsewhere(other: string, rest: string, name: string, v: string)
    requires other != name && BraceFree(other) && BraceFree(name)
    ensures ReplaceAll(Braced(other) + rest, Braced(name), v) == Braced(other) + ReplaceAll(rest, Braced(name), v)
  {
    var s := Braced(other) + rest;
    if |s| < |Braced(name)| {
      assert ReplaceAll(rest, Braced(name), v) == rest;
    } else {
      OtherNameDiffers(other, rest, name);
      var tail := other + "}";
      assert s[1..] == tail + rest;
      PassOver(tail, rest, name, v);
      assert Braced(other) == "{" + tail;
      assert ReplaceAll(s, Braced(name), v) == [s[0]] + (tail + ReplaceAll(rest, Braced(name), v));
    }
  }

  /** One replacement fills exactly the holes of that name, whatever the value is. */
  lemma {:induction false} ReplaceFills(segs: seq<Segment>, name: string, v: string)
    requires WellFormed(segs) && BraceFree(name)
    ensures ReplaceAll(Source(segs), Braced(name), v) == Source(Fill(segs, map[name := v], {name}))
    decreases |segs|
  {
    var filled := Fill(segs, map[name := v], {name});
    if segs == [] {
      assert filled == [];
    } else {
      assert filled[1..] == Fill(segs[1..], map[name := v], {name});
      ReplaceFills(segs[1..], name, v);
      var rest := Source(segs[1..]);
      match segs[0]
      case Literal(t) => PassOver(t, rest, name, v);
      case Hole(n) => if n == name { ReplaceHere(rest, name, v); } else { ReplaceElsewhere(n, rest, name, v); }
    }
  }

  /** The keys of the map, each once. */
  ghost predicate IsOrder(order: seq<string>, m: map<string, string>) {
    && (forall k :: k in order <==> k in m)
    && Distinct(order)
  }

  predicate Distinct(order: seq<string>) {
    forall i, j :: 0 <= i < j < |order| ==> order[i] != order[j]
  }

  /** No other key's replacement touches the value of a. */
  ghost predicate Stable(m: map<string, string>, a: string)
    requires a in m
  {
    forall b :: b in m && b != a ==> ReplaceAll(m[a], Braced(b), m[b]) == m[a]
  }

  lemma SourceOne(seg: Segment)
    ensures Source([seg]) == if seg.Hole? then Braced(seg.name) else seg.text
  {
    assert [seg][1..] == [];
    assert Source([]) == "";
  }

  predicate IsBrace(c: char) {
    c == '{' || c == '}'
  }

  /** Every opening brace is followed by another brace: no placeholder is left unfinished at the end. */
  predicate Closed(v: string) {
    forall i :: 0 <= i < |v| && v[i] == '{' ==> exists j :: i < j < |v| && IsBrace(v[j])
  }

  predicate StartsWith(s: string, p: string) {
    |p| <= |s| && s[..|p|] == p
  }

  lemma BracedInside(name: string)
    requires BraceFree(name)
    ensures forall k :: 0 < k < |Braced(name)| - 1 ==> !IsBrace(Braced(name)[k])
  {
    forall k | 0 < k < |Braced(name)| - 1 ensures !IsBrace(Braced(name)[k]) {
      assert Braced(name)[k] == name[k - 1] && name[k - 1] in name;
    }
  }

  /** No placeholder begins in such a text and ends behind it. */
  lemma ClosedEnds(v: string, rest: string, name: string)
    requires v != "" && Closed(v) && BraceFree(name)
    ensures StartsWith(v + rest, Braced(name)) <==> StartsWith(v, Braced(name))
  {
    var p := Braced(name);
    if StartsWith(v + rest, p) {
      forall k | 0 <= k < |p| && k < |v| ensures v[k] == p[k] {
        assert (v + rest)[..|p|][k] == (v + rest)[k];
      }
      BracedInside(name);
      var j :| 0 < j < |v| && IsBrace(v[j]);
      assert v[..|p|] == p;
    }
    if StartsWith(v, p) { assert (v + rest)[..|p|] == v[..|p|]; }
  }

  lemma ClosedSuffix(v: string, k: nat)
    requires Closed(v) && k <= |v|
    ensures Closed(v[k..])
  {
    var u := v[k..];
    forall i | 0 <= i < |u| && u[i] == '{' ensures exists j :: i < j < |u| && IsBrace(u[j]) {
      var j :| k + i < j < |v| && IsBrace(v[j]);
      assert IsBrace(u[j - k]);
    }
  }

  /** What is left of the text once its first placeholder of that name, or its first character if it
      begins otherwise, has been dealt with. */
  function RestOf(s: string, p: string): string
    requires s != "" && p != ""
  {
    if StartsWith(s, p) then s[|p|..] else s[1..]
  }

  function FirstOf(s: string, p: string, w: string): string
    requires s != ""
  {
    if StartsWith(s, p) then w else [s[0]]
  }

  lemma ReplaceFirst(s: string, p: string, w: string)
    requires s != "" && p != ""
    ensures ReplaceAll(s, p, w) == FirstOf(s, p, w) + ReplaceAll(RestOf(s, p), p, w)
  {
    if |s| < |p| { assert s == [s[0]] + s[1..]; }
  }

  lemma FirstOfJoined(v: string, rest: string, name: string, w: string)
    requires v != "" && Closed(v) && BraceFree(name)
    ensures FirstOf(v + rest, Braced(name), w) == FirstOf(v, Braced(name), w)
    ensures RestOf(v + rest, Braced(name)) == RestOf(v, Braced(name)) + rest
    ensures Closed(RestOf(v, Braced(name))) && |RestOf(v, Braced(name))| < |v|
  {
    ClosedEnds(v, rest, name);
    ClosedSuffix(v, if StartsWith(v, Braced(name)) then |Braced(name)| else 1);
  }

  /** Replacement works separately on a text that leaves no placeholder unfinished and on what follows. */
  lemma {:induction false} ReplaceSplits(v: string, rest: string, name: string, w: string)
    requires Closed(v) && BraceFree(name)
    ensures ReplaceAll(v + rest, Braced(name), w)
         == ReplaceAll(v, Braced(name), w) + ReplaceAll(rest, Braced(name), w)
    decreases |v|
  {
    var p := Braced(name);
    if v == "" {
      assert v + rest == rest;
    } else {
      FirstOfJoined(v, rest, name, w);
      ReplaceFirst(v + rest, p, w);
      ReplaceFirst(v, p, w);
      ReplaceSplits(RestOf(v, p), rest, name, w);
    }
  }

  /** Every known placeholder of the message has a value the other keys leave alone. */
  ghost predicate StableIn(segs: seq<Segment>, m: map<string, string>) {
    forall i :: 0 <= i < |segs| && segs[i].Hole? && segs[i].name in m ==> Stable(m, segs[i].name)
  }

  /** Those values leave no placeholder unfinished. */
  predicate ClosedIn(segs: seq<Segment>, m: map<string, string>) {
    forall i :: 0 <= i < |segs| && segs[i].Hole? && segs[i].name in m ==> Closed(m[segs[i].name])
  }

  /** One more replacement, when some holes are filled already. */
  lemma {:induction false} ReplaceFillsMore(segs: seq<Segment>, m: map<string, string>, done: set<string>, k: string)
    requires WellFormed(segs) && StableIn(segs, m) && ClosedIn(segs, m)
    requires done <= m.Keys && k in m && k !in done && BraceFree(k)
    ensures ReplaceAll(Source(Fill(segs, m, done)), Braced(k), m[k]) == Source(Fill(segs, m, done + {k}))
    decreases |segs|
  {
    if segs != [] {
      assert Fill(segs, m, done)[1..] == Fill(segs[1..], m, done);
      assert Fill(segs, m, done + {k})[1..] == Fill(segs[1..], m, done + {k});
      ReplaceFillsMore(segs[1..], m, done, k);
      var rest := Source(Fill(segs[1..], m, done));
      match segs[0]
      case Literal(t) => PassOver(t, rest, k, m[k]);
      case Hole(n) =>
        if n in done {
          assert Stable(m, n) && Closed(m[n]);
          ReplaceSplits(m[n], rest, k, m[k]);
        } else if n == k {
          ReplaceHere(rest, k, m[k]);
        } else {
          ReplaceElsewhere(n, rest, k, m[k]);
        }
    }
  }

  function KeysOf(order: seq<string>): (s: set<string>)
    ensures forall k :: k in s <==> k in order
  {
    set k | k in order
  }

  lemma {:induction false} RenderFills(segs: seq<Segment>, order: seq<string>, m: map<string, string>)
    requires WellFormed(segs) && StableIn(segs, m) && ClosedIn(segs, m) && Distinct(order)
    requires forall k :: k in order ==> k in m && BraceFree(k)
    ensures KeysOf(order) <= m.Keys
    ensures RenderIn(Source(segs), order, m) == Source(Fill(segs, m, KeysOf(order)))
  {
    if order == [] {
      assert Fill(segs, m, {}) == segs;
      assert KeysOf(order) == {};
    } else {
      var n := |order| - 1;
      assert order == order[..n] + [order[n]] && order[n] in order;
      RenderFills(segs, order[..n], m);
      assert KeysOf(order) == KeysOf(order[..n]) + {order[n]};
      ReplaceFillsMore(segs, m, KeysOf(order[..n]), order[n]);
    }
  }

  /** Values may hold braces: as long as no other key's replacement touches the value of a placeholder
      of the message, and none of these values leaves a placeholder unfinished, every order gives the
      simultaneous substitution. */
  lemma StableOrderIrrelevant(segs: seq<Segment>, order: seq<string>, m: map<string, string>)
    requires WellFormed(segs) && StableIn(segs, m) && ClosedIn(segs, m) && IsOrder(order, m)
    requires forall k :: k in m ==> BraceFree(k)
    ensures RenderIn(Source(segs), order, m) == Simultaneous(segs, m)
  {
    RenderFills(segs, order, m);
    assert KeysOf(order) == m.Keys;
  }

  /** Keys without braces, values that open none. */
  predicate Tame(m: map<string, string>) {
    forall k :: k in m ==> BraceFree(k) && '{' !in m[k]
  }

  /** Values that open no brace are never touched. */
  lemma TameIsStable(m: map<string, string>)
    requires Tame(m)
    ensures forall a :: a in m ==> Stable(m, a) && Closed(m[a])
  {
    forall a, b | a in m && b in m ensures ReplaceAll(m[a], Braced(b), m[b]) == m[a] {
      PassOver(m[a], "", b, m[b]);
      assert m[a] + "" == m[a];
    }
  }

  /** Every order of replacement gives the simultaneous substitution. */
  lemma OrderIrrelevant(segs: seq<Segment>, order: seq<string>, m: map<string, string>)
    requires WellFormed(segs) && Tame(m) && IsOrder(order, m)
    ensures RenderIn(Source(segs), order, m) == Simultaneous(segs, m)
  {
    TameIsStable(m);
    StableOrderIrrelevant(segs, order, m);
  }

  // ----------------------------------------------- values that open braces

  lemma {:induction false} Untouched(a: string, order: seq<string>, m: map<string, string>)
    requires a !in order && BraceFree(a)
    requires forall k :: k in order ==> k in m && BraceFree(k)
    ensures RenderIn(Braced(a), order, m) == Braced(a)
  {
    if order != [] {
      var n := |order| - 1;
      assert order == order[..n] + [order[n]] && order[n] in order;
      Untouched(a, order[..n], m);
      ReplaceElsewhere(a, "", order[n], m[order[n]]);
      assert Braced(a) + "" == Braced(a);
    }
  }

  lemma RenderSnoc(msg: string, order: seq<string>, k: string, m: map<string, string>)
    requires forall x :: x in order ==> x in m
    requires k in m
    ensures RenderIn(msg, order + [k], m) == ReplaceAll(RenderIn(msg, order, m), Braced(k), m[k])
  {
    assert (order + [k])[..|order|] == order;
  }

  /** A message that is one placeholder, once its key has been reached and nothing since. */
  lemma JustReplaced(a: string, order: seq<string>, m: map<string, string>)
    requires a !in order && a in m && BraceFree(a)
    requires forall k :: k in order ==> k in m && BraceFree(k)
    ensures RenderIn(Braced(a), order + [a], m) == m[a]
  {
    Untouched(a, order, m);
    RenderSnoc(Braced(a), order, a, m);
    ReplaceHere("", a, m[a]);
    assert Braced(a) + "" == Braced(a) && m[a] + "" == m[a];
  }

  lemma {:induction false} StableStays(a: string, order: seq<string>, m: map<string, string>)
    requires a in order && Distinct(order) && a in m && Stable(m, a)
    requires forall k :: k in order ==> k in m && BraceFree(k)
    ensures RenderIn(Braced(a), order, m) == m[a]
  {
    var n := |order| - 1;
    var init := order[..n];
    assert order == init + [order[n]] && order[n] in order;
    if order[n] == a {
      JustReplaced(a, init, m);
    } else {
      StableStays(a, init, m);
    }
  }

  lemma {:induction false} Enumerate(s: set<string>) returns (order: seq<string>)
    ensures Distinct(order) && forall k :: k in order <==> k in s
    decreases |s|
  {
    order := [];
    if x :| x in s {
      order := Enumerate(s - {x});
      order := order + [x];
    }
  }

  ghost predicate OrdersAgree(msg: string, m: map<string, string>) {
    forall p, q :: IsOrder(p, m) && IsOrder(q, m) ==> RenderIn(msg, p, m) == RenderIn(msg, q, m)
  }

  lemma StableOrdersAgree(a: string, m: map<string, string>)
    requires a in m && Stable(m, a) && forall k :: k in m ==> BraceFree(k)
    ensures OrdersAgree(Braced(a), m)
  {
    forall p | IsOrder(p, m) ensures RenderIn(Braced(a), p, m) == m[a] {
      StableStays(a, p, m);
    }
  }

  lemma OrderEnding(others: seq<string>, x: string, y: string, m: map<string, string>)
    requires Distinct(others) && x in m && y in m && x != y
    requires forall k :: k in others <==> k in m && k != x && k != y
    ensures IsOrder(others + [x] + [y], m)
  {
    var order := others + [x] + [y];
    forall k ensures k in order <==> k in m {
      assert k in order <==> k in others || k == x || k == y;
    }
  }

  /** The other keys first, then a and b in the two orders. */
  lemma TwoEndings(a: string, b: string, m: map<string, string>) returns (p: seq<string>, q: seq<string>)
    requires a in m && b in m && a != b && forall k :: k in m ==> BraceFree(k)
    ensures IsOrder(p, m) && IsOrder(q, m)
    ensures RenderIn(Braced(a), p, m) == m[a]
    ensures RenderIn(Braced(a), q, m) == ReplaceAll(m[a], Braced(b), m[b])
  {
    var others := Enumerate(m.Keys - {a, b});
    p, q := others + [b] + [a], others + [a] + [b];
    OrderEnding(others, b, a, m);
    OrderEnding(others, a, b, m);
    assert forall k :: k in others + [b] <==> k in others || k == b;
    JustReplaced(a, others + [b], m);
    JustReplaced(a, others, m);
    RenderSnoc(Braced(a), others + [a], b, m);
  }

  /** For any map and any values, a message that is one known placeholder comes out the same in all
      orders exactly when no other key's replacement, made alone, touches its value. */
  lemma OrdersAgreeIff(a: string, m: map<string, string>)
    requires a in m && forall k :: k in m ==> BraceFree(k)
    ensures OrdersAgree(Braced(a), m) <==> Stable(m, a)
  {
    if Stable(m, a) {
      StableOrdersAgree(a, m);
    } else {
      var b :| b in m && b != a && ReplaceAll(m[a], Braced(b), m[b]) != m[a];
      var p, q := TwoEndings(a, b, m);
    }
  }

  // Templates in which one known name occurs, any number of times, among text and unknown names.

  /** The template with w in every place named a. */
  function Weave(segs: seq<Segment>, a: string, w: string): string {
    if segs == [] then ""
    else (if segs[0] == Hole(a) then w else Source([segs[0]])) + Weave(segs[1..], a, w)
  }

  lemma {:induction false} WeaveGrows(segs: seq<Segment>, a: string, v: string, w: string)
    requires |v| < |w|
    ensures |Weave(segs, a, v)| <= |Weave(segs, a, w)|
    ensures Hole(a) in segs ==> |Weave(segs, a, v)| < |Weave(segs, a, w)|
  {
    if segs != [] { WeaveGrows(segs[1..], a, v, w); }
  }

  lemma {:induction false} WeaveSameLength(segs: seq<Segment>, a: string, v: string, w: string)
    requires |v| == |w| && Weave(segs, a, v) == Weave(segs, a, w) && Hole(a) in segs
    ensures v == w
  {
    var x, y := Weave(segs[1..], a, v), Weave(segs[1..], a, w);
    if segs[0] == Hole(a) {
      assert v == (v + x)[..|v|] && w == (w + y)[..|w|];
    } else {
      var t := Source([segs[0]]);
      assert x == (t + x)[|t|..] && y == (t + y)[|t|..];
      WeaveSameLength(segs[1..], a, v, w);
    }
  }

  lemma WeaveInjective(segs: seq<Segment>, a: string, v: string, w: string)
    requires Weave(segs, a, v) == Weave(segs, a, w) && Hole(a) in segs
    ensures v == w
  {
    if |v| < |w| {
      WeaveGrows(segs, a, v, w);
    } else if |w| < |v| {
      WeaveGrows(segs, a, w, v);
    } else {
      WeaveSameLength(segs, a, v, w);
    }
  }

  lemma {:induction false} FillIsWeave(segs: seq<Segment>, a: string, v: string)
    ensures Source(Fill(segs, map[a := v], {a})) == Weave(segs, a, v)
  {
    if segs != [] {
      FillIsWeave(segs[1..], a, v);
      assert Fill(segs, map[a := v], {a})[1..] == Fill(segs[1..], map[a := v], {a});
      SourceOne(segs[0]);
    }
  }

  /** Another key's replacement reaches the filled places and nothing else. */
  lemma {:induction false} ReplaceWoven(segs: seq<Segment>, a: string, v: string, b: string, w: string)
    requires WellFormed(segs) && Closed(v) && BraceFree(b) && Hole(b) !in segs
    ensures ReplaceAll(Weave(segs, a, v), Braced(b), w) == Weave(segs, a, ReplaceAll(v, Braced(b), w))
    decreases |segs|
  {
    if segs != [] {
      ReplaceWoven(segs[1..], a, v, b, w);
      var rest := Weave(segs[1..], a, v);
      SourceOne(segs[0]);
      if segs[0] == Hole(a) {
        ReplaceSplits(v, rest, b, w);
      } else if segs[0].Hole? {
        ReplaceElsewhere(segs[0].name, rest, b, w);
      } else {
        PassOver(segs[0].text, rest, b, w);
      }
    }
  }

  lemma ReplaceMisses(segs: seq<Segment>, b: string, v: string)
    requires WellFormed(segs) && BraceFree(b) && Hole(b) !in segs
    ensures ReplaceAll(Source(segs), Braced(b), v) == Source(segs)
  {
    ReplaceFills(segs, b, v);
    assert Fill(segs, map[b := v], {b}) == segs;
  }

  lemma {:induction false} RenderMisses(segs: seq<Segment>, order: seq<string>, m: map<string, string>)
    requires WellFormed(segs)
    requires forall k :: k in order ==> k in m && BraceFree(k) && Hole(k) !in segs
    ensures RenderIn(Source(segs), order, m) == Source(segs)
  {
    if order != [] {
      var n := |order| - 1;
      assert order == order[..n] + [order[n]] && order[n] in order;
      RenderMisses(segs, order[..n], m);
      ReplaceMisses(segs, order[n], m[order[n]]);
    }
  }

  /** The only known name of the template is a, and it occurs. */
  ghost predicate OnlyKnown(segs: seq<Segment>, a: string, m: map<string, string>) {
    a in m && Hole(a) in segs && forall k :: k in m && k != a ==> Hole(k) !in segs
  }

  lemma TwoEndingsWoven(segs: seq<Segment>, a: string, b: string, m: map<string, string>)
      returns (p: seq<string>, q: seq<string>)
    requires WellFormed(segs) && OnlyKnown(segs, a, m) && Closed(m[a]) && b in m && a != b
    requires forall k :: k in m ==> BraceFree(k)
    ensures IsOrder(p, m) && IsOrder(q, m)
    ensures RenderIn(Source(segs), p, m) == Weave(segs, a, m[a])
    ensures RenderIn(Source(segs), q, m) == Weave(segs, a, ReplaceAll(m[a], Braced(b), m[b]))
  {
    var others := Enumerate(m.Keys - {a, b});
    p, q := others + [b] + [a], others + [a] + [b];
    OrderEnding(others, b, a, m);
    OrderEnding(others, a, b, m);
    assert forall k :: k in others + [b] <==> k in others || k == b;
    RenderMisses(segs, others + [b], m);
    RenderMisses(segs, others, m);
    RenderSnoc(Source(segs), others + [b], a, m);
    RenderSnoc(Source(segs), others, a, m);
    RenderSnoc(Source(segs), others + [a], b, m);
    ReplaceFills(segs, a, m[a]);
    FillIsWeave(segs, a, m[a]);
    ReplaceWoven(segs, a, m[a], b, m[b]);
  }

  lemma StableTemplateAgrees(segs: seq<Segment>, m: map<string, string>)
    requires WellFormed(segs) && StableIn(segs, m) && ClosedIn(segs, m) && forall k :: k in m ==> BraceFree(k)
    ensures OrdersAgree(Source(segs), m)
  {
    forall p | IsOrder(p, m) ensures RenderIn(Source(segs), p, m) == Simultaneous(segs, m) {
      StableOrderIrrelevant(segs, p, m);
    }
  }

  /** The same for every template with one known name, however often it occurs, if its value leaves no
      placeholder unfinished; the other values may be anything. */
  lemma OneNameOrdersAgreeIff(segs: seq<Segment>, a: string, m: map<string, string>)
    requires WellFormed(segs) && OnlyKnown(segs, a, m) && Closed(m[a]) && forall k :: k in m ==> BraceFree(k)
    ensures OrdersAgree(Source(segs), m) <==> Stable(m, a)
  {
    if Stable(m, a) {
      forall i | 0 <= i < |segs| && segs[i].Hole? && segs[i].name in m ensures segs[i].name == a {
        assert segs[i] == Hole(segs[i].name) && Hole(segs[i].name) in segs;
      }
      StableTemplateAgrees(segs, m);
    } else {
      var b :| b in m && b != a && ReplaceAll(m[a], Braced(b), m[b]) != m[a];
      var p, q := TwoEndingsWoven(segs, a, b, m);
      if RenderIn(Source(segs), p, m) == RenderIn(Source(segs), q, m) {
        WeaveInjective(segs, a, m[a], ReplaceAll(m[a], Braced(b), m[b]));
      }
    }
  }

  lemma RenderTwo(msg: string, a: string, b: string, m: map<string, string>)
    requires a in m && b in m
    ensures RenderIn(msg, [a, b], m) == ReplaceAll(ReplaceAll(msg, Braced(a), m[a]), Braced(b), m[b])
  {
    RenderSnoc(msg, [], a, m);
    RenderSnoc(msg, [a], b, m);
    assert [] + [a] == [a] && [a] + [b] == [a, b];
  }

  /** An unfinished placeholder can be finished by the template: no replacement alone touches the value,
      and still the order matters. */
  lemma UnfinishedCanMatter()
    ensures var m := map["a" := "{", "x" := "y"];
            && Stable(m, "a")
            && RenderIn(Source([Hole("a"), Literal("x}")]), ["a", "x"], m) == "y"
            && RenderIn(Source([Hole("a"), Literal("x}")]), ["x", "a"], m) == "{x}"
  {
    var m := map["a" := "{", "x" := "y"];
    var msg := Source([Hole("a"), Literal("x}")]);
    assert [Hole("a"), Literal("x}")][1..] == [Literal("x}")];
    SourceOne(Literal("x}"));
    assert msg == Braced("a") + "x}";
    RenderTwo(msg, "a", "x", m);
    RenderTwo(msg, "x", "a", m);
    UnfinishedSteps();
  }

  lemma UnfinishedSteps()
    ensures ReplaceAll(Braced("a") + "x}", Braced("a"), "{") == Braced("x")
    ensures ReplaceAll(Braced("x"), Braced("x"), "y") == "y"
    ensures ReplaceAll(Braced("a") + "x}", Braced("x"), "y") == Braced("a") + "x}"
  {
    PassOver("x}", "", "a", "{");
    PassOver("x}", "", "x", "y");
    assert "x}" + "" == "x}";
    ReplaceHere("x}", "a", "{");
    ReplaceElsewhere("a", "x}", "x", "y");
    ReplaceHere("", "x", "y");
    assert Braced("x") + "" == Braced("x") && "y" + "" == "y";
  }

  // Templates with any number of known names: replacement on segments, one key after another.

  /** Every value is a text of the same kind as a message: `vals` are its segments. */
  ghost predicate Parsed(m: map<string, string>, vals: map<string, seq<Segment>>) {
    && vals.Keys == m.Keys
    && forall k :: k in m ==> BraceFree(k) && WellFormed(vals[k]) && Source(vals[k]) == m[k]
  }

  /** The holes named in `done` replaced by the segments of their values. */
  function Expand(segs: seq<Segment>, vals: map<string, seq<Segment>>, done: set<string>): seq<Segment>
    requires done <= vals.Keys
  {
    if segs == [] then []
    else (if segs[0].Hole? && segs[0].name in done then vals[segs[0].name] else [segs[0]]) + Expand(segs[1..], vals, done)
  }

  lemma {:induction false} SourceConcat(a: seq<Segment>, b: seq<Segment>)
    ensures Source(a + b) == Source(a) + Source(b)
    decreases |a|
  {
    if a == [] {
      assert a + b == b;
    } else {
      assert (a + b)[1..] == a[1..] + b;
      SourceConcat(a[1..], b);
    }
  }

  lemma {:induction false} ExpandWellFormed(segs: seq<Segment>, m: map<string, string>, vals: map<string, seq<Segment>>, done: set<string>)
    requires WellFormed(segs) && Parsed(m, vals) && done <= m.Keys
    ensures WellFormed(Expand(segs, vals, done))
  {
    if segs != [] { ExpandWellFormed(segs[1..], m, vals, done); }
  }

  lemma ClosedConcat(a: string, b: string)
    requires Closed(a) && Closed(b)
    ensures Closed(a + b)
  {
    forall i | 0 <= i < |a + b| && (a + b)[i] == '{' ensures exists j :: i < j < |a + b| && IsBrace((a + b)[j]) {
      if i < |a| {
        var j :| i < j < |a| && IsBrace(a[j]);
        assert IsBrace((a + b)[j]);
      } else {
        var j :| i - |a| < j < |b| && IsBrace(b[j]);
        assert IsBrace((a + b)[|a| + j]);
      }
    }
  }

  lemma BracedClosed(name: string)
    ensures Closed(Braced(name))
  {
    assert IsBrace(Braced(name)[|name| + 1]);
  }

  /** Texts of this kind leave no placeholder unfinished. */
  lemma {:induction false} SourceClosed(segs: seq<Segment>)
    requires WellFormed(segs)
    ensures Closed(Source(segs))
  {
    if segs != [] {
      SourceClosed(segs[1..]);
      if segs[0].Hole? { BracedClosed(segs[0].name); }
      ClosedConcat(if segs[0].Hole? then Braced(segs[0].name) else segs[0].text, Source(segs[1..]));
    }
  }

  /** Putting the segments of a's value in place, seen as text. */
  lemma {:induction false} ExpandIsWeave(segs: seq<Segment>, vals: map<string, seq<Segment>>, a: string)
    requires a in vals
    ensures Source(Expand(segs, vals, {a})) == Weave(segs, a, Source(vals[a]))
  {
    if segs != [] {
      ExpandIsWeave(segs[1..], vals, a);
      SourceConcat(if segs[0] == Hole(a) then vals[a] else [segs[0]], Expand(segs[1..], vals, {a}));
    }
  }

  function ExpandIn(segs: seq<Segment>, order: seq<string>, vals: map<string, seq<Segment>>): seq<Segment>
    requires forall k :: k in order ==> k in vals
  {
    if order == [] then segs
    else
      var n := |order| - 1;
      Expand(ExpandIn(segs, order[..n], vals), vals, {order[n]})
  }

  /** One replacement on the text is one expansion of the segments, whatever the values hold. */
  lemma ReplaceExpandsOne(segs: seq<Segment>, m: map<string, string>, vals: map<string, seq<Segment>>, k: string)
    requires WellFormed(segs) && Parsed(m, vals) && k in m
    ensures ReplaceAll(Source(segs), Braced(k), m[k]) == Source(Expand(segs, vals, {k}))
  {
    ReplaceFills(segs, k, m[k]);
    FillIsWeave(segs, k, m[k]);
    ExpandIsWeave(segs, vals, k);
  }

  lemma {:induction false} RenderIsExpandIn(segs: seq<Segment>, order: seq<string>, m: map<string, string>, vals: map<string, seq<Segment>>)
    requires WellFormed(segs) && Parsed(m, vals)
    requires forall k :: k in order ==> k in m
    ensures WellFormed(ExpandIn(segs, order, vals))
    ensures RenderIn(Source(segs), order, m) == Source(ExpandIn(segs, order, vals))
  {
    if order != [] {
      var n := |order| - 1;
      assert order == order[..n] + [order[n]] && order[n] in order;
      RenderIsExpandIn(segs, order[..n], m, vals);
      ReplaceExpandsOne(ExpandIn(segs, order[..n], vals), m, vals, order[n]);
      ExpandWellFormed(ExpandIn(segs, order[..n], vals), m, vals, {order[n]});
    }
  }

  /** Which placeholders are left after one key. */
  lemma {:induction false} HolesAfter(segs: seq<Segment>, vals: map<string, seq<Segment>>, k: string, n: string)
    requires k in vals
    ensures Hole(n) in Expand(segs, vals, {k})
       <==> (n != k && Hole(n) in segs) || (Hole(k) in segs && Hole(n) in vals[k])
  {
    if segs != [] {
      HolesAfter(segs[1..], vals, k, n);
      assert segs == [segs[0]] + segs[1..];
    }
  }

  /** A placeholder stays until its own key is reached. */
  lemma {:induction false} HoleStays(segs: seq<Segment>, order: seq<string>, vals: map<string, seq<Segment>>, a: string)
    requires Hole(a) in segs && a !in order && forall k :: k in order ==> k in vals
    ensures Hole(a) in ExpandIn(segs, order, vals)
  {
    if order != [] {
      var n := |order| - 1;
      assert order == order[..n] + [order[n]] && order[n] in order;
      HoleStays(segs, order[..n], vals, a);
      HolesAfter(ExpandIn(segs, order[..n], vals), vals, order[n], a);
    }
  }

  lemma {:induction false} WeaveBack(segs: seq<Segment>, b: string)
    ensures Weave(segs, b, Braced(b)) == Source(segs)
  {
    if segs != [] {
      WeaveBack(segs[1..], b);
      SourceOne(segs[0]);
    }
  }

  /** A placeholder shows in the text: replacing it by anything else changes the text, and only then. */
  lemma HoleShows(segs: seq<Segment>, b: string, v: string)
    requires WellFormed(segs) && BraceFree(b) && v != Braced(b)
    ensures ReplaceAll(Source(segs), Braced(b), v) != Source(segs) <==> Hole(b) in segs
  {
    if Hole(b) in segs {
      ReplaceFills(segs, b, v);
      FillIsWeave(segs, b, v);
      WeaveBack(segs, b);
      if Weave(segs, b, v) == Weave(segs, b, Braced(b)) { WeaveInjective(segs, b, v, Braced(b)); }
    } else {
      ReplaceMisses(segs, b, v);
    }
  }

  /** The text determines which placeholders it has. */
  lemma SameTextSameHoles(p: seq<Segment>, q: seq<Segment>, b: string)
    requires WellFormed(p) && WellFormed(q) && BraceFree(b) && Source(p) == Source(q)
    ensures Hole(b) in p <==> Hole(b) in q
  {
    HoleShows(p, b, "");
    HoleShows(q, b, "");
  }

  /** The message after `order` and then k: a {b} is left if k brings one in, and none if k is b. */
  lemma HoleAtEnd(segs: seq<Segment>, order: seq<string>, k: string, b: string, m: map<string, string>, vals: map<string, seq<Segment>>)
      returns (left: seq<Segment>)
    requires WellFormed(segs) && Parsed(m, vals) && k in m && forall x :: x in order ==> x in m
    requires Hole(b) in vals[k] <==> k != b
    requires k != b ==> Hole(k) in segs && k !in order
    ensures forall x :: x in order + [k] ==> x in m
    ensures WellFormed(left) && RenderIn(Source(segs), order + [k], m) == Source(left)
    ensures Hole(b) in left <==> k != b
  {
    var before := ExpandIn(segs, order, vals);
    left := Expand(before, vals, {k});
    RenderIsExpandIn(segs, order, m, vals);
    RenderSnoc(Source(segs), order, k, m);
    ReplaceExpandsOne(before, m, vals, k);
    ExpandWellFormed(before, m, vals, {k});
    HolesAfter(before, vals, k, b);
    if k != b { HoleStays(segs, order, vals, k); }
  }

  lemma EndingsAreOrders(a: string, b: string, m: map<string, string>) returns (p: seq<string>, q: seq<string>)
    requires a in m && b in m && a != b
    ensures IsOrder(p + [a], m) && IsOrder(q + [b], m)
    ensures a !in p && (forall k :: k in p ==> k in m) && (forall k :: k in q ==> k in m)
  {
    var others := Enumerate(m.Keys - {a, b});
    p, q := others + [b], others + [a];
    OrderEnding(others, b, a, m);
    OrderEnding(others, a, b, m);
  }

  lemma Disagree(msg: string, m: map<string, string>, p: seq<string>, q: seq<string>)
    requires IsOrder(p, m) && IsOrder(q, m) && RenderIn(msg, p, m) != RenderIn(msg, q, m)
    ensures !OrdersAgree(msg, m)
  {
  }

  /** Where a's value holds {b} and b's does not, the order of a and b decides whether a {b} is left. */
  lemma TwoEndingsDiffer(segs: seq<Segment>, a: string, b: string, m: map<string, string>, vals: map<string, seq<Segment>>)
    requires WellFormed(segs) && Parsed(m, vals) && a in m && b in m && a != b
    requires Hole(a) in segs && Hole(b) in vals[a] && Hole(b) !in vals[b]
    ensures !OrdersAgree(Source(segs), m)
  {
    var p, q := EndingsAreOrders(a, b, m);
    var some := HoleAtEnd(segs, p, a, b, m, vals);
    var none := HoleAtEnd(segs, q, b, b, m, vals);
    if Source(some) == Source(none) { SameTextSameHoles(some, none, b); }
    Disagree(Source(segs), m, p + [a], q + [b]);
  }

  /** No key whose placeholder another value of the template holds has it in its own value too. */
  ghost predicate NoneRenewed(segs: seq<Segment>, m: map<string, string>, vals: map<string, seq<Segment>>)
    requires Parsed(m, vals)
  {
    forall a, b :: a in m && b in m && a != b && Hole(a) in segs && Hole(b) in vals[a] ==> Hole(b) !in vals[b]
  }

  /** With any number of known names, all orders agree exactly when no other key's replacement, made
      alone, touches the value of a placeholder of the template. */
  lemma TemplateOrdersAgreeIff(segs: seq<Segment>, m: map<string, string>, vals: map<string, seq<Segment>>)
    requires WellFormed(segs) && Parsed(m, vals) && NoneRenewed(segs, m, vals)
    ensures OrdersAgree(Source(segs), m) <==> StableIn(segs, m)
  {
    if StableIn(segs, m) {
      forall k | k in m ensures Closed(m[k]) { SourceClosed(vals[k]); }
      StableTemplateAgrees(segs, m);
    } else {
      var i :| 0 <= i < |segs| && segs[i].Hole? && segs[i].name in m && !Stable(m, segs[i].name);
      var a := segs[i].name;
      assert segs[i] == Hole(a) && Hole(a) in segs;
      var b :| b in m && b != a && ReplaceAll(m[a], Braced(b), m[b]) != m[a];
      if Hole(b) !in vals[a] { ReplaceMisses(vals[a], b, m[b]); }
      TwoEndingsDiffer(segs, a, b, m, vals);
    }
  }

  /** Two names a and b of which each value holds both: {a}{b} with a = {a}{b}{a} and b = {b}{a}{b}. */
  function RenewedValues(): map<string, seq<Segment>> {
    map["a" := [Hole("a"), Hole("b"), Hole("a")], "b" := [Hole("b"), Hole("a"), Hole("b")]]
  }

  lemma {:induction false} ExpandConcat(a: seq<Segment>, b: seq<Segment>, vals: map<string, seq<Segment>>, done: set<string>)
    requires done <= vals.Keys
    ensures Expand(a + b, vals, done) == Expand(a, vals, done) + Expand(b, vals, done)
  {
    if a == [] {
      assert a + b == b;
    } else {
      assert (a + b)[1..] == a[1..] + b;
      ExpandConcat(a[1..], b, vals, done);
    }
  }

  /** Either key doubles either pattern. */
  lemma RenewedDouble(k: string)
    requires k in RenewedValues()
    ensures var ab := [Hole("a"), Hole("b")];
            && Expand(ab, RenewedValues(), {k}) == ab + ab
            && Expand(ab + ab, RenewedValues(), {k}) == ab + ab + (ab + ab)
  {
    var x, y, vals := Hole("a"), Hole("b"), RenewedValues();
    assert [x, y][1..] == [y] && [y][1..] == [] && Expand([], vals, {k}) == [];
    assert Expand([y], vals, {k}) == (if k == "b" then [y, x, y] else [y]) + [];
    assert Expand([x, y], vals, {k}) == (if k == "a" then [x, y, x] else [x]) + Expand([y], vals, {k});
    ExpandConcat([x, y], [x, y], vals, {k});
  }

  lemma RenewedExpanded(k: string, l: string)
    requires k in RenewedValues() && l in RenewedValues()
    ensures var ab := [Hole("a"), Hole("b")];
            ExpandIn(ab, [k, l], RenewedValues()) == ab + ab + (ab + ab)
  {
    assert [k, l][..1] == [k] && [k][..0] == [];
    RenewedDouble(k);
    RenewedDouble(l);
    var ab, vals := [Hole("a"), Hole("b")], RenewedValues();
    assert ExpandIn(ab, [], vals) == ab;
    assert ExpandIn(ab, [k], vals) == Expand(ab, vals, {k});
    assert ExpandIn(ab, [k, l], vals) == Expand(ab + ab, vals, {l});
  }

  lemma {:induction false} DistinctSize(p: seq<string>)
    requires Distinct(p)
    ensures |KeysOf(p)| == |p|
  {
    if p != [] {
      var n := |p| - 1;
      DistinctSize(p[..n]);
      assert p[n] !in p[..n];
      assert KeysOf(p) == KeysOf(p[..n]) + {p[n]};
    }
  }

  lemma OnlyTwoOrders(p: seq<string>, m: map<string, string>, a: string, b: string)
    requires IsOrder(p, m) && m.Keys == {a, b} && a != b
    ensures p == [a, b] || p == [b, a]
  {
    DistinctSize(p);
    assert KeysOf(p) == {a, b};
    assert p[0] in KeysOf(p) && p[1] in KeysOf(p);
  }

  lemma RenewedRenders(p: seq<string>, m: map<string, string>)
    requires Parsed(m, RenewedValues()) && IsOrder(p, m)
    ensures var ab := [Hole("a"), Hole("b")]; RenderIn(Source(ab), p, m) == Source(ab + ab + (ab + ab))
  {
    OnlyTwoOrders(p, m, "a", "b");
    RenderIsExpandIn([Hole("a"), Hole("b")], p, m, RenewedValues());
    RenewedExpanded(p[0], p[1]);
    assert p == [p[0], p[1]];
  }

  lemma TouchedWhereHeld(m: map<string, string>, vals: map<string, seq<Segment>>, a: string, b: string)
    requires Parsed(m, vals) && a in m && b in m && a != b && Hole(b) in vals[a] && m[b] != Braced(b)
    ensures !Stable(m, a)
  {
    HoleShows(vals[a], b, m[b]);
  }

  lemma AlwaysSame(msg: string, m: map<string, string>, r: string)
    requires forall p :: IsOrder(p, m) ==> RenderIn(msg, p, m) == r
    ensures OrdersAgree(msg, m)
  {
  }

  lemma RenewedParsed() returns (m: map<string, string>)
    ensures Parsed(m, RenewedValues()) && m["a"] != Braced("a") && m["b"] != Braced("b")
  {
    var vals := RenewedValues();
    m := map k | k in vals :: Source(vals[k]);
    assert |m["a"]| > 3 && |m["b"]| > 3;
  }

  lemma RenewedAgree(m: map<string, string>)
    requires Parsed(m, RenewedValues())
    ensures OrdersAgree(Source([Hole("a"), Hole("b")]), m)
  {
    var ab := [Hole("a"), Hole("b")];
    var r := Source(ab + ab + (ab + ab));
    forall p | IsOrder(p, m) ensures RenderIn(Source(ab), p, m) == r {
      RenewedRenders(p, m);
    }
    AlwaysSame(Source(ab), m, r);
  }

  /** That condition is needed: here all orders agree although each replacement, made alone, touches
      the other's value. */
  lemma RenewedCanAgree() returns (m: map<string, string>)
    ensures Parsed(m, RenewedValues())
    ensures OrdersAgree(Source([Hole("a"), Hole("b")]), m)
    ensures !Stable(m, "a") && !Stable(m, "b")
  {
    var vals := RenewedValues();
    m := RenewedParsed();
    RenewedAgree(m);
    TouchedWhereHeld(m, vals, "a", "b");
    TouchedWhereHeld(m, vals, "b", "a");
  }

  /** With two keys: the second replacement must leave the first value alone. */
  lemma TwoOrdersAgreeIff(a: string, v: string, b: string, w: string)
    requires BraceFree(a) && BraceFree(b) && a != b
    ensures var m := map[a := v, b := w];
            RenderIn(Braced(a), [a, b], m) == RenderIn(Braced(a), [b, a], m)
            <==> ReplaceAll(v, Braced(b), w) == v
  {
    var m := map[a := v, b := w];
    assert [a, b][..1] == [a] && [b, a][..1] == [b] && [a][..0] == [] && [b][..0] == [];
    assert Braced(a) + "" == Braced(a);
    ReplaceHere("", a, v);
    ReplaceElsewhere(a, "", b, w);
    assert v + "" == v;
    assert RenderIn(Braced(a), [a], m) == ReplaceAll(Braced(a), Braced(a), v) == v;
    assert RenderIn(Braced(a), [b], m) == ReplaceAll(Braced(a), Braced(b), w) == Braced(a);
    assert RenderIn(Braced(a), [a, b], m) == ReplaceAll(v, Braced(b), w);
    assert RenderIn(Braced(a), [b, a], m) == ReplaceAll(Braced(a), Braced(a), v);
  }

  /** A model name that looks like a placeholder makes the message depend on the order. */
  lemma OrderCanMatter()
    ensures var m := map["model" := "{request_id}", "request_id" := "r1"];
            && RenderIn("{model}", ["model", "request_id"], m) == "r1"
            && RenderIn("{model}", ["request_id", "model"], m) == "{request_id}"
  {
    var m := map["model" := "{request_id}", "request_id" := "r1"];
    assert Braced("model") == "{model}" && Braced("request_id") == "{request_id}";
    TwoOrdersAgreeIff("model", "{request_id}", "request_id", "r1");
    assert ["model", "request_id"][..1] == ["model"] && ["request_id", "model"][..1] == ["request_id"];
    assert ["model"][..0] == [] && ["request_id"][..0] == [];
    ReplaceHere("", "model", "{request_id}");
    ReplaceHere("", "request_id", "r1");
    ReplaceElsewhere("model", "", "request_id", "r1");
    assert "{model}" + "" == "{model}" && "{request_id}" + "" == "{request_id}" && "r1" + "" == "r1";
  }

  // -------------------------------------------------------------------- Render

  datatype Template = Template(message: string, kind: string, code: string, httpStatus: int)

  datatype ErrorBody = ErrorBody(message: string, kind: string, code: string, requestId: string)

  const INTERNAL_SERVER_ERROR := 500

  /** `Templates.Render`: the order of the loop is whatever the map yields. */
  method Render(templates: map<string, Template>, key: string, m: map<string, string>)
    returns (body: ErrorBody, status: int)
    ensures key !in templates ==>
              && body == ErrorBody("internal error: unknown error template " + key, "api_error", "router_internal_error", "")
              && status == INTERNAL_SERVER_ERROR
    ensures key in templates ==>
              && body.kind == templates[key].kind && body.code == templates[key].code
              && body.requestId == (if "request_id" in m then m["request_id"] else "")
              && status == (if templates[key].httpStatus == 0 then INTERNAL_SERVER_ERROR else templates[key].httpStatus)
    ensures key in templates ==>
              exists order :: IsOrder(order, m) && body.message == RenderIn(templates[key].message, order, m)
    ensures key in templates && Tame(m) ==>
              forall segs :: WellFormed(segs) && Source(segs) == templates[key].message ==>
                body.message == Simultaneous(segs, m)
    ensures key in templates && (forall k :: k in m ==> BraceFree(k)) ==>
              forall segs :: WellFormed(segs) && Source(segs) == templates[key].message && StableIn(segs, m) && ClosedIn(segs, m) ==>
                body.message == Simultaneous(segs, m)
  {
    if key !in templates {
      body := ErrorBody("internal error: unknown error template " + key, "api_error", "router_internal_error", "");
      status := INTERNAL_SERVER_ERROR;
      return;
    }
    var tpl := templates[key];
    var msg := tpl.message;
    var remaining := m.Keys;
    ghost var order: seq<string> := [];
    while remaining != {}
      invariant remaining <= m.Keys
      invariant (forall k :: k in order <==> k in m && k !in remaining) && Distinct(order)
      invariant msg == RenderIn(tpl.message, order, m)
      decreases |remaining|
    {
      var k :| k in remaining;
      msg := ReplaceAll(msg, Braced(k), m[k]);
      assert (order + [k])[..|order|] == order;
      order := order + [k];
      remaining := remaining - {k};
    }
    status := tpl.httpStatus;
    if status == 0 { status := INTERNAL_SERVER_ERROR; }
    body := ErrorBody(msg, tpl.kind, tpl.code, if "request_id" in m then m["request_id"] else "");
    assert IsOrder(order, m);
    if Tame(m) {
      forall segs | WellFormed(segs) && Source(segs) == tpl.message ensures msg == Simultaneous(segs, m) {
        OrderIrrelevant(segs, order, m);
      }
    }
    if forall k :: k in m ==> BraceFree(k) {
      forall segs | WellFormed(segs) && Source(segs) == tpl.message && StableIn(segs, m) && ClosedIn(segs, m)
        ensures msg == Simultaneous(segs, m)
      {
        StableOrderIrrelevant(segs, order, m);
      }
    }
  }
}
