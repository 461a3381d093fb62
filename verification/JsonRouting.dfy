/** Routing on the `model` member of a JSON body, read token by token.

    A body is the sequence of its lexemes (section 2 of RFC 8259).  The decoder keeps the state
    machine that admits commas, colons and delimiters only where the grammar has them. */
module JsonRouting {
  import opened Options

  /** `inRange` says whether the number fits a 64-bit float; the decoder converts every number it
      hands out as a token, and an out-of-range number is an error. */
  datatype Atom = Null | Bool(b: bool) | Number(text: string, inRange: bool)

  predicate Fits(a: Atom) {
    a.Number? ==> a.inRange
  }

  /** `Bad` stands for text that is no lexeme. */
  datatype Lexeme = LBrace | RBrace | LBracket | RBracket | Comma | Colon | Quoted(s: string) | Plain(a: Atom) | Bad

  datatype Token = OpenObject | CloseObject | OpenArray | CloseArray | Text(s: string) | Scalar(a: Atom)

  datatype Place =
    | TopValue
    | ArrayStart | ArrayValue | ArrayComma
    | ObjectStart | ObjectKey | ObjectColon | ObjectValue | ObjectComma

  /** The lexemes still to come, the place in the grammar, and the places of the enclosing values. */
  datatype Dec = Dec(rest: seq<Lexeme>, place: Place, stack: seq<Place>)

  predicate Allowed(p: Place) {
    p.TopValue? || p.ArrayStart? || p.ArrayValue? || p.ObjectValue?
  }

  function ValueEnd(p: Place): Place {
    match p
    case ArrayStart => ArrayComma
    case ArrayValue => ArrayComma
    case ObjectValue => ObjectComma
    case _ => p
  }

  function Advance(d: Dec, place: Place): Dec
    requires d.rest != []
  {
    Dec(d.rest[1..], place, d.stack)
  }

  function Open(d: Dec, inside: Place): Dec
    requires d.rest != []
  {
    Dec(d.rest[1..], inside, d.stack + [d.place])
  }

  function Close(d: Dec): Dec
    requires d.rest != [] && d.stack != []
  {
    var n := |d.stack| - 1;
    Dec(d.rest[1..], ValueEnd(d.stack[n]), d.stack[..n])
  }

  /** The next token and the decoder after it; `None` is an error or the end of input. */
  function NextToken(d: Dec): (r: Option<(Token, Dec)>)
    ensures r.Some? ==> |r.value.1.rest| < |d.rest|
    decreases |d.rest|
  {
    if d.rest == [] then None
    else
      match d.rest[0]
      case LBracket => if Allowed(d.place) then Some((OpenArray, Open(d, ArrayStart))) else None
      case RBracket =>
        if (d.place.ArrayStart? || d.place.ArrayComma?) && d.stack != [] then Some((CloseArray, Close(d))) else None
      case LBrace => if Allowed(d.place) then Some((OpenObject, Open(d, ObjectStart))) else None
      case RBrace =>
        if (d.place.ObjectStart? || d.place.ObjectComma?) && d.stack != [] then Some((CloseObject, Close(d))) else None
      case Colon => if d.place.ObjectColon? then NextToken(Advance(d, ObjectValue)) else None
      case Comma =>
        if d.place.ArrayComma? then NextToken(Advance(d, ArrayValue))
        else if d.place.ObjectComma? then NextToken(Advance(d, ObjectKey))
        else None
      case Quoted(s) =>
        if d.place.ObjectStart? || d.place.ObjectKey? then Some((Text(s), Advance(d, ObjectColon)))
        else if Allowed(d.place) then Some((Text(s), Advance(d, ValueEnd(d.place))))
        else None
      case Plain(a) => if Allowed(d.place) && Fits(a) then Some((Scalar(a), Advance(d, ValueEnd(d.place)))) else None
      case Bad => None
  }

  /** Whether the current object or array seems to go on. */
  predicate More(d: Dec) {
    d.rest != [] && !d.rest[0].RBracket? && !d.rest[0].RBrace?
  }

  // ------------------------------------------------------------------ skipping

  function SkipValue(d: Dec): (r: Option<Dec>)
    ensures r.Some? ==> |r.value.rest| < |d.rest|
    decreases |d.rest|, 0
  {
    match NextToken(d)
    case None => None
    case Some((OpenObject, d1)) => SkipMembers(d1)
    case Some((OpenArray, d1)) => SkipElements(d1)
    case Some((_, d1)) => Some(d1)
  }

  function SkipMembers(d: Dec): (r: Option<Dec>)
    ensures r.Some? ==> |r.value.rest| < |d.rest|
    decreases |d.rest|, 1
  {
    if More(d) then
      match NextToken(d)
      case None => None
      case Some((_, d1)) =>
        match SkipValue(d1)
        case None => None
        case Some(d2) => SkipMembers(d2)
    else
      match NextToken(d)
      case None => None
      case Some((_, d1)) => Some(d1)
  }

  function SkipElements(d: Dec): (r: Option<Dec>)
    ensures r.Some? ==> |r.value.rest| < |d.rest|
    decreases |d.rest|, 1
  {
    if More(d) then
      match SkipValue(d)
      case None => None
      case Some(d1) => SkipElements(d1)
    else
      match NextToken(d)
      case None => None
      case Some((_, d1)) => Some(d1)
  }

  // ------------------------------------------------------------------- routing

  datatype Routed = Invalid | Model(name: string)

  /** `parseRoutingFields` after the opening brace. */
  function ParseMembers(d: Dec): Routed
    decreases |d.rest|
  {
    if !More(d) then Model("")
    else
      match NextToken(d)
      case None => Invalid
      case Some((key, d1)) =>
        if !key.Text? then Invalid
        else if key.s == "model" then
          match NextToken(d1)
          case None => Invalid
          case Some((val, _)) => Model(if val.Text? then val.s else "")
        else
          match SkipValue(d1)
          case None => Invalid
          case Some(d2) => ParseMembers(d2)
  }

  function ParseRoutingFields(body: seq<Lexeme>): Routed {
    match NextToken(Dec(body, TopValue, []))
    case Some((OpenObject, d)) => ParseMembers(d)
    case _ => Invalid
  }

  // --------------------------------------------------------------------- trees

  datatype Json = JAtom(a: Atom) | JString(s: string) | JArray(elems: seq<Json>) | JObject(members: seq<Member>)

  datatype Member = Member(key: string, value: Json)

  /** The lexemes of a value, sections 3 to 5 of RFC 8259. */
  function Lexemes(v: Json): (l: seq<Lexeme>)
    ensures l != []
    decreases v, 1
  {
    match v
    case JAtom(a) => [Plain(a)]
    case JString(s) => [Quoted(s)]
    case JArray(vs) => [LBracket] + ElementLexemes(vs)
    case JObject(ms) => [LBrace] + MemberLexemes(ms)
  }

  /** From the first element through the closing bracket. */
  function ElementLexemes(vs: seq<Json>): (l: seq<Lexeme>)
    ensures l != []
    decreases vs, 0
  {
    if vs == [] then [RBracket] else Lexemes(vs[0]) + MoreElements(vs[1..])
  }

  function MoreElements(vs: seq<Json>): (l: seq<Lexeme>)
    ensures l != []
    decreases vs, 0
  {
    if vs == [] then [RBracket] else [Comma] + Lexemes(vs[0]) + MoreElements(vs[1..])
  }

  function MemberLexemes(ms: seq<Member>): (l: seq<Lexeme>)
    ensures l != []
    decreases ms, 0
  {
    if ms == [] then [RBrace]
    else [Quoted(ms[0].key), Colon] + Lexemes(ms[0].value) + MoreMembers(ms[1..])
  }

  function MoreMembers(ms: seq<Member>): (l: seq<Lexeme>)
    ensures l != []
    decreases ms, 0
  {
    if ms == [] then [RBrace]
    else [Comma, Quoted(ms[0].key), Colon] + Lexemes(ms[0].value) + MoreMembers(ms[1..])
  }

  /** Every number of the value fits. */
  predicate AllFit(v: Json)
    decreases v, 1
  {
    match v
    case JAtom(a) => Fits(a)
    case JString(_) => true
    case JArray(vs) => ElementsFit(vs)
    case JObject(ms) => MembersFit(ms)
  }

  predicate ElementsFit(vs: seq<Json>)
    decreases vs, 0
  {
    vs == [] || (AllFit(vs[0]) && ElementsFit(vs[1..]))
  }

  predicate MembersFit(ms: seq<Member>)
    decreases ms, 0
  {
    ms == [] || (AllFit(ms[0].value) && MembersFit(ms[1..]))
  }

  // -------------------------------------------------------------- skip exactness

  /** A comma where one is due is consumed together with the token behind it. */
  lemma CommaIsPassed(d: Dec, rest: seq<Lexeme>)
    requires d.rest == [Comma] + rest && (d.place.ArrayComma? || d.place.ObjectComma?)
    ensures var d' := Dec(rest, if d.place.ArrayComma? then ArrayValue else ObjectKey, d.stack);
            NextToken(d) == NextToken(d') && SkipValue(d) == SkipValue(d')
  {
    assert d.rest[1..] == rest;
  }

  lemma ColonIsPassed(d: Dec, rest: seq<Lexeme>)
    requires d.rest == [Colon] + rest && d.place.ObjectColon?
    ensures var d' := Dec(rest, ObjectValue, d.stack);
            NextToken(d) == NextToken(d') && SkipValue(d) == SkipValue(d')
  {
    assert d.rest[1..] == rest;
  }

  /** Skipping a serialised value leaves exactly what follows it, at the next place of the grammar; it
      fails exactly when some number of the value does not fit. */
  lemma {:induction false} SkipExact(v: Json, r: seq<Lexeme>, place: Place, stack: seq<Place>)
    requires Allowed(place)
    ensures SkipValue(Dec(Lexemes(v) + r, place, stack)) == if AllFit(v) then Some(Dec(r, ValueEnd(place), stack)) else None
    decreases v, 1
  {
    var d := Dec(Lexemes(v) + r, place, stack);
    match v
    case JAtom(a) => assert d.rest[1..] == r;
    case JString(s) => assert d.rest[1..] == r;
    case JArray(vs) =>
      assert d.rest[1..] == ElementLexemes(vs) + r;
      SkipElementsExact(vs, r, place, stack);
    case JObject(ms) =>
      assert d.rest[1..] == MemberLexemes(ms) + r;
      SkipMembersExact(ms, r, place, stack);
  }

  lemma Closed(l: Lexeme, r: seq<Lexeme>, place: Place, stack: seq<Place>, inside: Place)
    requires (l.RBracket? && (inside.ArrayStart? || inside.ArrayComma?)) || (l.RBrace? && (inside.ObjectStart? || inside.ObjectComma?))
    ensures var d := Dec([l] + r, inside, stack + [place]);
            && !More(d)
            && NextToken(d) == Some((if l.RBracket? then CloseArray else CloseObject, Dec(r, ValueEnd(place), stack)))
  {
    var d := Dec([l] + r, inside, stack + [place]);
    assert d.rest[1..] == r && (stack + [place])[..|stack|] == stack;
  }

  /** No lexeme of a value closes an enclosing one, so after a value's first lexeme there is more. */
  lemma FirstLexeme(v: Json)
    ensures !Lexemes(v)[0].RBracket? && !Lexemes(v)[0].RBrace? && !Lexemes(v)[0].Comma? && !Lexemes(v)[0].Colon?
  {
  }

  lemma {:induction false} SkipElementsExact(vs: seq<Json>, r: seq<Lexeme>, place: Place, stack: seq<Place>)
    ensures SkipElements(Dec(ElementLexemes(vs) + r, ArrayStart, stack + [place]))
         == if ElementsFit(vs) then Some(Dec(r, ValueEnd(place), stack)) else None
    decreases vs, 0
  {
    var d := Dec(ElementLexemes(vs) + r, ArrayStart, stack + [place]);
    if vs == [] {
      Closed(RBracket, r, place, stack, ArrayStart);
    } else {
      FirstLexeme(vs[0]);
      var tail := MoreElements(vs[1..]) + r;
      assert d.rest == Lexemes(vs[0]) + tail;
      assert d.rest[0] == Lexemes(vs[0])[0];
      SkipExact(vs[0], tail, ArrayStart, stack + [place]);
      SkipMoreElementsExact(vs[1..], r, place, stack);
    }
  }

  lemma {:induction false} SkipMoreElementsExact(vs: seq<Json>, r: seq<Lexeme>, place: Place, stack: seq<Place>)
    ensures SkipElements(Dec(MoreElements(vs) + r, ArrayComma, stack + [place]))
         == if ElementsFit(vs) then Some(Dec(r, ValueEnd(place), stack)) else None
    decreases vs, 0
  {
    var d := Dec(MoreElements(vs) + r, ArrayComma, stack + [place]);
    if vs == [] {
      Closed(RBracket, r, place, stack, ArrayComma);
    } else {
      var tail := MoreElements(vs[1..]) + r;
      assert d.rest == [Comma] + (Lexemes(vs[0]) + tail);
      CommaIsPassed(d, Lexemes(vs[0]) + tail);
      SkipExact(vs[0], tail, ArrayValue, stack + [place]);
      SkipMoreElementsExact(vs[1..], r, place, stack);
    }
  }

  /** One key and its value: the key is read as text, the value skipped exactly. */
  lemma KeyRead(key: string, rest: seq<Lexeme>, stack: seq<Place>, first: bool)
    ensures var d := if first then Dec([Quoted(key)] + rest, ObjectStart, stack) else Dec([Comma, Quoted(key)] + rest, ObjectComma, stack);
            More(d) && NextToken(d) == Some((Text(key), Dec(rest, ObjectColon, stack)))
  {
    assert ([Quoted(key)] + rest)[1..] == rest;
    if !first {
      var d := Dec([Comma, Quoted(key)] + rest, ObjectComma, stack);
      assert d.rest == [Comma] + ([Quoted(key)] + rest);
      CommaIsPassed(d, [Quoted(key)] + rest);
    }
  }

  lemma {:induction false} SkipMembersExact(ms: seq<Member>, r: seq<Lexeme>, place: Place, stack: seq<Place>)
    ensures SkipMembers(Dec(MemberLexemes(ms) + r, ObjectStart, stack + [place]))
         == if MembersFit(ms) then Some(Dec(r, ValueEnd(place), stack)) else None
    decreases ms, 0
  {
    var d := Dec(MemberLexemes(ms) + r, ObjectStart, stack + [place]);
    if ms == [] {
      Closed(RBrace, r, place, stack, ObjectStart);
    } else {
      var tail := MoreMembers(ms[1..]) + r;
      assert d.rest == [Quoted(ms[0].key)] + ([Colon] + (Lexemes(ms[0].value) + tail));
      KeyRead(ms[0].key, [Colon] + (Lexemes(ms[0].value) + tail), d.stack, true);
      ColonIsPassed(Dec([Colon] + (Lexemes(ms[0].value) + tail), ObjectColon, d.stack), Lexemes(ms[0].value) + tail);
      SkipExact(ms[0].value, tail, ObjectValue, d.stack);
      SkipMoreMembersExact(ms[1..], r, place, stack);
    }
  }

  lemma {:induction false} SkipMoreMembersExact(ms: seq<Member>, r: seq<Lexeme>, place: Place, stack: seq<Place>)
    ensures SkipMembers(Dec(MoreMembers(ms) + r, ObjectComma, stack + [place]))
         == if MembersFit(ms) then Some(Dec(r, ValueEnd(place), stack)) else None
    decreases ms, 0
  {
    var d := Dec(MoreMembers(ms) + r, ObjectComma, stack + [place]);
    if ms == [] {
      Closed(RBrace, r, place, stack, ObjectComma);
    } else {
      var tail := MoreMembers(ms[1..]) + r;
      assert d.rest == [Comma, Quoted(ms[0].key)] + ([Colon] + (Lexemes(ms[0].value) + tail));
      KeyRead(ms[0].key, [Colon] + (Lexemes(ms[0].value) + tail), d.stack, false);
      ColonIsPassed(Dec([Colon] + (Lexemes(ms[0].value) + tail), ObjectColon, d.stack), Lexemes(ms[0].value) + tail);
      SkipExact(ms[0].value, tail, ObjectValue, d.stack);
      SkipMoreMembersExact(ms[1..], r, place, stack);
    }
  }

  // ------------------------------------------------------------ input cut short

  lemma CutConcat(a: seq<Lexeme>, b: seq<Lexeme>, k: nat)
    requires k <= |a| + |b|
    ensures (a + b)[..k] == if k <= |a| then a[..k] else a + b[..k - |a|]
  {
  }

  /** On every proper prefix of a serialised value, skipping fails. */
  lemma {:induction false} CutValue(v: Json, k: nat, place: Place, stack: seq<Place>)
    requires Allowed(place) && k < |Lexemes(v)|
    ensures SkipValue(Dec(Lexemes(v)[..k], place, stack)) == None
    decreases v, 3
  {
    var d := Dec(Lexemes(v)[..k], place, stack);
    if k > 0 {
      match v
      case JArray(vs) =>
        CutConcat([LBracket], ElementLexemes(vs), k);
        assert d.rest == [LBracket] + ElementLexemes(vs)[..k - 1];
        CutElements(vs, k - 1, stack + [place]);
      case JObject(ms) =>
        CutConcat([LBrace], MemberLexemes(ms), k);
        assert d.rest == [LBrace] + MemberLexemes(ms)[..k - 1];
        CutMembers(ms, k - 1, stack + [place]);
    }
  }

  /** An element and what follows it in the array, cut short: in the element or behind it. */
  lemma {:induction false} CutElement(vs: seq<Json>, k: nat, place: Place, stack: seq<Place>)
    requires vs != [] && k < |Lexemes(vs[0])| + |MoreElements(vs[1..])| && (place.ArrayStart? || place.ArrayValue?)
    ensures var d := Dec((Lexemes(vs[0]) + MoreElements(vs[1..]))[..k], place, stack);
            SkipValue(d).None? || SkipElements(SkipValue(d).value).None?
    decreases vs, 0
  {
    var a, b := Lexemes(vs[0]), MoreElements(vs[1..]);
    CutConcat(a, b, k);
    if k < |a| {
      CutValue(vs[0], k, place, stack);
    } else {
      var left := b[..k - |a|];
      assert (a + b)[..k] == a + left;
      SkipExact(vs[0], left, place, stack);
      CutMoreElements(vs[1..], k - |a|, stack);
    }
  }

  lemma {:induction false} CutElements(vs: seq<Json>, k: nat, stack: seq<Place>)
    requires k < |ElementLexemes(vs)|
    ensures SkipElements(Dec(ElementLexemes(vs)[..k], ArrayStart, stack)) == None
    decreases vs, 1
  {
    if k > 0 {
      FirstLexeme(vs[0]);
      CutElement(vs, k, ArrayStart, stack);
    }
  }

  lemma {:induction false} CutMoreElements(vs: seq<Json>, k: nat, stack: seq<Place>)
    requires k < |MoreElements(vs)|
    ensures SkipElements(Dec(MoreElements(vs)[..k], ArrayComma, stack)) == None
    decreases vs, 1
  {
    if k > 0 {
      var all := Lexemes(vs[0]) + MoreElements(vs[1..]);
      var d := Dec(MoreElements(vs)[..k], ArrayComma, stack);
      assert d.rest == [Comma] + all[..k - 1];
      CommaIsPassed(d, all[..k - 1]);
      CutElement(vs, k - 1, ArrayValue, stack);
    }
  }

  /** A member's value and what follows it in the object, cut short: in the value or behind it. */
  lemma {:induction false} CutBehindColon(ms: seq<Member>, k: nat, stack: seq<Place>)
    requires ms != [] && k < |Lexemes(ms[0].value)| + |MoreMembers(ms[1..])|
    ensures var d := Dec((Lexemes(ms[0].value) + MoreMembers(ms[1..]))[..k], ObjectValue, stack);
            SkipValue(d).None? || SkipMembers(SkipValue(d).value).None?
    decreases ms, 0
  {
    var a, b := Lexemes(ms[0].value), MoreMembers(ms[1..]);
    CutConcat(a, b, k);
    if k < |a| {
      CutValue(ms[0].value, k, ObjectValue, stack);
    } else {
      var left := b[..k - |a|];
      assert (a + b)[..k] == a + left;
      SkipExact(ms[0].value, left, ObjectValue, stack);
      CutMoreMembers(ms[1..], k - |a|, stack);
    }
  }

  lemma {:induction false} CutAfterKey(ms: seq<Member>, k: nat, stack: seq<Place>)
    requires ms != [] && k < 1 + |Lexemes(ms[0].value)| + |MoreMembers(ms[1..])|
    ensures var d := Dec(([Colon] + (Lexemes(ms[0].value) + MoreMembers(ms[1..])))[..k], ObjectColon, stack);
            SkipValue(d).None? || SkipMembers(SkipValue(d).value).None?
    decreases ms, 1
  {
    if k > 0 {
      var all := Lexemes(ms[0].value) + MoreMembers(ms[1..]);
      assert ([Colon] + all)[..k] == [Colon] + all[..k - 1];
      ColonIsPassed(Dec([Colon] + all[..k - 1], ObjectColon, stack), all[..k - 1]);
      CutBehindColon(ms, k - 1, stack);
    }
  }

  lemma {:induction false} CutMembers(ms: seq<Member>, k: nat, stack: seq<Place>)
    requires k < |MemberLexemes(ms)|
    ensures SkipMembers(Dec(MemberLexemes(ms)[..k], ObjectStart, stack)) == None
    decreases ms, 2
  {
    if k > 0 {
      var rest := [Colon] + (Lexemes(ms[0].value) + MoreMembers(ms[1..]));
      var d := Dec(MemberLexemes(ms)[..k], ObjectStart, stack);
      assert MemberLexemes(ms) == [Quoted(ms[0].key)] + rest;
      assert d.rest == [Quoted(ms[0].key)] + rest[..k - 1];
      KeyRead(ms[0].key, rest[..k - 1], stack, true);
      CutAfterKey(ms, k - 1, stack);
    }
  }

  lemma {:induction false} CutMoreMembers(ms: seq<Member>, k: nat, stack: seq<Place>)
    requires k < |MoreMembers(ms)|
    ensures SkipMembers(Dec(MoreMembers(ms)[..k], ObjectComma, stack)) == None
    decreases ms, 2
  {
    if k > 1 {
      var rest := [Colon] + (Lexemes(ms[0].value) + MoreMembers(ms[1..]));
      var d := Dec(MoreMembers(ms)[..k], ObjectComma, stack);
      assert MoreMembers(ms) == [Comma, Quoted(ms[0].key)] + rest;
      assert d.rest == [Comma, Quoted(ms[0].key)] + rest[..k - 2];
      KeyRead(ms[0].key, rest[..k - 2], stack, false);
      CutAfterKey(ms, k - 2, stack);
    } else if k == 1 {
      var d := Dec(MoreMembers(ms)[..k], ObjectComma, stack);
      assert d.rest == [Comma] + [];
      CommaIsPassed(d, []);
    }
  }

  // ---------------------------------------------- what a skip has consumed

  /** `seps` is what stands in front of the colon: the key, with a comma before it or not. */
  lemma ColonRegroup(seps: seq<Lexeme>, a: seq<Lexeme>, b: seq<Lexeme>, r: seq<Lexeme>)
    ensures seps + [Colon] + a + b + r == seps + ([Colon] + (a + (b + r)))
  {
    assert a + b + r == a + (b + r);
    assert seps + [Colon] + a + b + r == seps + [Colon] + (a + b + r);
  }

  lemma FirstMemberAndRest(ms: seq<Member>, r: seq<Lexeme>)
    requires ms != []
    ensures MemberLexemes(ms) + r
         == [Quoted(ms[0].key)] + ([Colon] + (Lexemes(ms[0].value) + (MoreMembers(ms[1..]) + r)))
  {
    assert [Quoted(ms[0].key), Colon] == [Quoted(ms[0].key)] + [Colon];
    ColonRegroup([Quoted(ms[0].key)], Lexemes(ms[0].value), MoreMembers(ms[1..]), r);
  }

  lemma NextMemberAndRest(ms: seq<Member>, r: seq<Lexeme>)
    requires ms != []
    ensures MoreMembers(ms) + r
         == [Comma, Quoted(ms[0].key)] + ([Colon] + (Lexemes(ms[0].value) + (MoreMembers(ms[1..]) + r)))
  {
    assert [Comma, Quoted(ms[0].key), Colon] == [Comma, Quoted(ms[0].key)] + [Colon];
    ColonRegroup([Comma, Quoted(ms[0].key)], Lexemes(ms[0].value), MoreMembers(ms[1..]), r);
  }

  /** A token of one lexeme, at a place where a value may stand. */
  lemma ScalarConsumed(d: Dec) returns (v: Json)
    requires Allowed(d.place) && NextToken(d).Some?
    requires NextToken(d).value.0.Text? || NextToken(d).value.0.Scalar?
    ensures AllFit(v) && d.rest == Lexemes(v) + NextToken(d).value.1.rest
    ensures NextToken(d).value.1.place == ValueEnd(d.place) && NextToken(d).value.1.stack == d.stack
  {
    v := if d.rest[0].Quoted? then JString(d.rest[0].s) else JAtom(d.rest[0].a);
    assert d.rest == [d.rest[0]] + d.rest[1..];
  }

  /** The lexemes of a value and nothing else have been taken. */
  predicate Consumed(d: Dec, v: Json, d': Dec) {
    && AllFit(v) && d.rest == Lexemes(v) + d'.rest
    && d'.place == ValueEnd(d.place) && d'.stack == d.stack
  }

  lemma Joined(c: seq<Lexeme>, a: seq<Lexeme>, b: seq<Lexeme>, r: seq<Lexeme>)
    ensures c + a + b + r == c + (a + (b + r)) && a + b + r == a + (b + r)
  {
  }

  lemma FirstElementAndRest(vs: seq<Json>, r: seq<Lexeme>)
    requires vs != []
    ensures ElementLexemes(vs) + r == Lexemes(vs[0]) + (MoreElements(vs[1..]) + r)
    ensures MoreElements(vs) + r == [Comma] + (Lexemes(vs[0]) + (MoreElements(vs[1..]) + r))
  {
    Joined([Comma], Lexemes(vs[0]), MoreElements(vs[1..]), r);
  }

  lemma OpenedAndRest(ms: seq<Member>, vs: seq<Json>, r: seq<Lexeme>)
    ensures Lexemes(JObject(ms)) + r == [LBrace] + (MemberLexemes(ms) + r)
    ensures Lexemes(JArray(vs)) + r == [LBracket] + (ElementLexemes(vs) + r)
  {
    Joined([], [LBrace], MemberLexemes(ms), r);
    Joined([], [LBracket], ElementLexemes(vs), r);
  }

  /** A value may stand here; at the start of an array only if it does not end at once. */
  predicate AtValue(d: Dec) {
    Allowed(d.place) && (d.place.ArrayStart? ==> More(d))
  }

  lemma OpensOrScalar(d: Dec)
    requires AtValue(d) && NextToken(d).Some?
    ensures var (tok, d1) := NextToken(d).value;
            && d.rest == [d.rest[0]] + d1.rest
            && (tok.OpenObject? ==> d.rest[0].LBrace? && d1.place.ObjectStart? && d1.stack == d.stack + [d.place])
            && (tok.OpenArray? ==> d.rest[0].LBracket? && d1.place.ArrayStart? && d1.stack == d.stack + [d.place])
            && !tok.CloseObject? && !tok.CloseArray?
  {
    assert d.rest == [d.rest[0]] + d.rest[1..];
  }

  /** Whatever a skip succeeds on begins with a value, and the skip has taken that value. */
  lemma {:induction false} SkipConsumes(d: Dec) returns (v: Json)
    requires AtValue(d) && SkipValue(d).Some?
    ensures Consumed(d, v, SkipValue(d).value)
    decreases |d.rest|, 0
  {
    var (tok, d1) := NextToken(d).value;
    OpensOrScalar(d);
    if tok.OpenObject? {
      var ms := SkipMembersConsumes(d1, true, d.place, d.stack);
      v := JObject(ms);
      OpenedAndRest(ms, [], SkipValue(d).value.rest);
    } else if tok.OpenArray? {
      var vs := SkipElementsConsumes(d1, true, d.place, d.stack);
      v := JArray(vs);
      OpenedAndRest([], vs, SkipValue(d).value.rest);
    } else {
      v := ScalarConsumed(d);
    }
  }

  /** The end of an array or an object. */
  lemma CloseConsumes(d: Dec, place: Place, stack: seq<Place>)
    requires d.stack == stack + [place] && !More(d) && NextToken(d).Some?
    ensures d.rest == [d.rest[0]] + NextToken(d).value.1.rest && (d.rest[0].RBracket? || d.rest[0].RBrace?)
    ensures d.rest[0].RBracket? ==> d.place.ArrayStart? || d.place.ArrayComma?
    ensures d.rest[0].RBrace? ==> d.place.ObjectStart? || d.place.ObjectComma?
    ensures NextToken(d).value.1.place == ValueEnd(place) && NextToken(d).value.1.stack == stack
  {
    assert d.rest == [d.rest[0]] + d.rest[1..];
    assert (stack + [place])[..|stack|] == stack;
  }

  /** The decoder past a comma, if one is due. */
  function PastComma(d: Dec, first: bool): Dec {
    if first || d.rest == [] then d
    else Dec(d.rest[1..], if d.place.ArrayComma? then ArrayValue else ObjectKey, d.stack)
  }

  lemma ElementDue(d: Dec, first: bool)
    requires d.place == (if first then ArrayStart else ArrayComma) && More(d) && SkipValue(d).Some?
    ensures var at := PastComma(d, first);
            && d.rest == (if first then [] else [Comma]) + at.rest && at.stack == d.stack
            && AtValue(at) && SkipValue(d) == SkipValue(at) && ValueEnd(at.place).ArrayComma?
  {
    if first {
      assert [] + d.rest == d.rest;
    } else {
      assert d.rest == [Comma] + d.rest[1..];
      CommaIsPassed(d, d.rest[1..]);
    }
  }

  lemma CommaDue(d: Dec, first: bool)
    requires d.place == (if first then ObjectStart else ObjectComma) && More(d) && NextToken(d).Some?
    ensures var at := PastComma(d, first);
            && d.rest == (if first then [] else [Comma]) + at.rest && at.stack == d.stack
            && (at.place.ObjectStart? || at.place.ObjectKey?)
            && NextToken(d) == NextToken(at) && at.rest != [] && !at.rest[0].RBrace?
  {
    if first {
      assert [] + d.rest == d.rest;
    } else {
      assert d.rest == [Comma] + d.rest[1..];
      CommaIsPassed(d, d.rest[1..]);
    }
  }

  lemma {:induction false} SkipElementsConsumes(d: Dec, first: bool, place: Place, stack: seq<Place>) returns (vs: seq<Json>)
    requires d.place == (if first then ArrayStart else ArrayComma) && d.stack == stack + [place] && SkipElements(d).Some?
    ensures ElementsFit(vs) && d.rest == (if first then ElementLexemes(vs) else MoreElements(vs)) + SkipElements(d).value.rest
    ensures SkipElements(d).value.place == ValueEnd(place) && SkipElements(d).value.stack == stack
    decreases |d.rest|, 1
  {
    if !More(d) {
      CloseConsumes(d, place, stack);
      vs := [];
    } else {
      ElementDue(d, first);
      var at := PastComma(d, first);
      var v := SkipConsumes(at);
      var more := SkipElementsConsumes(SkipValue(at).value, false, place, stack);
      vs := [v] + more;
      assert vs[1..] == more;
      FirstElementAndRest(vs, SkipElements(d).value.rest);
      assert [] + at.rest == at.rest;
    }
  }

  lemma KeyHere(at: Dec)
    requires at.place.ObjectStart? || at.place.ObjectKey?
    requires at.rest != [] && !at.rest[0].RBrace? && NextToken(at).Some?
    ensures at.rest[0].Quoted? && at.rest == [at.rest[0]] + at.rest[1..]
    ensures NextToken(at) == Some((Text(at.rest[0].s), Dec(at.rest[1..], ObjectColon, at.stack)))
  {
    match at.rest[0]
    case Quoted(_) =>
    case Colon =>
    case Comma =>
    case _ =>
  }

  lemma CommaJoined(x: Lexeme, r: seq<Lexeme>)
    ensures [Comma] + ([x] + r) == [Comma, x] + r && [] + ([x] + r) == [x] + r
  {
  }

  /** A key, behind the comma that is due. */
  lemma KeyTaken(d: Dec, first: bool) returns (key: string, d1: Dec)
    requires d.place == (if first then ObjectStart else ObjectComma) && More(d) && NextToken(d).Some?
    ensures NextToken(d) == Some((Text(key), d1))
    ensures d1.place.ObjectColon? && d1.stack == d.stack && |d1.rest| < |d.rest|
    ensures d.rest == (if first then [Quoted(key)] else [Comma, Quoted(key)]) + d1.rest
  {
    CommaDue(d, first);
    var at := PastComma(d, first);
    KeyHere(at);
    key, d1 := at.rest[0].s, Dec(at.rest[1..], ObjectColon, at.stack);
    CommaJoined(Quoted(key), d1.rest);
  }

  lemma ColonTaken(d1: Dec) returns (behind: Dec)
    requires d1.place.ObjectColon? && NextToken(d1).Some?
    ensures behind.place.ObjectValue? && behind.stack == d1.stack && d1.rest == [Colon] + behind.rest
    ensures NextToken(d1) == NextToken(behind) && SkipValue(d1) == SkipValue(behind)
  {
    behind := Dec(d1.rest[1..], ObjectValue, d1.stack);
    assert d1.rest == [Colon] + behind.rest;
    ColonIsPassed(d1, behind.rest);
  }

  /** One member, behind the comma that is due. */
  lemma {:induction false} SkipMemberConsumes(d: Dec, first: bool) returns (m: Member, d2: Dec)
    requires d.place == (if first then ObjectStart else ObjectComma) && More(d) && NextToken(d).Some?
    requires SkipValue(NextToken(d).value.1).Some?
    ensures d2 == SkipValue(NextToken(d).value.1).value && NextToken(d).value.0 == Text(m.key)
    ensures AllFit(m.value) && d2.place == ObjectComma && d2.stack == d.stack
    ensures d.rest == (if first then [Quoted(m.key)] else [Comma, Quoted(m.key)]) + ([Colon] + (Lexemes(m.value) + d2.rest))
    decreases |d.rest|, 0
  {
    var key, d1 := KeyTaken(d, first);
    var behind := ColonTaken(d1);
    var v := SkipConsumes(behind);
    m, d2 := Member(key, v), SkipValue(behind).value;
  }

  lemma {:induction false} SkipMembersConsumes(d: Dec, first: bool, place: Place, stack: seq<Place>) returns (ms: seq<Member>)
    requires d.place == (if first then ObjectStart else ObjectComma) && d.stack == stack + [place] && SkipMembers(d).Some?
    ensures MembersFit(ms) && d.rest == (if first then MemberLexemes(ms) else MoreMembers(ms)) + SkipMembers(d).value.rest
    ensures SkipMembers(d).value.place == ValueEnd(place) && SkipMembers(d).value.stack == stack
    decreases |d.rest|, 1
  {
    if !More(d) {
      CloseConsumes(d, place, stack);
      ms := [];
    } else {
      var m, d2 := SkipMemberConsumes(d, first);
      var more := SkipMembersConsumes(d2, false, place, stack);
      ms := [m] + more;
      assert ms[1..] == more;
      var r := SkipMembers(d).value.rest;
      if first { FirstMemberAndRest(ms, r); } else { NextMemberAndRest(ms, r); }
    }
  }

  /** Skipping succeeds on exactly the inputs that begin with a value whose numbers fit. */
  lemma SkipIff(rest: seq<Lexeme>, place: Place, stack: seq<Place>)
    requires AtValue(Dec(rest, place, stack))
    ensures SkipValue(Dec(rest, place, stack)).Some? <==> exists v, r :: AllFit(v) && rest == Lexemes(v) + r
  {
    var d := Dec(rest, place, stack);
    if SkipValue(d).Some? {
      var v := SkipConsumes(d);
      assert AllFit(v) && rest == Lexemes(v) + SkipValue(d).value.rest;
    }
    if v, r :| AllFit(v) && rest == Lexemes(v) + r { SkipExact(v, r, place, stack); }
  }

  // ------------------------------------------------------------ routing by tree

  /** The first member called "model": its text, or nothing if it is not text or absent. */
  function FirstModel(ms: seq<Member>): string {
    if ms == [] then ""
    else if ms[0].key == "model" then (if ms[0].value.JString? then ms[0].value.s else "")
    else FirstModel(ms[1..])
  }

  /** Every number fits, up to and including the first token of the first "model" member's value. */
  predicate LeadFits(ms: seq<Member>) {
    ms == []
    || (if ms[0].key == "model" then FirstFits(ms[0].value) else AllFit(ms[0].value) && LeadFits(ms[1..]))
  }

  function Placed(ms: seq<Member>, r: seq<Lexeme>, first: bool, stack: seq<Place>): Dec {
    if first then Dec(MemberLexemes(ms) + r, ObjectStart, stack) else Dec(MoreMembers(ms) + r, ObjectComma, stack)
  }

  function FirstToken(v: Json): Token {
    match v
    case JAtom(a) => Scalar(a)
    case JString(s) => Text(s)
    case JArray(_) => OpenArray
    case JObject(_) => OpenObject
  }

  /** The value's first token is no number out of range. */
  predicate FirstFits(v: Json) {
    v.JAtom? ==> Fits(v.a)
  }

  /** Behind a key: the value's first token, or the whole value. */
  lemma ValueRead(v: Json, tail: seq<Lexeme>, stack: seq<Place>)
    ensures var d := Dec([Colon] + (Lexemes(v) + tail), ObjectColon, stack);
            && SkipValue(d) == (if AllFit(v) then Some(Dec(tail, ObjectComma, stack)) else None)
            && (NextToken(d).Some? <==> FirstFits(v))
            && (FirstFits(v) ==> NextToken(d).value.0 == FirstToken(v))
  {
    var d := Dec([Colon] + (Lexemes(v) + tail), ObjectColon, stack);
    ColonIsPassed(d, Lexemes(v) + tail);
    SkipExact(v, tail, ObjectValue, stack);
    assert (Lexemes(v) + tail)[0] == Lexemes(v)[0];
  }

  /** The decoder at a key, past it, and past its value. */
  lemma MemberRead(ms: seq<Member>, r: seq<Lexeme>, first: bool, stack: seq<Place>) returns (d1: Dec)
    requires ms != []
    ensures var d := Placed(ms, r, first, stack); More(d) && NextToken(d) == Some((Text(ms[0].key), d1))
    ensures SkipValue(d1) == if AllFit(ms[0].value) then Some(Placed(ms[1..], r, false, stack)) else None
    ensures NextToken(d1).Some? <==> FirstFits(ms[0].value)
    ensures FirstFits(ms[0].value) ==> NextToken(d1).value.0 == FirstToken(ms[0].value)
  {
    var tail := MoreMembers(ms[1..]) + r;
    var rest := [Colon] + (Lexemes(ms[0].value) + tail);
    if first { FirstMemberAndRest(ms, r); } else { NextMemberAndRest(ms, r); }
    KeyRead(ms[0].key, rest, stack, first);
    d1 := Dec(rest, ObjectColon, stack);
    ValueRead(ms[0].value, tail, stack);
  }

  lemma {:induction false} ParseMembersFindsFirst(ms: seq<Member>, r: seq<Lexeme>, first: bool, stack: seq<Place>)
    ensures ParseMembers(Placed(ms, r, first, stack)) == if LeadFits(ms) then Model(FirstModel(ms)) else Invalid
    decreases |ms|
  {
    if ms == [] {
      assert Placed(ms, r, first, stack).rest[0].RBrace?;
    } else {
      var d1 := MemberRead(ms, r, first, stack);
      ParseMembersFindsFirst(ms[1..], r, false, stack);
    }
  }

  /** On an object the router finds the first top-level "model" member, never a nested one, and
      whatever follows that member does not matter; it rejects the body exactly when a number it meets
      on the way, up to the first token of that member's value, does not fit. */
  lemma ParseFindsFirstModel(ms: seq<Member>, r: seq<Lexeme>)
    ensures ParseRoutingFields(Lexemes(JObject(ms)) + r) == if LeadFits(ms) then Model(FirstModel(ms)) else Invalid
  {
    var body := Lexemes(JObject(ms)) + r;
    assert body[1..] == MemberLexemes(ms) + r;
    assert [] + [TopValue] == [TopValue];
    ParseMembersFindsFirst(ms, r, true, [TopValue]);
  }

  /** Members in front of a "model" member, with the comma that leads on. */
  function Leading(ms: seq<Member>, first: bool): seq<Lexeme> {
    (if first then [] else [Comma])
    + (if ms == [] then [] else [Quoted(ms[0].key), Colon] + Lexemes(ms[0].value) + Leading(ms[1..], false))
  }

  /** What the router makes of the first lexeme behind "model" and its colon. */
  function Verdict(x: Lexeme): Routed {
    match x
    case Quoted(s) => Model(s)
    case Plain(a) => if Fits(a) then Model("") else Invalid
    case LBrace => Model("")
    case LBracket => Model("")
    case _ => Invalid
  }

  lemma ModelRead(x: Lexeme, z: seq<Lexeme>, first: bool, stack: seq<Place>)
    ensures ParseMembers(Dec((if first then [] else [Comma]) + ([Quoted("model"), Colon, x] + z),
                             if first then ObjectStart else ObjectComma, stack)) == Verdict(x)
  {
    var d := Dec((if first then [] else [Comma]) + ([Quoted("model"), Colon, x] + z),
                 if first then ObjectStart else ObjectComma, stack);
    var rest := [Colon] + ([x] + z);
    assert d.rest == (if first then [Quoted("model")] else [Comma, Quoted("model")]) + rest;
    KeyRead("model", rest, stack, first);
    var d1 := Dec(rest, ObjectColon, stack);
    ColonIsPassed(d1, [x] + z);
    assert ([x] + z)[0] == x;
  }

  lemma FirstLeadingAndRest(ms: seq<Member>, goal: seq<Lexeme>)
    requires ms != []
    ensures Leading(ms, true) + goal
         == [Quoted(ms[0].key)] + ([Colon] + (Lexemes(ms[0].value) + (Leading(ms[1..], false) + goal)))
  {
    var a, b := Lexemes(ms[0].value), Leading(ms[1..], false);
    assert Leading(ms, true) == [Quoted(ms[0].key)] + [Colon] + a + b;
    ColonRegroup([Quoted(ms[0].key)], a, b, goal);
  }

  lemma NextLeadingAndRest(ms: seq<Member>, goal: seq<Lexeme>)
    requires ms != []
    ensures Leading(ms, false) + goal
         == [Comma, Quoted(ms[0].key)] + ([Colon] + (Lexemes(ms[0].value) + (Leading(ms[1..], false) + goal)))
  {
    var a, b := Lexemes(ms[0].value), Leading(ms[1..], false);
    assert Leading(ms, false) == [Comma, Quoted(ms[0].key)] + [Colon] + a + b;
    ColonRegroup([Comma, Quoted(ms[0].key)], a, b, goal);
  }

  lemma {:induction false} LeadingIsSkipped(ms: seq<Member>, first: bool, x: Lexeme, z: seq<Lexeme>, stack: seq<Place>)
    requires forall i :: 0 <= i < |ms| ==> ms[i].key != "model"
    ensures ParseMembers(Dec(Leading(ms, first) + ([Quoted("model"), Colon, x] + z),
                             if first then ObjectStart else ObjectComma, stack))
         == if MembersFit(ms) then Verdict(x) else Invalid
    decreases |ms|
  {
    var goal := [Quoted("model"), Colon, x] + z;
    if ms == [] {
      assert Leading(ms, first) == if first then [] else [Comma];
      ModelRead(x, z, first, stack);
    } else {
      var tail := Leading(ms[1..], false) + goal;
      var rest := [Colon] + (Lexemes(ms[0].value) + tail);
      if first { FirstLeadingAndRest(ms, goal); } else { NextLeadingAndRest(ms, goal); }
      KeyRead(ms[0].key, rest, stack, first);
      ValueRead(ms[0].value, tail, stack);
      LeadingIsSkipped(ms[1..], false, x, z, stack);
    }
  }

  /** With numbers that fit in front of it, the answer is settled by the lexeme behind the first
      "model" member's colon; the input behind it may be anything, even no JSON at all. */
  lemma {:induction false} RoutingStopsAtModel(ms: seq<Member>, x: Lexeme, z: seq<Lexeme>)
    requires forall i :: 0 <= i < |ms| ==> ms[i].key != "model"
    ensures ParseRoutingFields([LBrace] + Leading(ms, true) + [Quoted("model"), Colon, x] + z)
         == if MembersFit(ms) then Verdict(x) else Invalid
  {
    var body := [LBrace] + Leading(ms, true) + [Quoted("model"), Colon, x] + z;
    assert body[1..] == Leading(ms, true) + ([Quoted("model"), Colon, x] + z);
    assert [] + [TopValue] == [TopValue];
    LeadingIsSkipped(ms, true, x, z, [TopValue]);
  }

  // --------------------------------------------- which bodies are routed, and where

  predicate NoModel(ms: seq<Member>) {
    forall i :: 0 <= i < |ms| ==> ms[i].key != "model"
  }

  /** Members in a row, with no comma behind the last. */
  function InRow(ms: seq<Member>, first: bool): seq<Lexeme> {
    if ms == [] then []
    else
      (if first then [Quoted(ms[0].key)] else [Comma, Quoted(ms[0].key)])
      + [Colon] + Lexemes(ms[0].value) + InRow(ms[1..], false)
  }

  /** The input is used up, or something closes. */
  predicate Stops(z: seq<Lexeme>) {
    z == [] || z[0].RBracket? || z[0].RBrace?
  }

  lemma InRowAndRest(ms: seq<Member>, first: bool, z: seq<Lexeme>)
    requires ms != []
    ensures InRow(ms, first) + z
         == (if first then [Quoted(ms[0].key)] else [Comma, Quoted(ms[0].key)])
            + ([Colon] + (Lexemes(ms[0].value) + (InRow(ms[1..], false) + z)))
  {
    ColonRegroup(if first then [Quoted(ms[0].key)] else [Comma, Quoted(ms[0].key)],
                 Lexemes(ms[0].value), InRow(ms[1..], false), z);
  }

  lemma {:induction false} RunsOut(ms: seq<Member>, first: bool, z: seq<Lexeme>, stack: seq<Place>)
    requires NoModel(ms) && MembersFit(ms) && Stops(z)
    ensures ParseMembers(Dec(InRow(ms, first) + z, if first then ObjectStart else ObjectComma, stack)) == Model("")
    decreases |ms|
  {
    if ms == [] {
      assert [] + z == z;
    } else {
      var tail := InRow(ms[1..], false) + z;
      InRowAndRest(ms, first, z);
      KeyRead(ms[0].key, [Colon] + (Lexemes(ms[0].value) + tail), stack, first);
      ValueRead(ms[0].value, tail, stack);
      RunsOut(ms[1..], false, z, stack);
    }
  }

  /** The lexeme behind a key and its colon. */
  lemma ValueBegins(d1: Dec) returns (x: Lexeme, z: seq<Lexeme>)
    requires d1.place.ObjectColon? && NextToken(d1).Some?
    ensures d1.rest == [Colon, x] + z
    ensures Verdict(x) == Model(if NextToken(d1).value.0.Text? then NextToken(d1).value.0.s else "")
  {
    var behind := ColonTaken(d1);
    x, z := behind.rest[0], behind.rest[1..];
    assert [Colon] + ([x] + z) == [Colon, x] + z && behind.rest == [x] + z;
  }

  lemma ModelConsumed(d: Dec, first: bool) returns (x: Lexeme, z: seq<Lexeme>)
    requires d.place == (if first then ObjectStart else ObjectComma) && More(d) && ParseMembers(d).Model?
    requires NextToken(d).Some? && NextToken(d).value.0 == Text("model")
    ensures d.rest == Leading([], first) + ([Quoted("model"), Colon, x] + z) && ParseMembers(d) == Verdict(x)
  {
    var key, d1 := KeyTaken(d, first);
    x, z := ValueBegins(d1);
    ModelJoined(x, z);
    assert Leading([], first) == if first then [] else [Comma];
    CommaJoined(Quoted("model"), [Colon, x] + z);
  }

  lemma ModelJoined(x: Lexeme, z: seq<Lexeme>)
    ensures [Quoted("model")] + ([Colon, x] + z) == [Quoted("model"), Colon, x] + z
  {
  }

  /** What a body that is routed looks like from here on: members that are skipped, and then either the
      "model" member or the end. */
  lemma {:induction false} ParseConsumes(d: Dec, first: bool) returns (ms: seq<Member>, found: bool, x: Lexeme, z: seq<Lexeme>)
    requires d.place == (if first then ObjectStart else ObjectComma) && ParseMembers(d).Model?
    ensures NoModel(ms) && MembersFit(ms)
    ensures found ==> d.rest == Leading(ms, first) + ([Quoted("model"), Colon, x] + z) && ParseMembers(d) == Verdict(x)
    ensures !found ==> d.rest == InRow(ms, first) + z && Stops(z) && ParseMembers(d) == Model("")
    decreases |d.rest|
  {
    if !More(d) {
      ms, found, x, z := [], false, Bad, d.rest;
      assert [] + z == z;
    } else if NextToken(d).value.0.s == "model" {
      ms, found := [], true;
      x, z := ModelConsumed(d, first);
    } else {
      var m, d2 := SkipMemberConsumes(d, first);
      var more;
      more, found, x, z := ParseConsumes(d2, false);
      ms := [m] + more;
      assert ms[1..] == more;
      if found {
        if first { FirstLeadingAndRest(ms, [Quoted("model"), Colon, x] + z); }
        else { NextLeadingAndRest(ms, [Quoted("model"), Colon, x] + z); }
      } else {
        InRowAndRest(ms, first, z);
      }
    }
  }

  /** The body opens an object, and behind members that are well formed has a "model" member whose first
      lexeme gives the name. */
  ghost predicate NamesModel(body: seq<Lexeme>, name: string) {
    exists ms, x, z :: NoModel(ms) && MembersFit(ms) && Verdict(x) == Model(name)
                       && body == [LBrace] + (Leading(ms, true) + ([Quoted("model"), Colon, x] + z))
  }

  /** The body opens an object, and behind members that are well formed it ends or something closes. */
  ghost predicate EndsUnnamed(body: seq<Lexeme>) {
    exists ms, z :: NoModel(ms) && MembersFit(ms) && Stops(z) && body == [LBrace] + (InRow(ms, true) + z)
  }

  /** Every input at all, JSON or not: it is routed to a name exactly if it has one of these two forms,
      and rejected otherwise. */
  lemma RoutedExactly(body: seq<Lexeme>, name: string)
    ensures ParseRoutingFields(body) == Model(name) <==> NamesModel(body, name) || (name == "" && EndsUnnamed(body))
  {
    if ParseRoutingFields(body) == Model(name) {
      var d := NextToken(Dec(body, TopValue, [])).value.1;
      assert body == [LBrace] + d.rest;
      var ms, found, x, z := ParseConsumes(d, true);
    }
    if NamesModel(body, name) {
      var ms, x, z :| NoModel(ms) && MembersFit(ms) && Verdict(x) == Model(name)
                      && body == [LBrace] + (Leading(ms, true) + ([Quoted("model"), Colon, x] + z));
      LeadingIsSkipped(ms, true, x, z, [TopValue]);
      BodyOpens(body, Leading(ms, true) + ([Quoted("model"), Colon, x] + z));
    }
    if name == "" && EndsUnnamed(body) {
      var ms, z :| NoModel(ms) && MembersFit(ms) && Stops(z) && body == [LBrace] + (InRow(ms, true) + z);
      RunsOut(ms, true, z, [TopValue]);
      BodyOpens(body, InRow(ms, true) + z);
    }
  }

  lemma BodyOpens(body: seq<Lexeme>, inside: seq<Lexeme>)
    requires body == [LBrace] + inside
    ensures ParseRoutingFields(body) == ParseMembers(Dec(inside, ObjectStart, [TopValue]))
  {
    assert body[1..] == inside && [] + [TopValue] == [TopValue];
  }

  // ------------------------------------------------------ the two Responses paths

  /** The letter a name is matched by: upper and lower case, and the two letters outside ASCII whose
      case folds into it (U+017F and U+212A). */
  function FoldChar(c: char): char {
    if 'A' <= c <= 'Z' then (c as int - 'A' as int + 'a' as int) as char
    else if c == '\U{017F}' then 's'
    else if c == '\U{212A}' then 'k'
    else c
  }

  predicate FoldsTo(key: string, name: string) {
    |key| == |name| && forall i :: 0 <= i < |key| ==> FoldChar(key[i]) == name[i]
  }

  /** What decoding the whole body into the two-field record gives. */
  datatype Peeked = Peeked(model: string, stream: bool)

  function PeekMember(p: Peeked, m: Member): Option<Peeked> {
    if FoldsTo(m.key, "model") then
      match m.value
      case JString(s) => Some(p.(model := s))
      case JAtom(Null) => Some(p)
      case _ => None
    else if FoldsTo(m.key, "stream") then
      match m.value
      case JAtom(Bool(b)) => Some(p.(stream := b))
      case JAtom(Null) => Some(p)
      case _ => None
    else Some(p)
  }

  function PeekMembers(p: Peeked, ms: seq<Member>): Option<Peeked>
    decreases |ms|
  {
    if ms == [] then Some(p)
    else
      match PeekMember(p, ms[0])
      case Some(p') => PeekMembers(p', ms[1..])
      case None => None
  }

  /** The peek of `HandleResponses`: `None` when the body is rejected. */
  function Peek(v: Json): Option<Peeked> {
    match v
    case JObject(ms) => PeekMembers(Peeked("", false), ms)
    case JAtom(Null) => Some(Peeked("", false))
    case _ => None
  }

  /** At most one member spells "model" in any case, and that one spells it exactly. */
  predicate ModelOnce(ms: seq<Member>) {
    && (forall i :: 0 <= i < |ms| && FoldsTo(ms[i].key, "model") ==> ms[i].key == "model")
    && (forall i, j :: 0 <= i < j < |ms| && ms[i].key == "model" ==> ms[j].key != "model")
  }

  /** The text of the last member that spells "model" in any case and holds text. */
  function LastSpelled(ms: seq<Member>, otherwise: string): string {
    if ms == [] then otherwise
    else
      var m := ms[|ms| - 1];
      if FoldsTo(m.key, "model") && m.value.JString? then m.value.s else LastSpelled(ms[..|ms| - 1], otherwise)
  }

  lemma {:induction false} LastSpelledCons(ms: seq<Member>, otherwise: string)
    requires ms != []
    ensures LastSpelled(ms, otherwise)
         == LastSpelled(ms[1..], if FoldsTo(ms[0].key, "model") && ms[0].value.JString? then ms[0].value.s else otherwise)
  {
    var n := |ms| - 1;
    if n > 0 {
      assert ms[1..][n - 1] == ms[n] && ms[1..][..n - 1] == ms[..n][1..];
      LastSpelledCons(ms[..n], otherwise);
    }
  }

  lemma {:induction false} PeekIsLastSpelled(p: Peeked, ms: seq<Member>)
    requires PeekMembers(p, ms).Some?
    ensures PeekMembers(p, ms).value.model == LastSpelled(ms, p.model)
    decreases |ms|
  {
    if ms != [] {
      var p' := PeekMember(p, ms[0]).value;
      LastSpelledCons(ms, p.model);
      assert FoldsTo("stream", "stream");
      PeekIsLastSpelled(p', ms[1..]);
    }
  }

  /** Decoding stops at the first member it cannot take; nothing else decides. */
  predicate Takes(m: Member) {
    && (FoldsTo(m.key, "model") ==> m.value.JString? || m.value == JAtom(Null))
    && (FoldsTo(m.key, "stream") ==> m.value == JAtom(Bool(true)) || m.value == JAtom(Bool(false)) || m.value == JAtom(Null))
  }

  lemma NoNameFoldsToBoth(key: string)
    ensures !(FoldsTo(key, "model") && FoldsTo(key, "stream"))
  {
    assert |"model"| != |"stream"|;
  }

  /** The peek accepts an object exactly if every member that spells "model" holds text or null and every
      member that spells "stream" holds a boolean or null. */
  lemma {:induction false} PeekAccepts(p: Peeked, ms: seq<Member>)
    ensures PeekMembers(p, ms).Some? <==> forall i :: 0 <= i < |ms| ==> Takes(ms[i])
    decreases |ms|
  {
    if ms != [] {
      NoNameFoldsToBoth(ms[0].key);
      assert PeekMember(p, ms[0]).Some? <==> Takes(ms[0]);
      if PeekMember(p, ms[0]).Some? { PeekAccepts(PeekMember(p, ms[0]).value, ms[1..]); }
      assert forall i :: 1 <= i < |ms| ==> ms[i] == ms[1..][i - 1];
    }
  }

  predicate Says(m: Member, b: bool) {
    FoldsTo(m.key, "stream") && m.value == JAtom(Bool(b))
  }

  /** b is the last boolean under a name that spells "stream", or `otherwise` if there is none. */
  predicate IsLastSaid(ms: seq<Member>, otherwise: bool, b: bool) {
    || (b == otherwise && forall i :: 0 <= i < |ms| ==> !Says(ms[i], true) && !Says(ms[i], false))
    || exists i :: 0 <= i < |ms| && Says(ms[i], b) && forall j :: i < j < |ms| ==> !Says(ms[j], !b)
  }

  lemma LastSaidCons(ms: seq<Member>, otherwise: bool, next: bool, b: bool)
    requires ms != [] && IsLastSaid(ms[1..], next, b)
    requires if Says(ms[0], true) then next else if Says(ms[0], false) then !next else next == otherwise
    ensures IsLastSaid(ms, otherwise, b)
  {
    var rest := ms[1..];
    assert forall i :: 1 <= i < |ms| ==> ms[i] == rest[i - 1];
    if i :| 0 <= i < |rest| && Says(rest[i], b) && forall j :: i < j < |rest| ==> !Says(rest[j], !b) {
      assert Says(ms[i + 1], b);
    } else if Says(ms[0], true) || Says(ms[0], false) {
      assert Says(ms[0], b);
    }
  }

  /** The peek's `stream` is the last boolean under a name that spells it in any case. */
  lemma {:induction false} PeekIsLastSaid(p: Peeked, ms: seq<Member>)
    requires PeekMembers(p, ms).Some?
    ensures IsLastSaid(ms, p.stream, PeekMembers(p, ms).value.stream)
    decreases |ms|
  {
    if ms != [] {
      var p' := PeekMember(p, ms[0]).value;
      NoNameFoldsToBoth(ms[0].key);
      PeekIsLastSaid(p', ms[1..]);
      LastSaidCons(ms, p.stream, p'.stream, PeekMembers(p, ms).value.stream);
    }
  }

  /** There is one such flag. */
  lemma LastSaidOnce(ms: seq<Member>, otherwise: bool, b: bool, c: bool)
    requires IsLastSaid(ms, otherwise, b) && IsLastSaid(ms, otherwise, c)
    ensures b == c
  {
    forall i, j | 0 <= i < |ms| && 0 <= j < |ms| && Says(ms[i], b) && Says(ms[j], !b) ensures i != j {}
  }

  /** What `HandleResponses` does with a body: reject it, pass it on to be routed by its tokens, or
      stream it itself for the model it peeked. */
  datatype Handling = Rejected | PassedOn(routed: Routed) | Streamed(model: string)

  function HandleResponses(v: Json, r: seq<Lexeme>): Handling {
    match Peek(v)
    case None => Rejected
    case Some(p) => if p.stream then Streamed(p.model) else PassedOn(ParseRoutingFields(Lexemes(v) + r))
  }

  /** For every object: rejected exactly if a member has the wrong kind of value; else streamed, for the
      last text spelled "model", exactly if the last boolean spelled "stream" is true; else passed on to
      the first "model" member. */
  lemma HandledBy(ms: seq<Member>, r: seq<Lexeme>)
    ensures match HandleResponses(JObject(ms), r)
            case Rejected => exists i :: 0 <= i < |ms| && !Takes(ms[i])
            case Streamed(model) =>
              (forall i :: 0 <= i < |ms| ==> Takes(ms[i])) && IsLastSaid(ms, false, true) && model == LastSpelled(ms, "")
            case PassedOn(routed) =>
              && (forall i :: 0 <= i < |ms| ==> Takes(ms[i])) && IsLastSaid(ms, false, false)
              && routed == if LeadFits(ms) then Model(FirstModel(ms)) else Invalid
    ensures HandleResponses(JObject(ms), r).Streamed? <==>
              (forall i :: 0 <= i < |ms| ==> Takes(ms[i])) && IsLastSaid(ms, false, true)
  {
    PeekAccepts(Peeked("", false), ms);
    if Peek(JObject(ms)).Some? {
      PeekIsLastSaid(Peeked("", false), ms);
      PeekIsLastSpelled(Peeked("", false), ms);
      ParseFindsFirstModel(ms, r);
      if IsLastSaid(ms, false, true) { LastSaidOnce(ms, false, true, Peek(JObject(ms)).value.stream); }
    }
  }

  /** The long s and upper case spell "stream" too. */
  lemma SpelledStream(r: seq<Lexeme>)
    ensures HandleResponses(JObject([Member("\U{017F}TREAM", JAtom(Bool(true))), Member("MODEL", JString("m"))]), r) == Streamed("m")
  {
    var ms := [Member("\U{017F}TREAM", JAtom(Bool(true))), Member("MODEL", JString("m"))];
    assert FoldsTo("\U{017F}TREAM", "stream") && FoldsTo("MODEL", "model");
    NoNameFoldsToBoth("\U{017F}TREAM");
    assert ms[1..] == [ms[1]] && ms[1..][1..] == [];
    assert PeekMembers(Peeked("", true), ms[1..]) == PeekMembers(Peeked("m", true), []);
  }

  /** An object the Responses handler accepts is routed alike by the whole-body peek and by the token
      stream exactly when its first "model" member and the last text spelled that way agree, and no
      number in front of that member is out of range: the peek never converts a member it does not
      know. */
  lemma RoutingAgreesIff(ms: seq<Member>, r: seq<Lexeme>)
    requires Peek(JObject(ms)).Some?
    ensures ParseRoutingFields(Lexemes(JObject(ms)) + r) == Model(Peek(JObject(ms)).value.model)
       <==> LeadFits(ms) && FirstModel(ms) == LastSpelled(ms, "")
  {
    PeekIsLastSpelled(Peeked("", false), ms);
    ParseFindsFirstModel(ms, r);
  }

  lemma {:induction false} NoneSpelled(ms: seq<Member>)
    requires forall i :: 0 <= i < |ms| ==> !FoldsTo(ms[i].key, "model")
    ensures forall otherwise :: LastSpelled(ms, otherwise) == otherwise
  {
    if ms != [] { NoneSpelled(ms[..|ms| - 1]); }
  }

  lemma {:induction false} OnceIsBoth(ms: seq<Member>)
    requires ModelOnce(ms)
    ensures FirstModel(ms) == LastSpelled(ms, "")
    decreases |ms|
  {
    if ms != [] {
      LastSpelledCons(ms, "");
      forall i | 0 <= i < |ms[1..]| ensures ms[1..][i] == ms[i + 1] {}
      if ms[0].key == "model" {
        assert FoldsTo("model", "model");
        NoneSpelled(ms[1..]);
      } else {
        OnceIsBoth(ms[1..]);
      }
    }
  }

  /** With at most one member spelling "model" in any case, that one exactly, only the numbers are
      left to decide. */
  lemma SameRouting(ms: seq<Member>, r: seq<Lexeme>)
    requires Peek(JObject(ms)).Some? && ModelOnce(ms)
    ensures ParseRoutingFields(Lexemes(JObject(ms)) + r) == Model(Peek(JObject(ms)).value.model) <==> LeadFits(ms)
  {
    OnceIsBoth(ms);
    RoutingAgreesIff(ms, r);
  }

  /** Without those conditions the two readings part: repeated names, another spelling, a number out
      of range, and a body that is `null`. */
  lemma RoutingCanDiffer(r: seq<Lexeme>)
    ensures var twice := [Member("model", JString("a")), Member("model", JString("b"))];
            && Peek(JObject(twice)) == Some(Peeked("b", false))
            && ParseRoutingFields(Lexemes(JObject(twice)) + r) == Model("a")
    ensures var upper := [Member("Model", JString("a"))];
            && Peek(JObject(upper)) == Some(Peeked("a", false))
            && ParseRoutingFields(Lexemes(JObject(upper)) + r) == Model("")
    ensures var huge := [Member("x", JAtom(Number("1e400", false))), Member("model", JString("a"))];
            && Peek(JObject(huge)) == Some(Peeked("a", false))
            && ParseRoutingFields(Lexemes(JObject(huge)) + r) == Invalid
    ensures Peek(JAtom(Null)) == Some(Peeked("", false)) && ParseRoutingFields(Lexemes(JAtom(Null)) + r) == Invalid
  {
    SpellingsDiffer(r);
    HugeNumberDiffers(r);
    NullDiffers(r);
  }

  lemma NullDiffers(r: seq<Lexeme>)
    ensures Peek(JAtom(Null)) == Some(Peeked("", false)) && ParseRoutingFields(Lexemes(JAtom(Null)) + r) == Invalid
  {
    assert (Lexemes(JAtom(Null)) + r)[0] == Plain(Null);
  }

  lemma HugeNumberDiffers(r: seq<Lexeme>)
    ensures var huge := [Member("x", JAtom(Number("1e400", false))), Member("model", JString("a"))];
            && Peek(JObject(huge)) == Some(Peeked("a", false))
            && ParseRoutingFields(Lexemes(JObject(huge)) + r) == Invalid
  {
    var huge := [Member("x", JAtom(Number("1e400", false))), Member("model", JString("a"))];
    assert FoldsTo("model", "model") && !FoldsTo("x", "model") && !FoldsTo("x", "stream");
    assert huge[1..] == [huge[1]] && huge[1..][1..] == [];
    assert PeekMembers(Peeked("", false), huge[1..]) == PeekMembers(Peeked("a", false), []);
    ParseFindsFirstModel(huge, r);
  }

  lemma SpellingsDiffer(r: seq<Lexeme>)
    ensures var twice := [Member("model", JString("a")), Member("model", JString("b"))];
            && Peek(JObject(twice)) == Some(Peeked("b", false))
            && ParseRoutingFields(Lexemes(JObject(twice)) + r) == Model("a")
    ensures var upper := [Member("Model", JString("a"))];
            && Peek(JObject(upper)) == Some(Peeked("a", false))
            && ParseRoutingFields(Lexemes(JObject(upper)) + r) == Model("")
  {
    var twice := [Member("model", JString("a")), Member("model", JString("b"))];
    var upper := [Member("Model", JString("a"))];
    assert FoldsTo("model", "model") && FoldsTo("Model", "model");
    assert twice[1..] == [twice[1]] && twice[1..][1..] == [] && upper[1..] == [];
    assert PeekMembers(Peeked("a", false), twice[1..]) == PeekMembers(Peeked("b", false), []);
    ParseFindsFirstModel(twice, r);
    ParseFindsFirstModel(upper, r);
  }
}
