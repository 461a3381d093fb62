/** The wire form of the events the translator sends, and the two readers of it: a client that follows
    section 9.2.6 of the WHATWG HTML Standard, and the translator's own line rule. */
module Framing {
  import opened Flatten
  import opened Options
  import opened Translation

  datatype Frame = Frame(kind: string, data: string)

  function Written(f: Frame): string {
    "event: " + f.kind + "\n" + ("data: " + f.data) + "\n" + "\n"
  }

  function Wire(fs: seq<Frame>): string {
    FlatMap(Written, fs)
  }

  // --------------------------------------------------- an event stream client

  const BOM: char := '\U{FEFF}'

  /** The position of the first line terminator at or after i, or the length. */
  function Terminator(raw: string, i: nat): (e: nat)
    requires i <= |raw|
    ensures i <= e <= |raw|
    decreases |raw| - i
  {
    if i == |raw| || IsEol(raw[i]) then i else Terminator(raw, i + 1)
  }

  /** The position behind the terminator at e: LF, CR, or CR LF. */
  function Behind(raw: string, e: nat): (n: nat)
    requires e < |raw|
    ensures e < n <= |raw|
  {
    if raw[e] == '\r' && e + 1 < |raw| && raw[e + 1] == '\n' then e + 2 else e + 1
  }

  /** The terminated lines from position i on; an unterminated last line is dropped. */
  function EndedFrom(raw: string, i: nat): seq<string>
    requires i <= |raw|
    decreases |raw| - i
  {
    var e := Terminator(raw, i);
    if e == |raw| then [] else [raw[i..e]] + EndedFrom(raw, Behind(raw, e))
  }

  function EndedLines(raw: string): seq<string> {
    EndedFrom(raw, 0)
  }

  /** The event type buffer and the data buffer. */
  datatype Buffers = Buffers(kind: string, data: string)

  const CLEAR := Buffers("", "")

  function Colon(line: string, i: nat): (c: nat)
    requires i <= |line|
    ensures i <= c <= |line|
    decreases |line| - i
  {
    if i == |line| || line[i] == ':' then i else Colon(line, i + 1)
  }

  function DropSpace(value: string): string {
    if value != "" && value[0] == ' ' then value[1..] else value
  }

  /** A line that is not blank. Fields other than these two do not touch the buffers; a line that
      starts with a colon is a comment, its field name is empty. */
  function Feed(b: Buffers, line: string): Buffers {
    var c := Colon(line, 0);
    var field, value := line[..c], if c == |line| then "" else DropSpace(line[c + 1..]);
    if field == "event" then b.(kind := value)
    else if field == "data" then b.(data := b.data + value + "\n")
    else b
  }

  /** A blank line. */
  function Dispatch(b: Buffers): seq<Frame> {
    if b.data == "" then []
    else [Frame(if b.kind == "" then "message" else b.kind,
                if b.data[|b.data| - 1] == '\n' then b.data[..|b.data| - 1] else b.data)]
  }

  function Interpret(lines: seq<string>, b: Buffers): seq<Frame> {
    if lines == [] then []
    else if lines[0] == "" then Dispatch(b) + Interpret(lines[1..], CLEAR)
    else Interpret(lines[1..], Feed(b, lines[0]))
  }

  function ParseStream(raw: string): seq<Frame> {
    Interpret(EndedLines(if raw != "" && raw[0] == BOM then raw[1..] else raw), CLEAR)
  }

  // ------------------------------------------------------------- round trips

  predicate OneLiner(s: string) { '\r' !in s && '\n' !in s }

  lemma {:induction false} TerminatorAt(line: string, eol: string, rest: string, i: nat)
    requires OneLiner(line) && eol != "" && IsEol(eol[0]) && i <= |line|
    ensures Terminator(line + eol + rest, i) == |line|
    decreases |line| - i
  {
    assert (line + eol + rest)[|line|] == eol[0];
    if i < |line| {
      assert (line + eol + rest)[i] == line[i];
      TerminatorAt(line, eol, rest, i + 1);
    }
  }

  lemma {:induction false} TerminatorShift(a: string, b: string, i: nat)
    requires i <= |b|
    ensures Terminator(a + b, |a| + i) == |a| + Terminator(b, i)
    decreases |b| - i
  {
    if i < |b| {
      assert (a + b)[|a| + i] == b[i];
      TerminatorShift(a, b, i + 1);
    }
  }

  lemma EndedShiftStep(a: string, b: string, i: nat)
    requires i <= |b|
    ensures var e := Terminator(b, i);
            && Terminator(a + b, |a| + i) == |a| + e
            && (a + b)[|a| + i..|a| + e] == b[i..e]
            && (e < |b| ==> Behind(a + b, |a| + e) == |a| + Behind(b, e))
  {
    TerminatorShift(a, b, i);
  }

  lemma {:induction false} EndedShift(a: string, b: string, i: nat)
    requires i <= |b|
    ensures EndedFrom(a + b, |a| + i) == EndedFrom(b, i)
    decreases |b| - i
  {
    var e := Terminator(b, i);
    EndedShiftStep(a, b, i);
    if e < |b| { EndedShift(a, b, Behind(b, e)); }
  }

  lemma FirstEndedLine(line: string, rest: string)
    requires OneLiner(line)
    ensures EndedLines(line + "\n" + rest) == [line] + EndedLines(rest)
  {
    var raw := line + "\n" + rest;
    TerminatorAt(line, "\n", rest, 0);
    assert raw[|line|] == '\n';
    assert raw[0..|line|] == line;
    EndedShift(line + "\n", rest, 0);
  }

  lemma {:induction false} ColonOf(name: string, rest: string, i: nat)
    requires ':' !in name && i <= |name|
    ensures Colon(name + ":" + rest, i) == |name|
    decreases |name| - i
  {
    if i < |name| {
      assert (name + ":" + rest)[i] == name[i];
      ColonOf(name, rest, i + 1);
    }
  }

  lemma FeedField(b: Buffers, name: string, value: string)
    requires ':' !in name
    ensures Feed(b, name + ":" + (" " + value))
         == if name == "event" then b.(kind := value)
            else if name == "data" then b.(data := b.data + value + "\n")
            else b
  {
    var line := name + ":" + (" " + value);
    ColonOf(name, " " + value, 0);
    assert line[..|name|] == name;
    assert line[|name| + 1..] == " " + value;
    assert DropSpace(" " + value) == value;
  }

  predicate Framable(f: Frame) { OneLiner(f.kind) && OneLiner(f.data) }

  function Heard(f: Frame): Frame {
    if f.kind == "" then f.(kind := "message") else f
  }

  lemma ThreeLines(one: string, two: string, rest: string)
    requires OneLiner(one) && OneLiner(two)
    ensures EndedLines(one + "\n" + (two + "\n" + ("" + "\n" + rest))) == [one, two, ""] + EndedLines(rest)
  {
    var tail := "" + "\n" + rest;
    FirstEndedLine(one, two + "\n" + tail);
    FirstEndedLine(two, tail);
    FirstEndedLine("", rest);
  }

  lemma Regrouped(one: string, two: string, rest: string)
    ensures one + "\n" + two + "\n" + "\n" + rest == one + "\n" + (two + "\n" + ("" + "\n" + rest))
  {
  }

  lemma WrittenLines(f: Frame, rest: string)
    requires Framable(f)
    ensures EndedLines(Written(f) + rest) == ["event: " + f.kind, "data: " + f.data, ""] + EndedLines(rest)
  {
    ThreeLines("event: " + f.kind, "data: " + f.data, rest);
    Regrouped("event: " + f.kind, "data: " + f.data, rest);
  }

  lemma InterpretWritten(f: Frame, lines: seq<string>)
    ensures Interpret(["event: " + f.kind, "data: " + f.data, ""] + lines, CLEAR) == [Heard(f)] + Interpret(lines, CLEAR)
  {
    var one, two := "event: " + f.kind, "data: " + f.data;
    var all := [one, two, ""] + lines;
    assert all[1..] == [two, ""] + lines && all[1..][1..] == [""] + lines && all[1..][1..][1..] == lines;
    assert one == "event" + ":" + (" " + f.kind) && two == "data" + ":" + (" " + f.data);
    FeedField(CLEAR, "event", f.kind);
    FeedField(Buffers(f.kind, ""), "data", f.data);
    var b := Buffers(f.kind, "" + f.data + "\n");
    assert Feed(Feed(CLEAR, one), two) == b;
    assert b.data[..|b.data| - 1] == f.data;
    assert Dispatch(b) == [Heard(f)];
    assert Interpret([""] + lines, b) == [Heard(f)] + Interpret(lines, CLEAR);
  }

  function Hear(f: Frame): seq<Frame> { [Heard(f)] }

  lemma FlatMapFront<A, B>(f: A -> seq<B>, xs: seq<A>)
    requires xs != []
    ensures FlatMap(f, xs) == f(xs[0]) + FlatMap(f, xs[1..])
  {
    assert xs == [xs[0]] + xs[1..];
    FlatMapAppend(f, [xs[0]], xs[1..]);
    FlatMapOne(f, xs[0]);
  }

  lemma {:induction false} WireInterpreted(fs: seq<Frame>)
    requires forall f :: f in fs ==> Framable(f)
    ensures Interpret(EndedLines(Wire(fs)), CLEAR) == FlatMap(Hear, fs)
  {
    if fs != [] {
      FlatMapFront(Written, fs);
      FlatMapFront(Hear, fs);
      WrittenLines(fs[0], Wire(fs[1..]));
      InterpretWritten(fs[0], EndedLines(Wire(fs[1..])));
      WireInterpreted(fs[1..]);
    }
  }

  lemma WireParsed(fs: seq<Frame>)
    requires forall f :: f in fs ==> Framable(f)
    ensures ParseStream(Wire(fs)) == FlatMap(Hear, fs)
  {
    WireInterpreted(fs);
    if fs != [] {
      FlatMapFront(Written, fs);
      assert Wire(fs)[0] == 'e';
    }
  }

  /** A client gets every event back exactly if every event has a type. */
  lemma RoundTrip(fs: seq<Frame>)
    requires forall f :: f in fs ==> Framable(f)
    ensures ParseStream(Wire(fs)) == fs <==> forall f :: f in fs ==> f.kind != ""
  {
    WireParsed(fs);
    SinglesAt(Hear, fs, |fs|);
    if forall f :: f in fs ==> f.kind != "" {
      assert ParseStream(Wire(fs)) == fs;
    } else {
      var i :| 0 <= i < |fs| && fs[i].kind == "";
      assert ParseStream(Wire(fs))[i] != fs[i];
    }
  }

  // ----------------------------------------------- the client beyond what is sent to it

  lemma FirstLineCrLf(line: string, rest: string)
    requires OneLiner(line)
    ensures EndedLines(line + "\r\n" + rest) == [line] + EndedLines(rest)
  {
    var raw := line + "\r\n" + rest;
    TerminatorAt(line, "\r\n", rest, 0);
    assert raw[|line|] == '\r' && raw[|line| + 1] == '\n' && raw[0..|line|] == line;
    EndedShift(line + "\r\n", rest, 0);
  }

  lemma {:induction false} NoneEnded(raw: string, i: nat)
    requires OneLiner(raw) && i <= |raw|
    ensures Terminator(raw, i) == |raw|
    decreases |raw| - i
  {
    if i < |raw| {
      assert raw[i] in raw;
      NoneEnded(raw, i + 1);
    }
  }

  /** The same lines whether LF or CR LF ends them. */
  lemma {:induction false} EndedCrLf(raw: string)
    requires '\r' !in raw
    ensures EndedLines(CrLf(raw)) == EndedLines(raw)
    decreases |raw|
  {
    if '\n' in raw {
      var n := LineLength(raw);
      LineEndMeaning(raw, 0);
      if raw[n - 1] != '\n' { LastLineText(raw); }
      var line := FirstLineText(raw);
      var rest := raw[n..];
      assert raw == line + "\n" + rest && OneLiner(line);
      CrLfAppend(line + "\n", rest);
      CrLfLine(line);
      FirstEndedLine(line, rest);
      FirstLineCrLf(line, CrLf(rest));
      EndedCrLf(rest);
    } else {
      CrLfKeeps(raw);
    }
  }

  /** A stream turned to CR LF is heard the same. */
  lemma HeardCrLf(raw: string)
    requires '\r' !in raw
    ensures ParseStream(CrLf(raw)) == ParseStream(raw)
  {
    EndedCrLf(raw);
    if raw != "" {
      assert raw == [raw[0]] + raw[1..];
      if raw[0] == BOM {
        EndedCrLf(raw[1..]);
        assert CrLf(raw)[1..] == CrLf(raw[1..]);
      }
      assert CrLf(raw)[0] == if raw[0] == '\n' then '\r' else raw[0];
    }
  }

  lemma FeedComment(b: Buffers, c: string)
    ensures Feed(b, ":" + c) == b
  {
  }

  lemma FeedData(b: Buffers, x: string)
    ensures Feed(b, "data: " + x) == Buffers(b.kind, b.data + x + "\n")
  {
    assert "data: " + x == "data" + ":" + (" " + x);
    FeedField(b, "data", x);
  }

  lemma FedTwice(x: string, y: string)
    ensures Feed(Feed(CLEAR, "data: " + x), "data: " + y) == Buffers("", x + "\n" + y + "\n")
  {
    FeedData(CLEAR, x);
    assert "" + x + "\n" == x + "\n";
    FeedData(Buffers("", x + "\n"), y);
  }

  lemma DispatchUntyped(x: string, y: string)
    ensures Dispatch(Buffers("", x + "\n" + y + "\n")) == [Frame("message", x + "\n" + y)]
  {
    var data := x + "\n" + y + "\n";
    assert data[..|data| - 1] == x + "\n" + y;
  }

  lemma InterpretUntyped(x: string, y: string)
    ensures Interpret(["data: " + x, "data: " + y, ""], CLEAR) == [Frame("message", x + "\n" + y)]
  {
    var two, three := "data: " + x, "data: " + y;
    assert [two, three, ""][1..] == [three, ""] && [three, ""][1..] == [""] && [""][1..] == [];
    FedTwice(x, y);
    DispatchUntyped(x, y);
    var b := Buffers("", x + "\n" + y + "\n");
    assert Interpret([""], b) == Dispatch(b) + Interpret([], CLEAR);
    assert Interpret([three, ""], Feed(CLEAR, two)) == Interpret([""], b);
  }

  lemma CommentPassed(c: string, lines: seq<string>)
    ensures Interpret([":" + c] + lines, CLEAR) == Interpret(lines, CLEAR)
  {
    assert ([":" + c] + lines)[1..] == lines;
    FeedComment(CLEAR, c);
  }

  /** A comment is passed over, the lines of data are joined, and an event without a type is a "message". */
  lemma HeardUntyped(c: string, x: string, y: string)
    requires OneLiner(c) && OneLiner(x) && OneLiner(y)
    ensures ParseStream(":" + c + "\n" + ("data: " + x + "\n" + ("data: " + y + "\n" + ("" + "\n" + ""))))
         == [Frame("message", x + "\n" + y)]
  {
    var rest := "data: " + x + "\n" + ("data: " + y + "\n" + ("" + "\n" + ""));
    FirstEndedLine(":" + c, rest);
    ThreeLines("data: " + x, "data: " + y, "");
    NoneEnded("", 0);
    assert ["data: " + x, "data: " + y, ""] + [] == ["data: " + x, "data: " + y, ""];
    CommentPassed(c, ["data: " + x, "data: " + y, ""]);
    InterpretUntyped(x, y);
    assert (":" + c + "\n" + rest)[0] == ':';
  }

  // ------------------------------------------------ the translator's own line rule

  /** One line that starts and ends like a JSON object. */
  predicate ObjectText(s: string) {
    OneLiner(s) && |s| >= 2 && s[0] == '{' && s[|s| - 1] == '}'
  }

  lemma DataLine(d: string)
    requires ObjectText(d)
    ensures LinePayload("data: " + d) == [d]
  {
    var l := "data: " + d;
    assert l[|l| - 1] == '}' && TrimEol(l) == l;
    assert DATA <= l && l[|DATA|..] == " " + d;
    assert (" " + d)[1..] == d;
    assert TrimLeft(" " + d) == TrimLeft(d) == d;
    assert TrimRight(d) == d;
  }

  lemma OtherLine(kind: string)
    ensures LinePayload("event: " + kind) == []
  {
    var l := "event: " + kind;
    var t := TrimEol(l);
    assert t == "" || t[0] == 'e';
    assert !(DATA <= t);
  }

  lemma WrittenPayload(f: Frame)
    requires OneLiner(f.kind) && ObjectText(f.data)
    ensures Payloads(Written(f)) == [f.data]
  {
    var one, two := "event: " + f.kind, "data: " + f.data;
    OneLinePayloads(one);
    OneLinePayloads(two);
    OneLinePayloads("");
    OtherLine(f.kind);
    DataLine(f.data);
    PayloadsAppend(one + "\n", two + "\n");
    PayloadsAppend(one + "\n" + (two + "\n"), "" + "\n");
    assert one + "\n" + (two + "\n") + ("" + "\n") == Written(f);
    assert LinePayload("") == [];
  }

  function DataOf(f: Frame): seq<string> { [f.data] }

  /** Fed back to the translator, the stream yields exactly the payloads. */
  lemma {:induction false} OwnRuleReadsBack(fs: seq<Frame>)
    requires forall f :: f in fs ==> OneLiner(f.kind) && ObjectText(f.data)
    ensures Payloads(Wire(fs)) == FlatMap(DataOf, fs)
  {
    if fs != [] {
      var first, rest := Written(fs[0]), Wire(fs[1..]);
      FlatMapFront(Written, fs);
      FlatMapFront(DataOf, fs);
      WrittenPayload(fs[0]);
      PayloadsAppend(first, rest);
      OwnRuleReadsBack(fs[1..]);
    }
  }

  // ------------------------------------------------------- what the emitter writes

  function TypeName(e: Event): string {
    match e
    case Created => "response.created"
    case InProgress => "response.in_progress"
    case ItemAdded => "response.output_item.added"
    case PartAdded => "response.content_part.added"
    case Delta(_) => "response.output_text.delta"
    case TextDone(_) => "response.output_text.done"
    case PartDone(_) => "response.content_part.done"
    case ItemDone(_) => "response.output_item.done"
    case Completed(_, _) => "response.completed"
    case Failed(_, _) => "response.error"
  }

  type Marshal = Sent -> string

  function FrameWith(marshal: Marshal): Sent -> seq<Frame> {
    (sent: Sent) => [Frame(TypeName(sent.event), marshal(sent))]
  }

  lemma TypeNameHasNoCr(e: Event)
    ensures TypeName(e) != "" && '\r' !in TypeName(e)
  {
  }

  lemma TypeNameHasNoLf(e: Event)
    ensures '\n' !in TypeName(e)
  {
  }

  lemma {:induction false} FramesPlain(out: seq<Sent>, marshal: Marshal, n: nat)
    requires n <= |out| && forall s :: s in out ==> ObjectText(marshal(s))
    ensures forall f :: f in FlatTo(FrameWith(marshal), out, n) ==>
              f.kind != "" && OneLiner(f.kind) && ObjectText(f.data)
  {
    if n > 0 {
      FramesPlain(out, marshal, n - 1);
      TypeNameHasNoCr(out[n - 1].event);
      TypeNameHasNoLf(out[n - 1].event);
    }
  }

  /** Whatever the translator has sent, a client recovers event by event, and so does the line rule,
      provided only that marshalling yields objects on one line. */
  lemma EmittedRoundTrip(out: seq<Sent>, marshal: Marshal)
    requires forall s :: s in out ==> ObjectText(marshal(s))
    ensures var fs := FlatMap(FrameWith(marshal), out);
            ParseStream(Wire(fs)) == fs && Payloads(Wire(fs)) == FlatMap(DataOf, fs)
  {
    FramesPlain(out, marshal, |out|);
    var fs := FlatMap(FrameWith(marshal), out);
    RoundTrip(fs);
    OwnRuleReadsBack(fs);
  }

  // ------------------------------------------------- the event language as a client sees it

  function KindOf(e: Event): seq<string> { [TypeName(e)] }

  function Kinds(es: seq<Event>): seq<string> {
    FlatMap(KindOf, es)
  }

  lemma KindsAt(es: seq<Event>)
    ensures |Kinds(es)| == |es| && forall i :: 0 <= i < |es| ==> Kinds(es)[i] == TypeName(es[i])
  {
    SinglesAt(KindOf, es, |es|);
  }

  /** n times the same type. */
  function Repeated(kind: string, n: nat): (r: seq<string>)
    ensures |r| == n && forall i :: 0 <= i < n ==> r[i] == kind
  {
    seq(n, _ => kind)
  }

  lemma {:induction false} DeltaKinds(ds: seq<string>, n: nat)
    requires n <= |ds|
    ensures Kinds(FlatTo(AsDelta, ds, n)) == Repeated("response.output_text.delta", n)
  {
    if n > 0 {
      DeltaKinds(ds, n - 1);
      FlatMapStep(KindOf, FlatTo(AsDelta, ds, n - 1), Delta(ds[n - 1]));
    }
  }

  lemma TwoKinds(a: Event, b: Event)
    ensures Kinds([a, b]) == [TypeName(a), TypeName(b)]
  {
    KindsAt([a, b]);
  }

  lemma FourKinds(a: Event, b: Event, c: Event, d: Event)
    ensures Kinds([a, b, c, d]) == [TypeName(a), TypeName(b), TypeName(c), TypeName(d)]
  {
    KindsAt([a, b, c, d]);
  }

  /** The types in front: the announcements, and for n > 0 pieces of text the item and the pieces. */
  function OpeningKinds(n: nat): seq<string> {
    ["response.created", "response.in_progress"]
    + (if n == 0 then []
       else ["response.output_item.added", "response.content_part.added"] + Repeated("response.output_text.delta", n))
  }

  /** The types at the end, after n pieces of text. */
  function ClosingKinds(n: nat, ending: Ending): seq<string> {
    match ending
    case Complete =>
      (if n == 0 then ["response.output_item.added", "response.content_part.added"] else [])
      + ["response.output_text.done", "response.content_part.done", "response.output_item.done", "response.completed"]
    case Interrupted(_) => ["response.error"]
    case Cancelled => []
  }

  lemma OpeningHasKinds(ds: seq<string>)
    ensures Kinds(Opening(ds)) == OpeningKinds(|ds|)
  {
    TwoKinds(Created, InProgress);
    if ds == [] {
      assert Opening(ds) == [Created, InProgress];
    } else {
      TwoKinds(ItemAdded, PartAdded);
      DeltaKinds(ds, |ds|);
      FlatMapAppend(KindOf, [ItemAdded, PartAdded], DeltaEvents(ds));
      FlatMapAppend(KindOf, [Created, InProgress], [ItemAdded, PartAdded] + DeltaEvents(ds));
    }
  }

  lemma ClosingHasKinds(ds: seq<string>, usage: Option<Usage>, ending: Ending)
    ensures Kinds(Closing(ds, usage, ending)) == ClosingKinds(|ds|, ending)
  {
    match ending
    case Complete =>
      var t := Concat(ds);
      FourKinds(TextDone(t), PartDone(t), ItemDone(t), Completed(t, usage));
      TwoKinds(ItemAdded, PartAdded);
      FlatMapAppend(KindOf, ItemOpening(ds != []), [TextDone(t), PartDone(t), ItemDone(t), Completed(t, usage)]);
    case Interrupted(message) => KindsAt(Closing(ds, usage, ending));
    case Cancelled =>
  }

  lemma ScriptHasKinds(cs: seq<Chunk>, ending: Ending)
    ensures Kinds(Script(cs, ending)) == OpeningKinds(|Deltas(cs)|) + ClosingKinds(|Deltas(cs)|, ending)
  {
    OpeningHasKinds(Deltas(cs));
    ClosingHasKinds(Deltas(cs), LastUsage(cs), ending);
    FlatMapAppend(KindOf, Opening(Deltas(cs)), Closing(Deltas(cs), LastUsage(cs), ending));
  }

  /** What a client makes of everything written for these chunks: the types come in this order, and the
      i-th carries the i-th event with number i. */
  lemma ClientReads(cs: seq<Chunk>, ending: Ending, marshal: Marshal)
    requires forall s :: s in Numbered(Script(cs, ending)) ==> ObjectText(marshal(s))
    ensures var es, n := Script(cs, ending), |Deltas(cs)|;
            var heard := ParseStream(Wire(FlatMap(FrameWith(marshal), Numbered(es))));
            && |heard| == |es| == |OpeningKinds(n) + ClosingKinds(n, ending)|
            && forall i :: 0 <= i < |heard| ==>
                 heard[i] == Frame((OpeningKinds(n) + ClosingKinds(n, ending))[i], marshal(Sent(i, es[i])))
  {
    var es := Script(cs, ending);
    EmittedRoundTrip(Numbered(es), marshal);
    NumberedAt(es);
    SinglesAt(FrameWith(marshal), Numbered(es), |es|);
    KindsAt(es);
    ScriptHasKinds(cs, ending);
  }
}
