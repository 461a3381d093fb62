/** What the Responses-API translator makes of a chat-completions stream, stated on whole streams.

    Text is a sequence of Unicode characters; the JSON parser is a parameter that turns a payload
    into the fields the translator looks at. */
module Translation {
  import opened Flatten
  import opened Options

  datatype Usage = Usage(prompt: int, completion: int, total: int)

  /** One parsed payload: `choices[].delta.content` in order, and the usage if there is one. */
  datatype Chunk = Chunk(contents: seq<string>, usage: Option<Usage>)

  type Json = string -> Option<Chunk>

  /** How the upstream ends after its last byte. */
  datatype End = Eof | Broken(message: string)

  datatype Event =
    | Created | InProgress
    | ItemAdded | PartAdded
    | Delta(text: string)
    | TextDone(text: string) | PartDone(text: string) | ItemDone(text: string)
    | Completed(text: string, usage: Option<Usage>)
    | Failed(message: string, code: string)

  /** An event with its sequence number. */
  datatype Sent = Sent(number: nat, event: Event)

  // --------------------------------------------------------------------- lines

  /** The end of the line that position i is on, past its newline if it has one. */
  function LineEnd(raw: string, i: nat): (n: nat)
    requires i <= |raw|
    ensures i <= n <= |raw| && (i < |raw| ==> i < n)
    decreases |raw| - i
  {
    if i == |raw| then i else if raw[i] == '\n' then i + 1 else LineEnd(raw, i + 1)
  }

  /** The length of the first line with its newline, or of everything if there is no newline. */
  function LineLength(raw: string): (n: nat)
    ensures n <= |raw| && (raw != "" ==> n > 0)
  {
    LineEnd(raw, 0)
  }

  predicate IsEol(c: char) { c == '\r' || c == '\n' }

  function TrimEol(s: string): (t: string)
    ensures t <= s
  {
    if s != "" && IsEol(s[|s| - 1]) then TrimEol(s[..|s| - 1]) else s
  }

  predicate IsSpace(c: char) {
    || c == ' ' || '\t' <= c <= '\r'
    || c == '\U{0085}' || c == '\U{00A0}' || c == '\U{1680}' || '\U{2000}' <= c <= '\U{200A}'
    || c == '\U{2028}' || c == '\U{2029}' || c == '\U{202F}' || c == '\U{205F}' || c == '\U{3000}'
  }

  function TrimLeft(s: string): string {
    if s != "" && IsSpace(s[0]) then TrimLeft(s[1..]) else s
  }

  function TrimRight(s: string): string {
    if s != "" && IsSpace(s[|s| - 1]) then TrimRight(s[..|s| - 1]) else s
  }

  function TrimSpace(s: string): string {
    TrimRight(TrimLeft(s))
  }

  const DATA: string := "data:"
  const DONE: string := "[DONE]"

  /** The payload of a line, if it is a `data:` line with something in it. */
  function Payload(line: string): Option<string> {
    var l := TrimEol(line);
    if DATA <= l && TrimSpace(l[|DATA|..]) != "" then Some(TrimSpace(l[|DATA|..])) else None
  }

  function Optional<T>(o: Option<T>): seq<T> {
    if o.Some? then [o.value] else []
  }

  function LinePayload(line: string): seq<string> {
    Optional(Payload(line))
  }

  /** The lines from position i on, each with its newline; an unterminated last line counts. */
  function LinesFrom(raw: string, i: nat): seq<string>
    requires i <= |raw|
    decreases |raw| - i
  {
    if i == |raw| then [] else [raw[i..LineEnd(raw, i)]] + LinesFrom(raw, LineEnd(raw, i))
  }

  function Lines(raw: string): seq<string> {
    LinesFrom(raw, 0)
  }

  predicate Terminated(line: string) {
    line != "" && line[|line| - 1] == '\n'
  }

  /** Lines as a reader hands them out: none is empty, and only the last may lack its newline. */
  predicate AllTerminatedButLast(lines: seq<string>) {
    forall i :: 0 <= i < |lines| ==> lines[i] != "" && (i < |lines| - 1 ==> Terminated(lines[i]))
  }

  lemma {:induction false} LineEndMeaning(raw: string, i: nat)
    requires i < |raw|
    ensures forall k :: i <= k < LineEnd(raw, i) - 1 ==> raw[k] != '\n'
    ensures LineEnd(raw, i) < |raw| ==> raw[LineEnd(raw, i) - 1] == '\n'
    decreases |raw| - i
  {
    if i + 1 < |raw| && raw[i] != '\n' { LineEndMeaning(raw, i + 1); }
  }

  /** Newlines stand only at the ends of lines. */
  predicate OneNewline(line: string) {
    forall k :: 0 <= k < |line| - 1 ==> line[k] != '\n'
  }

  lemma {:induction false} LinesFromMeaning(raw: string, i: nat)
    requires i <= |raw|
    ensures var lines := LinesFrom(raw, i);
            && Concat(lines) == raw[i..]
            && AllTerminatedButLast(lines)
            && forall l :: l in lines ==> OneNewline(l)
    decreases |raw| - i
  {
    if i < |raw| {
      var n := LineEnd(raw, i);
      LineEndMeaning(raw, i);
      LinesFromMeaning(raw, n);
      var first, rest := raw[i..n], LinesFrom(raw, n);
      FlatMapAppend(Self, [first], rest);
      FlatMapOne(Self, first);
      assert first + raw[n..] == raw[i..];
      assert n < |raw| ==> Terminated(first);
    }
  }

  /** The lines of a stream make up the stream, and are cut exactly behind its newlines. */
  lemma LinesMeaning(raw: string)
    ensures Concat(Lines(raw)) == raw
    ensures AllTerminatedButLast(Lines(raw))
    ensures forall l :: l in Lines(raw) ==> OneNewline(l)
  {
    LinesFromMeaning(raw, 0);
    assert raw[0..] == raw;
  }

  function PayloadsOf(lines: seq<string>): seq<string> {
    FlatMap(LinePayload, lines)
  }

  function Payloads(raw: string): seq<string> {
    PayloadsOf(Lines(raw))
  }

  // ----------------------------------------------------------------- the meaning

  function BeforeDone(ps: seq<string>): (b: seq<string>)
    ensures b <= ps
  {
    if ps == [] || ps[0] == DONE then [] else [ps[0]] + BeforeDone(ps[1..])
  }

  function ParsedBy(json: Json): string -> seq<Chunk> {
    p => Optional(json(p))
  }

  /** The chunks of the payloads that parse. */
  function Chunks(json: Json, ps: seq<string>): seq<Chunk> {
    FlatMap(ParsedBy(json), ps)
  }

  function Piece(content: string): seq<string> {
    if content == "" then [] else [content]
  }

  function Pieces(c: Chunk): seq<string> {
    FlatMap(Piece, c.contents)
  }

  /** The pieces of content that are not empty, in order. */
  function Deltas(cs: seq<Chunk>): seq<string> {
    FlatMap(Pieces, cs)
  }

  function Self(s: string): string { s }

  function Concat(ss: seq<string>): string {
    FlatMap(Self, ss)
  }

  function ChunkText(c: Chunk): string {
    Concat(c.contents)
  }

  /** All content, empty pieces included. */
  function AllText(cs: seq<Chunk>): string {
    FlatMap(ChunkText, cs)
  }

  function LastUsage(cs: seq<Chunk>): Option<Usage> {
    if cs == [] then None
    else if cs[|cs| - 1].usage.Some? then cs[|cs| - 1].usage
    else LastUsage(cs[..|cs| - 1])
  }

  /** u is the usage of the last chunk that has one, or none has any. */
  predicate IsLastUsage(cs: seq<Chunk>, u: Option<Usage>) {
    match u
    case None => forall i :: 0 <= i < |cs| ==> cs[i].usage.None?
    case Some(_) => exists i :: 0 <= i < |cs| && cs[i].usage == u && forall j :: i < j < |cs| ==> cs[j].usage.None?
  }

  lemma {:induction false} LastUsageMeans(cs: seq<Chunk>)
    ensures IsLastUsage(cs, LastUsage(cs))
  {
    if cs != [] {
      var n := |cs| - 1;
      LastUsageMeans(cs[..n]);
      if cs[n].usage.None? && LastUsage(cs).Some? {
        var i :| 0 <= i < n && cs[..n][i].usage == LastUsage(cs) && forall j :: i < j < n ==> cs[..n][j].usage.None?;
        assert cs[i].usage == LastUsage(cs);
        forall j | i < j < |cs| ensures cs[j].usage.None? {
          if j < n { assert cs[j] == cs[..n][j]; }
        }
      } else if cs[n].usage.None? {
        forall i | 0 <= i < |cs| ensures cs[i].usage.None? {
          if i < n { assert cs[i] == cs[..n][i]; }
        }
      }
    }
  }

  datatype Ending = Complete | Interrupted(message: string) | Cancelled

  function AsDelta(d: string): seq<Event> { [Delta(d)] }

  function DeltaEvents(ds: seq<string>): seq<Event> {
    FlatMap(AsDelta, ds)
  }

  /** The two events that open the output item, unless it is open already. */
  function ItemOpening(isOpen: bool): seq<Event> {
    if isOpen then [] else [ItemAdded, PartAdded]
  }

  function Opening(ds: seq<string>): seq<Event> {
    [Created, InProgress] + (if ds == [] then [] else [ItemAdded, PartAdded] + DeltaEvents(ds))
  }

  function Closing(ds: seq<string>, usage: Option<Usage>, ending: Ending): seq<Event> {
    match ending
    case Complete =>
      var t := Concat(ds);
      ItemOpening(ds != []) + [TextDone(t), PartDone(t), ItemDone(t), Completed(t, usage)]
    case Interrupted(message) => [Failed("upstream stream error: " + message, "stream_interrupted")]
    case Cancelled => []
  }

  function Script(cs: seq<Chunk>, ending: Ending): seq<Event> {
    Opening(Deltas(cs)) + Closing(Deltas(cs), LastUsage(cs), ending)
  }

  /** The events for lines that are read to their end or their first [DONE]. */
  function TranslateLines(json: Json, lines: seq<string>, end: End): seq<Event> {
    var ps := PayloadsOf(lines);
    Script(Chunks(json, BeforeDone(ps)),
           if DONE in ps || end.Eof? then Complete else Interrupted(end.message))
  }

  function Translate(json: Json, raw: string, end: End): seq<Event> {
    TranslateLines(json, Lines(raw), end)
  }

  /** The first n events with their sequence numbers. */
  function NumberedTo(es: seq<Event>, n: nat): (out: seq<Sent>)
    requires n <= |es|
    ensures |out| == n
  {
    if n == 0 then [] else NumberedTo(es, n - 1) + [Sent(n - 1, es[n - 1])]
  }

  /** Sequence numbers from 0, without gaps. */
  function Numbered(es: seq<Event>): (out: seq<Sent>) {
    NumberedTo(es, |es|)
  }

  lemma {:induction false} NumberedToAt(es: seq<Event>, n: nat, i: nat)
    requires i < n <= |es|
    ensures NumberedTo(es, n)[i] == Sent(i, es[i])
  {
    if i < n - 1 { NumberedToAt(es, n - 1, i); }
  }

  /** Event number i carries i, whatever the list. */
  lemma NumberedAt(es: seq<Event>)
    ensures |Numbered(es)| == |es|
    ensures forall i :: 0 <= i < |es| ==> Numbered(es)[i] == Sent(i, es[i])
  {
    forall i | 0 <= i < |es| ensures Numbered(es)[i] == Sent(i, es[i]) {
      NumberedToAt(es, |es|, i);
    }
  }

  lemma {:induction false} NumberedToPrefix(es: seq<Event>, e: Event, n: nat)
    requires n <= |es|
    ensures NumberedTo(es + [e], n) == NumberedTo(es, n)
  {
    if n > 0 { NumberedToPrefix(es, e, n - 1); }
  }

  lemma NumberedStep(es: seq<Event>, e: Event)
    ensures Numbered(es + [e]) == Numbered(es) + [Sent(|es|, e)]
  {
    NumberedToPrefix(es, e, |es|);
  }

  // ------------------------------------------------------------- part of a stream

  /** How many reads it takes to finish from line n on: up to the [DONE] line, or up to the read that
      reports the end and whose line, if any, is a chunk; a last fragment that is no chunk costs one
      read more. */
  function ReadsToFinish(json: Json, lines: seq<string>, n: nat): (k: nat)
    requires n <= |lines|
    ensures 0 < k <= |lines| - n + 1
    decreases |lines| - n
  {
    if n == |lines| then 1
    else
      var p := Payload(lines[n]);
      if p == Some(DONE) || (!Terminated(lines[n]) && p.Some? && json(p.value).Some?) then 1
      else 1 + ReadsToFinish(json, lines, n + 1)
  }

  /** The events sent when the request is cancelled with n lines read. */
  function TranslateUpTo(json: Json, lines: seq<string>, n: nat): seq<Event>
    requires n <= |lines|
  {
    Script(Chunks(json, FlatTo(LinePayload, lines, n)), Cancelled)
  }

  lemma OpeningGrows(a: seq<string>, b: seq<string>)
    ensures Opening(a) <= Opening(a + b)
  {
    FlatMapAppend(AsDelta, a, b);
  }

  lemma ScriptGrows(cs: seq<Chunk>, ds: seq<Chunk>, ending: Ending)
    ensures Script(cs, Cancelled) <= Script(cs + ds, ending)
  {
    FlatMapAppend(Pieces, cs, ds);
    OpeningGrows(Deltas(cs), Deltas(ds));
    assert Script(cs, Cancelled) == Opening(Deltas(cs));
    assert Opening(Deltas(cs + ds)) <= Script(cs + ds, ending);
  }

  /** A cancelled client has seen a prefix of what an uncancelled one would see. */
  lemma CancelledIsPrefix(json: Json, lines: seq<string>, end: End, n: nat)
    requires n <= |lines| && DONE !in FlatTo(LinePayload, lines, n)
    ensures TranslateUpTo(json, lines, n) <= TranslateLines(json, lines, end)
  {
    var ps, qs := FlatTo(LinePayload, lines, n), PayloadsOf(lines[n..]);
    FlatMapSplit(LinePayload, lines, n);
    BeforeDoneAppend(ps, qs);
    FlatMapAppend(ParsedBy(json), ps, BeforeDone(qs));
    ScriptGrows(Chunks(json, ps), Chunks(json, BeforeDone(qs)),
                if DONE in ps + qs || end.Eof? then Complete else Interrupted(end.message));
  }

  // ------------------------------------------------------------- text conservation

  lemma {:induction false} PiecesKeepText(contents: seq<string>, n: nat)
    requires n <= |contents|
    ensures Concat(FlatTo(Piece, contents, n)) == FlatTo(Self, contents, n)
  {
    if n > 0 {
      PiecesKeepText(contents, n - 1);
      var c := contents[n - 1];
      var before := FlatTo(Piece, contents, n - 1);
      if c == "" {
        assert before + Piece(c) == before;
      } else {
        FlatMapStep(Self, before, c);
      }
    }
  }

  lemma {:induction false} DeltasKeepText(cs: seq<Chunk>, n: nat)
    requires n <= |cs|
    ensures Concat(FlatTo(Pieces, cs, n)) == FlatTo(ChunkText, cs, n)
  {
    if n > 0 {
      var before, c := FlatTo(Pieces, cs, n - 1), cs[n - 1];
      DeltasKeepText(cs, n - 1);
      PiecesKeepText(c.contents, |c.contents|);
      FlatMapAppend(Self, before, Pieces(c));
      assert Concat(before + Pieces(c)) == Concat(before) + ChunkText(c);
    }
  }

  function EventText(e: Event): string {
    if e.Delta? then e.text else ""
  }

  /** The text carried by the delta events of a list. */
  function DeltaText(es: seq<Event>): string {
    FlatMap(EventText, es)
  }

  lemma {:induction false} DeltaTextOfDeltas(ds: seq<string>, n: nat)
    requires n <= |ds|
    ensures DeltaText(FlatTo(AsDelta, ds, n)) == FlatTo(Self, ds, n)
  {
    if n > 0 {
      DeltaTextOfDeltas(ds, n - 1);
      FlatMapStep(EventText, FlatTo(AsDelta, ds, n - 1), Delta(ds[n - 1]));
    }
  }

  lemma {:induction false} NoDeltaText(es: seq<Event>, n: nat)
    requires n <= |es|
    requires forall i :: 0 <= i < |es| ==> !es[i].Delta?
    ensures FlatTo(EventText, es, n) == ""
  {
    if n > 0 { NoDeltaText(es, n - 1); }
  }

  lemma OpeningText(ds: seq<string>)
    ensures DeltaText(Opening(ds)) == Concat(ds)
  {
    NoDeltaText([Created, InProgress], 2);
    if ds == [] {
      assert Opening(ds) == [Created, InProgress];
    } else {
      NoDeltaText([ItemAdded, PartAdded], 2);
      FlatMapAppend(EventText, [ItemAdded, PartAdded], DeltaEvents(ds));
      FlatMapAppend(EventText, [Created, InProgress], [ItemAdded, PartAdded] + DeltaEvents(ds));
      DeltaTextOfDeltas(ds, |ds|);
    }
  }

  /** An event tells the truth about the run: the closing events repeat the whole text, `Completed`
      carries the usage, and no delta is empty. */
  predicate Honest(e: Event, text: string, usage: Option<Usage>) {
    && (e.TextDone? || e.PartDone? || e.ItemDone? || e.Completed? ==> e.text == text)
    && (e.Completed? ==> e.usage == usage)
    && (e.Delta? ==> e.text != "")
  }

  lemma {:induction false} DeltasHonest(ds: seq<string>, n: nat, text: string, usage: Option<Usage>)
    requires "" !in ds && n <= |ds|
    ensures forall e :: e in FlatTo(AsDelta, ds, n) ==> Honest(e, text, usage)
  {
    if n > 0 { DeltasHonest(ds, n - 1, text, usage); }
  }

  lemma OpeningHonest(ds: seq<string>, usage: Option<Usage>)
    requires "" !in ds
    ensures forall e :: e in Opening(ds) ==> Honest(e, Concat(ds), usage)
  {
    DeltasHonest(ds, |ds|, Concat(ds), usage);
  }

  lemma ClosingHonest(ds: seq<string>, usage: Option<Usage>, ending: Ending)
    ensures forall e :: e in Closing(ds, usage, ending) ==> Honest(e, Concat(ds), usage) && !e.Delta?
  {
    if ending.Complete? {
      var t := Concat(ds);
      var last := [TextDone(t), PartDone(t), ItemDone(t), Completed(t, usage)];
      assert Closing(ds, usage, ending) == ItemOpening(ds != []) + last;
      forall e | e in Closing(ds, usage, ending) ensures Honest(e, t, usage) && !e.Delta? {
        assert e in ItemOpening(ds != []) || e in last;
      }
    }
  }

  /** Said of the chunks: `Completed` carries the usage of the last chunk that has one. */
  predicate HonestAbout(e: Event, cs: seq<Chunk>) {
    && (e.TextDone? || e.PartDone? || e.ItemDone? || e.Completed? ==> e.text == AllText(cs))
    && (e.Completed? ==> IsLastUsage(cs, e.usage))
    && (e.Delta? ==> e.text != "")
  }

  /** Text is conserved: the deltas carry exactly the content of the chunks, and each of the closing
      events repeats exactly what the deltas carried; usage is the last one seen. */
  lemma TextConserved(cs: seq<Chunk>, ending: Ending)
    ensures DeltaText(Script(cs, ending)) == AllText(cs)
    ensures forall e :: e in Script(cs, ending) ==> HonestAbout(e, cs)
  {
    ScriptHonest(cs, ending);
    LastUsageMeans(cs);
    forall e | e in Script(cs, ending) ensures HonestAbout(e, cs) {
      assert Honest(e, AllText(cs), LastUsage(cs));
    }
  }

  lemma ScriptHonest(cs: seq<Chunk>, ending: Ending)
    ensures DeltaText(Script(cs, ending)) == AllText(cs)
    ensures forall e :: e in Script(cs, ending) ==> Honest(e, AllText(cs), LastUsage(cs))
  {
    var ds, usage := Deltas(cs), LastUsage(cs);
    DeltasKeepText(cs, |cs|);
    DeltasNonEmpty(cs, |cs|);
    OpeningHonest(ds, usage);
    ClosingHonest(ds, usage, ending);
    TextOfParts(ds, Closing(ds, usage, ending));
  }

  lemma TextOfParts(ds: seq<string>, closing: seq<Event>)
    requires forall e :: e in closing ==> !e.Delta?
    ensures DeltaText(Opening(ds) + closing) == Concat(ds)
  {
    OpeningText(ds);
    NoDeltaText(closing, |closing|);
    FlatMapAppend(EventText, Opening(ds), closing);
  }

  lemma {:induction false} DeltasNonEmpty(cs: seq<Chunk>, n: nat)
    requires n <= |cs|
    ensures "" !in FlatTo(Pieces, cs, n)
  {
    if n > 0 {
      DeltasNonEmpty(cs, n - 1);
      PiecesNonEmpty(cs[n - 1].contents, |cs[n - 1].contents|);
    }
  }

  lemma {:induction false} PiecesNonEmpty(contents: seq<string>, n: nat)
    requires n <= |contents|
    ensures "" !in FlatTo(Piece, contents, n)
  {
    if n > 0 { PiecesNonEmpty(contents, n - 1); }
  }

  // ------------------------------------------------------------- event language

  datatype Phase = Silent | Announced | Running | Opened | Streaming | Closing1 | Closing2 | Closing3 | Finished

  /** What may follow what; nothing follows a terminal event. */
  function Follow(p: Phase, e: Event): Option<Phase> {
    match (p, e)
    case (Silent, Created) => Some(Announced)
    case (Announced, InProgress) => Some(Running)
    case (Running, ItemAdded) => Some(Opened)
    case (Opened, PartAdded) => Some(Streaming)
    case (Streaming, Delta(_)) => Some(Streaming)
    case (Streaming, TextDone(_)) => Some(Closing1)
    case (Closing1, PartDone(_)) => Some(Closing2)
    case (Closing2, ItemDone(_)) => Some(Closing3)
    case (Closing3, Completed(_, _)) => Some(Finished)
    case (Running, Failed(_, _)) => Some(Finished)
    case (Streaming, Failed(_, _)) => Some(Finished)
    case _ => None
  }

  function FollowAll(p: Phase, es: seq<Event>): Option<Phase> {
    if es == [] then Some(p)
    else
      match FollowAll(p, es[..|es| - 1])
      case Some(q) => Follow(q, es[|es| - 1])
      case None => None
  }

  lemma {:induction false} FollowAppend(p: Phase, a: seq<Event>, b: seq<Event>, q: Phase)
    requires FollowAll(p, a) == Some(q)
    ensures FollowAll(p, a + b) == FollowAll(q, b)
    decreases |b|
  {
    if b == [] {
      assert a + b == a;
    } else {
      var n := |b| - 1;
      assert (a + b)[..|a| + n] == a + b[..n];
      FollowAppend(p, a, b[..n], q);
    }
  }

  lemma FollowOne(p: Phase, e: Event)
    ensures FollowAll(p, [e]) == Follow(p, e)
  {
    assert [e][..0] == [];
  }

  lemma FollowTwo(p: Phase, a: Event, b: Event, q: Phase)
    requires Follow(p, a) == Some(q)
    ensures FollowAll(p, [a, b]) == Follow(q, b)
  {
    FollowOne(p, a);
    FollowOne(q, b);
    FollowAppend(p, [a], [b], q);
    assert [a] + [b] == [a, b];
  }

  lemma {:induction false} DeltasStream(ds: seq<string>, n: nat)
    requires n <= |ds|
    ensures FollowAll(Streaming, FlatTo(AsDelta, ds, n)) == Some(Streaming)
  {
    if n > 0 {
      var before, e := FlatTo(AsDelta, ds, n - 1), Delta(ds[n - 1]);
      DeltasStream(ds, n - 1);
      FollowOne(Streaming, e);
      FollowAppend(Streaming, before, [e], Streaming);
      assert FlatTo(AsDelta, ds, n) == before + [e];
    }
  }

  lemma OpeningFollows(ds: seq<string>)
    ensures FollowAll(Silent, Opening(ds)) == Some(if ds == [] then Running else Streaming)
  {
    FollowTwo(Silent, Created, InProgress, Announced);
    if ds == [] {
      assert Opening(ds) == [Created, InProgress];
    } else {
      FollowTwo(Running, ItemAdded, PartAdded, Opened);
      DeltasStream(ds, |ds|);
      FollowAppend(Running, [ItemAdded, PartAdded], DeltaEvents(ds), Streaming);
      FollowAppend(Silent, [Created, InProgress], [ItemAdded, PartAdded] + DeltaEvents(ds), Running);
    }
  }

  lemma CompletionFollows(t: string, usage: Option<Usage>)
    ensures FollowAll(Streaming, [TextDone(t), PartDone(t), ItemDone(t), Completed(t, usage)]) == Some(Finished)
  {
    FollowTwo(Streaming, TextDone(t), PartDone(t), Closing1);
    FollowTwo(Closing2, ItemDone(t), Completed(t, usage), Closing3);
    FollowAppend(Streaming, [TextDone(t), PartDone(t)], [ItemDone(t), Completed(t, usage)], Closing2);
    assert [TextDone(t), PartDone(t)] + [ItemDone(t), Completed(t, usage)]
        == [TextDone(t), PartDone(t), ItemDone(t), Completed(t, usage)];
  }

  lemma CompleteFollows(ds: seq<string>, usage: Option<Usage>)
    ensures FollowAll(if ds == [] then Running else Streaming, Closing(ds, usage, Complete)) == Some(Finished)
  {
    var t := Concat(ds);
    var last := [TextDone(t), PartDone(t), ItemDone(t), Completed(t, usage)];
    CompletionFollows(t, usage);
    if ds == [] {
      FollowTwo(Running, ItemAdded, PartAdded, Opened);
      FollowAppend(Running, [ItemAdded, PartAdded], last, Streaming);
    } else {
      assert Closing(ds, usage, Complete) == last;
    }
  }

  lemma InterruptedFollows(mid: Phase, e: Event)
    requires (mid == Running || mid == Streaming) && e.Failed?
    ensures FollowAll(mid, [e]) == Some(Finished)
  {
    FollowOne(mid, e);
  }

  /** Every emitted list is a word of the event language, finished exactly unless it was cancelled. */
  lemma ScriptFollows(cs: seq<Chunk>, ending: Ending)
    ensures FollowAll(Silent, Script(cs, ending)).Some?
    ensures FollowAll(Silent, Script(cs, ending)) == Some(Finished) <==> !ending.Cancelled?
  {
    var ds, usage := Deltas(cs), LastUsage(cs);
    var mid := if ds == [] then Running else Streaming;
    OpeningFollows(ds);
    FollowAppend(Silent, Opening(ds), Closing(ds, usage, ending), mid);
    match ending
    case Complete => CompleteFollows(ds, usage);
    case Interrupted(message) => InterruptedFollows(mid, Closing(ds, usage, ending)[0]);
    case Cancelled =>
  }

  /** A finished list has no continuation in the language. */
  lemma NothingAfterFinish(p: Phase, es: seq<Event>, e: Event)
    requires FollowAll(p, es) == Some(Finished)
    ensures FollowAll(p, es + [e]) == None
  {
    FollowAppend(p, es, [e], Finished);
    FollowOne(Finished, e);
  }

  // ------------------------------------------------------- lines and their endings

  /** A text that stops at a line boundary. */
  predicate WholeLines(a: string) {
    a == "" || a[|a| - 1] == '\n'
  }

  lemma {:induction false} LineEndAppend(a: string, b: string, i: nat)
    requires i < |a| && WholeLines(a)
    ensures LineEnd(a + b, i) == LineEnd(a, i)
    decreases |a| - i
  {
    if a[i] != '\n' { LineEndAppend(a, b, i + 1); }
  }

  lemma {:induction false} LinesStay(a: string, b: string, i: nat)
    requires i <= |a| && WholeLines(a)
    ensures LinesFrom(a + b, i) == LinesFrom(a, i) + LinesFrom(a + b, |a|)
    decreases |a| - i
  {
    if i < |a| {
      var n := LineEnd(a, i);
      LineEndAppend(a, b, i);
      assert (a + b)[i..n] == a[i..n];
      LinesStay(a, b, n);
    }
  }

  lemma {:induction false} LineEndShift(a: string, b: string, i: nat)
    requires i <= |b|
    ensures LineEnd(a + b, |a| + i) == |a| + LineEnd(b, i)
    decreases |b| - i
  {
    if i < |b| {
      assert (a + b)[|a| + i] == b[i];
      LineEndShift(a, b, i + 1);
    }
  }

  lemma LineShift(a: string, b: string, i: nat)
    requires i < |b|
    ensures LineEnd(a + b, |a| + i) == |a| + LineEnd(b, i)
    ensures (a + b)[|a| + i..|a| + LineEnd(b, i)] == b[i..LineEnd(b, i)]
  {
    LineEndShift(a, b, i);
  }

  lemma {:induction false} LinesShift(a: string, b: string, i: nat)
    requires i <= |b|
    ensures LinesFrom(a + b, |a| + i) == LinesFrom(b, i)
    decreases |b| - i
  {
    if i < |b| {
      var n := LineEnd(b, i);
      LineShift(a, b, i);
      LinesShift(a, b, n);
      assert LinesFrom(a + b, |a| + i) == [b[i..n]] + LinesFrom(a + b, |a| + n);
    }
  }

  lemma LinesAppend(a: string, b: string)
    requires WholeLines(a)
    ensures Lines(a + b) == Lines(a) + Lines(b)
  {
    LinesStay(a, b, 0);
    LinesShift(a, b, 0);
  }

  lemma PayloadsAppend(a: string, b: string)
    requires WholeLines(a)
    ensures Payloads(a + b) == Payloads(a) + Payloads(b)
  {
    LinesAppend(a, b);
    FlatMapAppend(LinePayload, Lines(a), Lines(b));
  }

  lemma {:induction false} LineAlone(line: string, i: nat)
    requires '\n' !in line && i <= |line|
    ensures LineEnd(line + "\n", i) == |line| + 1
    decreases |line| - i
  {
    if i < |line| {
      assert (line + "\n")[i] == line[i];
      LineAlone(line, i + 1);
    }
  }

  lemma OneLine(line: string)
    requires '\n' !in line
    ensures Lines(line + "\n") == [line + "\n"]
  {
    var l := line + "\n";
    LineAlone(line, 0);
    assert l[0..|l|] == l;
    assert LinesFrom(l, |l|) == [];
  }

  lemma OneLinePayloads(line: string)
    requires '\n' !in line
    ensures Payloads(line + "\n") == LinePayload(line)
  {
    var l := line + "\n";
    OneLine(line);
    FlatMapOne(LinePayload, l);
    assert l[..|l| - 1] == line;
    assert TrimEol(l) == TrimEol(line);
  }

  lemma {:induction false} BeforeDoneAppend(a: seq<string>, b: seq<string>)
    ensures BeforeDone(a + b) == if DONE in a then BeforeDone(a) else a + BeforeDone(b)
    ensures DONE !in a ==> BeforeDone(a) == a
    decreases |a|
  {
    if a == [] {
      assert a + b == b;
    } else {
      assert (a + b)[1..] == a[1..] + b;
      BeforeDoneAppend(a[1..], b);
    }
  }

  /** A complete line the translator passes over: blank, not `data:`, empty, or no JSON. */
  predicate Noise(json: Json, line: string) {
    '\n' !in line && match Payload(line) case Some(p) => p != DONE && json(p).None? case None => true
  }

  lemma InsertedPayload(a: string, line: string, b: string)
    requires WholeLines(a) && '\n' !in line
    ensures Payloads(a + (line + "\n") + b) == Payloads(a) + (LinePayload(line) + Payloads(b))
  {
    var l := line + "\n";
    assert a + l + b == a + (l + b);
    OneLinePayloads(line);
    PayloadsAppend(l, b);
    PayloadsAppend(a, l + b);
  }

  /** A payload that is neither the end marker nor JSON makes no difference. */
  lemma SkippedPayload(json: Json, pa: seq<string>, p: Option<string>, pb: seq<string>)
    requires p.Some? ==> p.value != DONE && json(p.value).None?
    ensures Chunks(json, BeforeDone(pa + (Optional(p) + pb))) == Chunks(json, BeforeDone(pa + pb))
    ensures DONE in pa + (Optional(p) + pb) <==> DONE in pa + pb
  {
    if p.Some? {
      BeforeDoneAppend([p.value], pb);
      BeforeDoneAppend(pa, [p.value] + pb);
      BeforeDoneAppend(pa, pb);
      if DONE !in pa { SkippedChunk(json, pa, p.value, BeforeDone(pb)); }
    } else {
      assert [] + pb == pb;
    }
  }

  lemma SkippedChunk(json: Json, pa: seq<string>, p: string, pb: seq<string>)
    requires json(p).None?
    ensures Chunks(json, pa + ([p] + pb)) == Chunks(json, pa + pb)
  {
    FlatMapAppend(ParsedBy(json), pa, [p] + pb);
    FlatMapAppend(ParsedBy(json), [p], pb);
    FlatMapAppend(ParsedBy(json), pa, pb);
    FlatMapOne(ParsedBy(json), p);
    assert [] + Chunks(json, pb) == Chunks(json, pb);
  }

  /** Inserting such a line at any line boundary changes nothing. */
  lemma StutterInvariant(json: Json, a: string, line: string, b: string, end: End)
    requires WholeLines(a) && Noise(json, line)
    ensures Translate(json, a + (line + "\n") + b, end) == Translate(json, a + b, end)
  {
    InsertedPayload(a, line, b);
    PayloadsAppend(a, b);
    SkippedPayload(json, Payloads(a), Payload(line), Payloads(b));
  }

  /** Every LF turned into CR LF. */
  function CrLf(raw: string): string {
    if raw == "" then "" else (if raw[0] == '\n' then "\r\n" else [raw[0]]) + CrLf(raw[1..])
  }

  lemma {:induction false} CrLfAppend(a: string, b: string)
    ensures CrLf(a + b) == CrLf(a) + CrLf(b)
    decreases |a|
  {
    if a == "" {
      assert a + b == b;
    } else {
      assert (a + b)[1..] == a[1..] + b;
      CrLfAppend(a[1..], b);
    }
  }

  lemma {:induction false} CrLfKeeps(s: string)
    requires '\n' !in s
    ensures CrLf(s) == s
  {
    if s != "" { CrLfKeeps(s[1..]); }
  }

  lemma CrLfLine(line: string)
    requires '\n' !in line
    ensures CrLf(line + "\n") == line + "\r\n"
  {
    CrLfAppend(line, "\n");
    CrLfKeeps(line);
    assert CrLf("\n") == "\r\n" by { assert "\n"[1..] == ""; assert CrLf("\n") == "\r\n" + CrLf(""); }
  }

  lemma PayloadsOfCrLfLine(line: string)
    requires '\n' !in line
    ensures Payloads(line + "\r\n") == Payloads(line + "\n")
  {
    var l := line + "\r";
    assert '\n' !in l;
    assert l + "\n" == line + "\r\n";
    OneLinePayloads(l);
    OneLinePayloads(line);
    assert l[..|l| - 1] == line;
    assert TrimEol(l) == TrimEol(line);
  }

  /** A first line that has a newline, without it. */
  lemma FirstLineText(raw: string) returns (text: string)
    requires raw != "" && raw[LineLength(raw) - 1] == '\n'
    ensures raw[..LineLength(raw)] == text + "\n" && '\n' !in text
  {
    LineEndMeaning(raw, 0);
    text := raw[..LineLength(raw) - 1];
  }

  lemma LastLineText(raw: string)
    requires raw != "" && raw[LineLength(raw) - 1] != '\n'
    ensures LineLength(raw) == |raw| && '\n' !in raw
  {
    LineEndMeaning(raw, 0);
  }

  /** The payloads, hence the translation, do not depend on the line ending. */
  lemma {:induction false} CrLfPayloads(raw: string)
    ensures Payloads(CrLf(raw)) == Payloads(raw)
    decreases |raw|
  {
    if raw != "" {
      var n := LineLength(raw);
      if raw[n - 1] == '\n' {
        var line, rest := raw[..n], raw[n..];
        var text := FirstLineText(raw);
        assert raw == line + rest;
        CrLfAppend(line, rest);
        CrLfLine(text);
        PayloadsAppend(line, rest);
        PayloadsAppend(text + "\r\n", CrLf(rest));
        PayloadsOfCrLfLine(text);
        CrLfPayloads(rest);
      } else {
        LastLineText(raw);
        CrLfKeeps(raw);
      }
    }
  }

  lemma LineEndingsIrrelevant(json: Json, raw: string, end: End)
    ensures Translate(json, CrLf(raw), end) == Translate(json, raw, end)
  {
    CrLfPayloads(raw);
  }

  // ------------------------------------------------------- lines as they are written

  predicate AllBlank(s: string) {
    forall i :: 0 <= i < |s| ==> s[i] == ' ' || s[i] == '\t'
  }

  lemma {:induction false} TrimLeftBlank(pre: string, s: string)
    requires AllBlank(pre) && (s != "" ==> !IsSpace(s[0]))
    ensures TrimLeft(pre + s) == s
  {
    if pre == "" {
      assert pre + s == s;
    } else {
      assert (pre + s)[1..] == pre[1..] + s;
      TrimLeftBlank(pre[1..], s);
    }
  }

  lemma {:induction false} TrimRightBlank(s: string, post: string)
    requires AllBlank(post) && s != "" && !IsSpace(s[|s| - 1])
    ensures TrimRight(s + post) == s
    decreases |post|
  {
    if post == "" {
      assert s + post == s;
    } else {
      var n := |post| - 1;
      assert (s + post)[..|s| + n] == s + post[..n];
      TrimRightBlank(s, post[..n]);
    }
  }

  /** A text that neither starts nor ends with space, on one line. */
  predicate Trimmed(p: string) {
    p != "" && !IsSpace(p[0]) && !IsSpace(p[|p| - 1]) && '\n' !in p
  }

  lemma PaddedPayload(pre: string, p: string, post: string)
    requires Trimmed(p) && AllBlank(pre) && AllBlank(post)
    ensures LinePayload("data:" + pre + p + post) == [p]
  {
    var l := "data:" + pre + p + post;
    var body := pre + p + post;
    assert l == "data:" + body && l[|l| - 1] == body[|body| - 1];
    assert !IsEol(l[|l| - 1]) by {
      if post == "" { assert l[|l| - 1] == p[|p| - 1]; } else { assert l[|l| - 1] == post[|post| - 1]; }
    }
    assert TrimEol(l) == l && l[..5] == "data:" && l[5..] == body;
    assert body == pre + (p + post) && (p + post)[0] == p[0];
    TrimLeftBlank(pre, p + post);
    TrimRightBlank(p, post);
  }

  /** A `data:` line carries its text whether or not a space follows the colon, and blanks around the
      text do not count. */
  lemma DataLineCarries(a: string, pre: string, p: string, post: string, b: string)
    requires WholeLines(a) && Trimmed(p) && AllBlank(pre) && AllBlank(post)
    ensures Payloads(a + ("data:" + pre + p + post + "\n") + b) == Payloads(a) + ([p] + Payloads(b))
  {
    var line := "data:" + pre + p + post;
    PaddedPayload(pre, p, post);
    assert '\n' !in line by {
      assert '\n' !in "data:" && '\n' !in pre && '\n' !in p && '\n' !in post;
    }
    InsertedPayload(a, line, b);
  }

  /** Behind the end marker nothing matters: neither what follows nor how the stream ends. */
  lemma NothingAfterMarker(json: Json, a: string, pre: string, post: string, b: string, end: End)
    requires WholeLines(a) && AllBlank(pre) && AllBlank(post)
    ensures var upTo := a + ("data:" + pre + "[DONE]" + post + "\n");
            Translate(json, upTo + b, end) == Translate(json, upTo + "", Eof)
  {
    DataLineCarries(a, pre, "[DONE]", post, b);
    DataLineCarries(a, pre, "[DONE]", post, "");
    BeforeDoneAppend(Payloads(a), [DONE] + Payloads(b));
    BeforeDoneAppend(Payloads(a), [DONE] + Payloads(""));
  }

  /** The marker completes the response with the chunks in front of it. */
  lemma MarkerCompletes(json: Json, a: string, b: string, end: End)
    requires WholeLines(a) && "[DONE]" !in Payloads(a)
    ensures Translate(json, a + "data: [DONE]\n" + b, end) == Script(Chunks(json, Payloads(a)), Complete)
  {
    DataLineCarries(a, " ", "[DONE]", "", b);
    assert "data:" + " " + "[DONE]" + "" + "\n" == "data: [DONE]\n";
    BeforeDoneAppend(Payloads(a), [DONE] + Payloads(b));
    assert BeforeDone([DONE] + Payloads(b)) == [];
    assert Payloads(a) + [] == Payloads(a);
  }
}
