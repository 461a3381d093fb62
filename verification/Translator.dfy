/** The stream translator as it runs: a reader that is consumed, an emitter whose fields are updated,
    and the loop between them. Translation says what the loop must produce. */
module Translator {
  import opened Flatten
  import opened Options
  import opened Translation

  /** A buffered reader over the upstream body, line by line; once it has reported its end it keeps
      reporting it. */
  class ChatReader {
    var left: seq<string>
    const end: End

    constructor (raw: string, end: End)
      ensures left == Lines(raw) && this.end == end
    {
      left := Lines(raw);
      this.end := end;
    }

    /** Up to and including the next newline; without one, everything left together with the end. */
    method ReadLine() returns (line: string, err: Option<End>)
      modifies this
      ensures old(left) == [] ==> line == "" && left == []
      ensures old(left) != [] ==> old(left) == [line] + left
      ensures err == if Terminated(line) then None else Some(end)
    {
      line := "";
      if left != [] {
        line := left[0];
        left := left[1..];
      }
      err := if Terminated(line) then None else Some(end);
    }
  }

  class Emitter {
    var number: nat
    var text: string
    var openedItem: bool
    var closedItem: bool
    var usage: Option<Usage>
    var out: seq<Sent>
    /** The events behind `out`, and the pieces of text among them. */
    ghost var sent: seq<Event>
    ghost var deltas: seq<string>

    constructor ()
      ensures Unused() && usage == None
    {
      number, text, openedItem, closedItem, usage, out, sent, deltas := 0, "", false, false, None, [], [], [];
    }

    /** What is written is what was sent, numbered 0, 1, 2, ... */
    ghost predicate Valid()
      reads `number, `out, `sent
    {
      out == Numbered(sent) && number == |sent|
    }

    ghost predicate Unused()
      reads this
    {
      Valid() && sent == [] && text == "" && !openedItem && !closedItem && deltas == []
    }

    /** The response has been announced, `deltas` have been sent, and nothing has closed it. */
    ghost predicate Open()
      reads `number, `out, `sent, `deltas, `text, `openedItem, `closedItem
    {
      && Valid()
      && sent == Opening(deltas)
      && text == Concat(deltas)
      && (openedItem <==> deltas != [])
      && !closedItem
    }

    method Send(event: Event)
      requires Valid()
      modifies `number, `out, `sent
      ensures Valid() && sent == old(sent) + [event]
      ensures out == old(out) + [Sent(|old(out)|, event)]
    {
      NumberedStep(sent, event);
      out := out + [Sent(number, event)];
      number := number + 1;
      sent := sent + [event];
    }

    method EmitCreated()
      requires Unused()
      modifies `number, `out, `sent
      ensures Open() && deltas == []
    {
      Send(Created);
      Send(InProgress);
    }

    method OpenItemIfNeeded()
      requires Valid()
      modifies `number, `out, `sent, `openedItem
      ensures Valid() && openedItem
      ensures sent == old(sent) + ItemOpening(old(openedItem))
    {
      if openedItem { return; }
      openedItem := true;
      Send(ItemAdded);
      Send(PartAdded);
    }

    method EmitDelta(piece: string)
      requires Open()
      modifies this
      ensures Open() && usage == old(usage)
      ensures deltas == old(deltas) + if piece == "" then [] else [piece]
    {
      if piece == "" { return; }
      OpeningStep(deltas, piece);
      OpenItemIfNeeded();
      text := text + piece;
      Send(Delta(piece));
      deltas := deltas + [piece];
    }

    /** Idempotent: a closed response is left alone. */
    method EmitCompletion()
      requires closedItem || Open()
      modifies this
      ensures closedItem
      ensures old(closedItem) ==> unchanged(this)
      ensures !old(closedItem) ==>
                && Valid()
                && sent == Opening(old(deltas)) + Closing(old(deltas), old(usage), Complete)
    {
      if closedItem { return; }
      closedItem := true;
      OpenItemIfNeeded();
      var fullText := text;
      Send(TextDone(fullText));
      Send(PartDone(fullText));
      Send(ItemDone(fullText));
      Send(Completed(text, usage));
    }

    method EmitError(message: string, code: string)
      requires Valid()
      modifies `number, `out, `sent
      ensures Valid() && sent == old(sent) + [Failed(message, code)]
    {
      Send(Failed(message, code));
    }
  }

  lemma OpeningStep(ds: seq<string>, d: string)
    ensures Opening(ds + [d]) == Opening(ds) + ItemOpening(ds != []) + [Delta(d)]
    ensures Concat(ds + [d]) == Concat(ds) + d
  {
    FlatMapStep(AsDelta, ds, d);
    FlatMapStep(Self, ds, d);
  }

  /** What a run returns: nil, the context's error, or the upstream's error. */
  datatype Outcome = Delivered | Stopped | Failure(message: string)

  /** The context is cancelled from check number `cancelAt` on, if ever; there is one check per read. */
  predicate IsStopped(json: Json, lines: seq<string>, cancelAt: Option<nat>) {
    cancelAt.Some? && cancelAt.value < ReadsToFinish(json, lines, 0)
  }

  function ExpectedOutcome(json: Json, lines: seq<string>, end: End, cancelAt: Option<nat>): Outcome {
    if IsStopped(json, lines, cancelAt) then Stopped
    else if DONE in PayloadsOf(lines) || end.Eof? then Delivered
    else Failure(end.message)
  }

  function ExpectedEvents(json: Json, lines: seq<string>, end: End, cancelAt: Option<nat>): seq<Event> {
    if IsStopped(json, lines, cancelAt) then TranslateUpTo(json, lines, cancelAt.value)
    else TranslateLines(json, lines, end)
  }

  function ChunksOf(json: Json, lines: seq<string>, n: nat): seq<Chunk>
    requires n <= |lines|
  {
    Chunks(json, FlatTo(LinePayload, lines, n))
  }

  /** The emitter has sent exactly what these chunks call for. */
  ghost predicate InStep(emitter: Emitter, cs: seq<Chunk>)
    reads emitter
  {
    emitter.Open() && emitter.deltas == Deltas(cs) && emitter.usage == LastUsage(cs)
  }

  /** n lines have been read and the run is not over. */
  predicate OnTrack(json: Json, lines: seq<string>, n: nat) {
    && n <= |lines|
    && DONE !in FlatTo(LinePayload, lines, n)
    && ReadsToFinish(json, lines, 0) == n + ReadsToFinish(json, lines, n)
  }

  function ChunkOf(json: Json, line: string): Option<Chunk> {
    match Payload(line)
    case Some(p) => json(p)
    case None => None
  }

  /** What reading line n + 1 does to the specification. */
  lemma LineStep(json: Json, lines: seq<string>, n: nat)
    requires n < |lines| && DONE !in FlatTo(LinePayload, lines, n) && Payload(lines[n]) != Some(DONE)
    ensures DONE !in FlatTo(LinePayload, lines, n + 1)
    ensures var c := ChunkOf(json, lines[n]);
            if c.Some? then ChunksOf(json, lines, n + 1) == ChunksOf(json, lines, n) + [c.value]
            else ChunksOf(json, lines, n + 1) == ChunksOf(json, lines, n)
  {
    var before := FlatTo(LinePayload, lines, n);
    match Payload(lines[n])
    case Some(p) =>
      FlatMapStep(ParsedBy(json), before, p);
      assert ChunksOf(json, lines, n) + [] == ChunksOf(json, lines, n);
    case None =>
      assert before + [] == before;
  }

  /** A read after which the run goes on. */
  lemma GoesOn(json: Json, lines: seq<string>, n: nat)
    requires n < |lines| && OnTrack(json, lines, n) && Payload(lines[n]) != Some(DONE)
    requires Terminated(lines[n]) || ChunkOf(json, lines[n]).None?
    ensures OnTrack(json, lines, n + 1)
  {
    LineStep(json, lines, n);
  }

  lemma StoppedHere(json: Json, lines: seq<string>, n: nat, end: End)
    requires OnTrack(json, lines, n)
    ensures ExpectedOutcome(json, lines, end, Some(n)) == Stopped
    ensures ExpectedEvents(json, lines, end, Some(n)) == Opening(Deltas(ChunksOf(json, lines, n)))
  {
    CancelledScript(ChunksOf(json, lines, n));
  }

  lemma CancelledScript(cs: seq<Chunk>)
    ensures Script(cs, Cancelled) == Opening(Deltas(cs))
  {
  }

  lemma MarkerCuts(before: seq<string>, after: seq<string>)
    requires DONE !in before
    ensures DONE in before + [DONE] + after
    ensures BeforeDone(before + [DONE] + after) == before
  {
    BeforeDoneAppend(before, [DONE] + after);
    assert before + [DONE] + after == before + ([DONE] + after);
    assert before + [] == before;
  }

  lemma PayloadsAtMarker(lines: seq<string>, n: nat)
    requires n < |lines| && DONE !in FlatTo(LinePayload, lines, n) && Payload(lines[n]) == Some(DONE)
    ensures DONE in PayloadsOf(lines)
    ensures BeforeDone(PayloadsOf(lines)) == FlatTo(LinePayload, lines, n)
  {
    assert LinePayload(lines[n]) == [DONE];
    FlatMapSplit(LinePayload, lines, n + 1);
    MarkerCuts(FlatTo(LinePayload, lines, n), PayloadsOf(lines[n + 1..]));
  }

  lemma EndMarker(json: Json, lines: seq<string>, n: nat, end: End, cancelAt: Option<nat>)
    requires n < |lines| && OnTrack(json, lines, n) && Payload(lines[n]) == Some(DONE)
    requires cancelAt.Some? ==> n < cancelAt.value
    ensures ExpectedOutcome(json, lines, end, cancelAt) == Delivered
    ensures ExpectedEvents(json, lines, end, cancelAt) == Script(ChunksOf(json, lines, n), Complete)
  {
    PayloadsAtMarker(lines, n);
  }

  function EndingOf(end: End): Ending {
    if end.Eof? then Complete else Interrupted(end.message)
  }

  /** The read that reports the end of input, alone or with a last chunk. */
  lemma EndOfInput(json: Json, lines: seq<string>, n: nat, end: End, cancelAt: Option<nat>)
    requires OnTrack(json, lines, n)
    requires n == |lines| || (n == |lines| - 1 && ChunkOf(json, lines[n]).Some? && !Terminated(lines[n]))
    requires DONE !in PayloadsOf(lines)
    requires cancelAt.Some? ==> n < cancelAt.value
    ensures ExpectedOutcome(json, lines, end, cancelAt) == if end.Eof? then Delivered else Failure(end.message)
    ensures ExpectedEvents(json, lines, end, cancelAt) == Script(ChunksOf(json, lines, |lines|), EndingOf(end))
  {
    BeforeDoneAppend(PayloadsOf(lines), []);
    assert PayloadsOf(lines) + [] == PayloadsOf(lines);
  }

  lemma InterruptedScript(cs: seq<Chunk>, message: string)
    ensures Script(cs, Interrupted(message))
         == Opening(Deltas(cs)) + [Failed("upstream stream error: " + message, "stream_interrupted")]
  {
  }

  /** What became of a line: passed over, the end marker, or a chunk. */
  datatype Verdict = Skipped | Ended | Parsed(chunk: Chunk)

  function Judge(json: Json, line: string): Verdict {
    if Payload(line) == Some(DONE) then Ended
    else if ChunkOf(json, line).Some? then Parsed(ChunkOf(json, line).value)
    else Skipped
  }

  function OutcomeOf(end: End): Outcome {
    if end.Eof? then Delivered else Failure(end.message)
  }

  /** What is still to come of a run that has read n lines and found the chunks cs in them. */
  function Rest(json: Json, lines: seq<string>, n: nat, cs: seq<Chunk>, end: End, cancelAt: Option<nat>)
    : (Outcome, seq<Event>)
    requires n <= |lines|
    decreases |lines| - n
  {
    if cancelAt.Some? && cancelAt.value <= n then (Stopped, Script(cs, Cancelled))
    else if n == |lines| then (OutcomeOf(end), Script(cs, EndingOf(end)))
    else
      match Judge(json, lines[n])
      case Ended => (Delivered, Script(cs, Complete))
      case Skipped => Rest(json, lines, n + 1, cs, end, cancelAt)
      case Parsed(chunk) =>
        if Terminated(lines[n]) then Rest(json, lines, n + 1, cs + [chunk], end, cancelAt)
        else (OutcomeOf(end), Script(cs + [chunk], EndingOf(end)))
  }

  /** The run is over before line n + 1: cancelled, at the end of input, at the marker, or with a last
      chunk that lacks its newline. */
  predicate StopsAt(json: Json, lines: seq<string>, n: nat, cancelAt: Option<nat>)
    requires n <= |lines|
  {
    || (cancelAt.Some? && cancelAt.value <= n)
    || n == |lines|
    || Judge(json, lines[n]).Ended?
    || (Judge(json, lines[n]).Parsed? && !Terminated(lines[n]))
  }

  lemma RestAtStop(json: Json, lines: seq<string>, n: nat, end: End, cancelAt: Option<nat>)
    requires AllTerminatedButLast(lines) && OnTrack(json, lines, n)
    requires (cancelAt.Some? ==> n <= cancelAt.value) && StopsAt(json, lines, n, cancelAt)
    ensures Rest(json, lines, n, ChunksOf(json, lines, n), end, cancelAt)
         == (ExpectedOutcome(json, lines, end, cancelAt), ExpectedEvents(json, lines, end, cancelAt))
  {
    if cancelAt.Some? && cancelAt.value <= n {
      StoppedHere(json, lines, n, end);
      CancelledScript(ChunksOf(json, lines, n));
    } else if n == |lines| {
      EndOfInput(json, lines, n, end, cancelAt);
    } else if Judge(json, lines[n]).Ended? {
      EndMarker(json, lines, n, end, cancelAt);
    } else {
      LineStep(json, lines, n);
      EndOfInput(json, lines, n, end, cancelAt);
    }
  }

  /** What is still to come is the same before and behind a line after which the run goes on. */
  lemma RestGoesOn(json: Json, lines: seq<string>, n: nat, end: End, cancelAt: Option<nat>)
    requires OnTrack(json, lines, n) && !StopsAt(json, lines, n, cancelAt)
    ensures OnTrack(json, lines, n + 1)
    ensures Rest(json, lines, n, ChunksOf(json, lines, n), end, cancelAt)
         == Rest(json, lines, n + 1, ChunksOf(json, lines, n + 1), end, cancelAt)
  {
    LineStep(json, lines, n);
    GoesOn(json, lines, n);
  }

  /** A run goes on, line by line, to where it stops. */
  lemma {:induction false} RunsTo(json: Json, lines: seq<string>, n: nat, end: End, cancelAt: Option<nat>) returns (k: nat)
    requires OnTrack(json, lines, n) && (cancelAt.Some? ==> n <= cancelAt.value)
    ensures OnTrack(json, lines, k) && (cancelAt.Some? ==> k <= cancelAt.value) && StopsAt(json, lines, k, cancelAt)
    ensures Rest(json, lines, n, ChunksOf(json, lines, n), end, cancelAt)
         == Rest(json, lines, k, ChunksOf(json, lines, k), end, cancelAt)
    decreases |lines| - n
  {
    if StopsAt(json, lines, n, cancelAt) {
      k := n;
    } else {
      RestGoesOn(json, lines, n, end, cancelAt);
      k := RunsTo(json, lines, n + 1, end, cancelAt);
    }
  }

  /** Line by line comes to the same as all at once. */
  lemma RestIsExpected(json: Json, lines: seq<string>, n: nat, end: End, cancelAt: Option<nat>)
    requires AllTerminatedButLast(lines) && OnTrack(json, lines, n)
    requires cancelAt.Some? ==> n <= cancelAt.value
    ensures Rest(json, lines, n, ChunksOf(json, lines, n), end, cancelAt)
         == (ExpectedOutcome(json, lines, end, cancelAt), ExpectedEvents(json, lines, end, cancelAt))
  {
    var k := RunsTo(json, lines, n, end, cancelAt);
    RestAtStop(json, lines, k, end, cancelAt);
  }

  /** The chunks a run has looked at when it is over. */
  function SeenChunks(json: Json, lines: seq<string>, cancelAt: Option<nat>): seq<Chunk> {
    if IsStopped(json, lines, cancelAt) then ChunksOf(json, lines, cancelAt.value)
    else Chunks(json, BeforeDone(PayloadsOf(lines)))
  }

  /** Every run, cancelled or not, speaks the event language, finishes it exactly if it was not stopped,
      and conserves the text and the usage of the chunks it has looked at. */
  lemma EveryRun(json: Json, lines: seq<string>, end: End, cancelAt: Option<nat>)
    ensures var es := ExpectedEvents(json, lines, end, cancelAt);
            var cs := SeenChunks(json, lines, cancelAt);
            && FollowAll(Silent, es).Some?
            && (FollowAll(Silent, es) == Some(Finished) <==> !ExpectedOutcome(json, lines, end, cancelAt).Stopped?)
            && DeltaText(es) == AllText(cs)
            && forall e :: e in es ==> HonestAbout(e, cs)
  {
    var cs := SeenChunks(json, lines, cancelAt);
    var ending := if IsStopped(json, lines, cancelAt) then Cancelled
                  else if DONE in PayloadsOf(lines) || end.Eof? then Complete
                  else Interrupted(end.message);
    ScriptFollows(cs, ending);
    TextConserved(cs, ending);
  }

  /** How an uncancelled run ends: completed at the marker or at the end of input, else with the error
      of the stream, which is also what is returned. */
  lemma HowItEnds(json: Json, lines: seq<string>, end: End)
    ensures var es, outcome := ExpectedEvents(json, lines, end, None), ExpectedOutcome(json, lines, end, None);
            && es != []
            && if "[DONE]" in PayloadsOf(lines) || end.Eof? then es[|es| - 1].Completed? && outcome == Delivered
               else && es[|es| - 1] == Failed("upstream stream error: " + end.message, "stream_interrupted")
                    && outcome == Failure(end.message)
  {
    var cs := Chunks(json, BeforeDone(PayloadsOf(lines)));
    if "[DONE]" in PayloadsOf(lines) || end.Eof? {
      var ds, usage := Deltas(cs), LastUsage(cs);
      assert Closing(ds, usage, Complete)[|Closing(ds, usage, Complete)| - 1] == Completed(Concat(ds), usage);
    } else {
      InterruptedScript(cs, end.message);
    }
  }

  /** The usage and the choices of one chunk. */
  method EmitChunk(emitter: Emitter, ghost cs: seq<Chunk>, chunk: Chunk)
    requires InStep(emitter, cs)
    modifies emitter
    ensures InStep(emitter, cs + [chunk])
  {
    FlatMapStep(Pieces, cs, chunk);
    assert (cs + [chunk])[..|cs|] == cs;
    if chunk.usage.Some? { emitter.usage := chunk.usage; }
    EmitContents(emitter, chunk.contents);
  }

  method EmitContents(emitter: Emitter, contents: seq<string>)
    requires emitter.Open()
    modifies emitter
    ensures emitter.Open() && emitter.usage == old(emitter.usage)
    ensures emitter.deltas == old(emitter.deltas) + FlatMap(Piece, contents)
  {
    for i := 0 to |contents|
      invariant emitter.Open() && emitter.usage == old(emitter.usage)
      invariant emitter.deltas == old(emitter.deltas) + FlatTo(Piece, contents, i)
    {
      if contents[i] != "" {
        emitter.EmitDelta(contents[i]);
      }
    }
  }

  method HandleLine(json: Json, emitter: Emitter, line: string, ghost cs: seq<Chunk>) returns (verdict: Verdict)
    requires InStep(emitter, cs)
    modifies emitter
    ensures verdict == Judge(json, line)
    ensures verdict.Skipped? ==> unchanged(emitter)
    ensures verdict.Ended? ==> emitter.out == Numbered(Script(cs, Complete))
    ensures verdict.Parsed? ==> InStep(emitter, cs + [verdict.chunk])
  {
    var text := TrimEol(line);
    if |text| == 0 { return Skipped; }
    if !(DATA <= text) { return Skipped; }
    var payload := TrimSpace(text[5..]);
    if |payload| == 0 { return Skipped; }
    if payload == DONE {
      emitter.EmitCompletion();
      return Ended;
    }
    var chunk := json(payload);
    if chunk.None? { return Skipped; }
    EmitChunk(emitter, cs, chunk.value);
    return Parsed(chunk.value);
  }

  method EndStream(emitter: Emitter, end: End, ghost cs: seq<Chunk>) returns (outcome: Outcome)
    requires InStep(emitter, cs)
    modifies emitter
    ensures outcome == OutcomeOf(end)
    ensures emitter.out == Numbered(Script(cs, EndingOf(end)))
  {
    if end.Eof? {
      emitter.EmitCompletion();
      return Delivered;
    }
    InterruptedScript(cs, end.message);
    emitter.EmitError("upstream stream error: " + end.message, "stream_interrupted");
    return Failure(end.message);
  }

  /** The read loop: one check of the context before every read. */
  method ReadAll(json: Json, reader: ChatReader, emitter: Emitter, cancelAt: Option<nat>) returns (outcome: Outcome)
    requires InStep(emitter, []) && "" !in reader.left
    modifies reader, emitter
    ensures outcome == Rest(json, old(reader.left), 0, [], reader.end, cancelAt).0
    ensures emitter.out == Numbered(Rest(json, old(reader.left), 0, [], reader.end, cancelAt).1)
  {
    ghost var lines := reader.left;
    ghost var cs: seq<Chunk> := [];
    var checks: nat := 0;
    while true
      invariant checks <= |lines| && reader.left == lines[checks..]
      invariant InStep(emitter, cs)
      invariant Rest(json, lines, checks, cs, reader.end, cancelAt) == Rest(json, lines, 0, [], reader.end, cancelAt)
      decreases |lines| - checks
    {
      if cancelAt.Some? && cancelAt.value <= checks {
        CancelledScript(cs);
        return Stopped;
      }
      var line, err := reader.ReadLine();
      if |line| > 0 {
        var verdict := HandleLine(json, emitter, line, cs);
        if verdict.Skipped? {
          checks := checks + 1;
          continue;
        }
        if verdict.Ended? { return Delivered; }
        cs := cs + [verdict.chunk];
      }
      if err.Some? {
        outcome := EndStream(emitter, err.value, cs);
        return;
      }
      checks := checks + 1;
    }
  }

  method TranslateChatStream(json: Json, raw: string, end: End, emitter: Emitter, cancelAt: Option<nat>)
    returns (outcome: Outcome)
    requires emitter.Unused() && emitter.usage == None
    modifies emitter
    ensures outcome == ExpectedOutcome(json, Lines(raw), end, cancelAt)
    ensures emitter.out == Numbered(ExpectedEvents(json, Lines(raw), end, cancelAt))
  {
    emitter.EmitCreated();
    var reader := new ChatReader(raw, end);
    LinesMeaning(raw);
    RestIsExpected(json, reader.left, 0, end, cancelAt);
    outcome := ReadAll(json, reader, emitter, cancelAt);
  }
}
