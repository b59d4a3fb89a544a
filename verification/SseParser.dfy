/** The browser client's incremental event-stream parser, held to the whole-text meaning
    of SseText, with its cap on the bytes of one frame. */
module SseParser {
  import opened Wrappers
  import opened SseText

  /** One network read: its size in bytes, the text the streaming decoder returned for it,
      and how many bytes of an unfinished character the decoder then held back. */
  datatype Chunk = Chunk(bytes: nat, text: string, held: nat)

  function TextOf(chunks: seq<Chunk>): string {
    if chunks == [] then "" else TextOf(chunks[..|chunks| - 1]) + chunks[|chunks| - 1].text
  }

  /** The lines that the last read completes. */
  function NewLines(chunks: seq<Chunk>): seq<string>
    requires chunks != []
  {
    CompleteLines(Tail(TextOf(chunks[..|chunks| - 1])) + chunks[|chunks| - 1].text)
  }

  predicate AnyBlank(lines: seq<string>) {
    lines != [] && (IsBlank(lines[0]) || AnyBlank(lines[1..]))
  }

  /** Bytes read since the last read that completed a blank line. That read itself is
      not counted, even where text of the next frame came with it. */
  function BytesPending(chunks: seq<Chunk>): nat {
    if chunks == [] || AnyBlank(NewLines(chunks)) then 0
    else BytesPending(chunks[..|chunks| - 1]) + chunks[|chunks| - 1].bytes
  }

  predicate OverCap(chunks: seq<Chunk>, maxFrameBytes: nat) {
    chunks != [] && BytesPending(chunks[..|chunks| - 1]) + chunks[|chunks| - 1].bytes > maxFrameBytes
  }

  /** Every read of `chunks` stays within the cap. */
  predicate WithinCap(chunks: seq<Chunk>, maxFrameBytes: nat) {
    forall k :: 0 < k <= |chunks| ==> !OverCap(chunks[..k], maxFrameBytes)
  }

  /** What the reads have led to, in terms of the text so far: the meaning of its lines,
      unless an earlier frame was refused or a read went over the cap first. */
  function AfterChunks(chunks: seq<Chunk>, maxFrameBytes: nat, accept: Acceptor): Progress {
    if chunks == [] then NOTHING_READ
    else
      var before := AfterChunks(chunks[..|chunks| - 1], maxFrameBytes, accept);
      if before.failure.Some? then before
      else if OverCap(chunks, maxFrameBytes) then before.(failure := Some(FrameTooLarge))
      else AfterLines(CompleteLines(TextOf(chunks)), accept)
  }

  /** `flush` is what the decoder returns when it is told that the input has ended. */
  function ParseChunks(chunks: seq<Chunk>, flush: string, maxFrameBytes: nat, accept: Acceptor): Progress {
    var p := AfterChunks(chunks, maxFrameBytes, accept);
    if p.failure.Some? then p else AtEnd(p, Tail(TextOf(chunks)) + flush, accept)
  }

  // ---------------------------------------------------------------- the parser

  class EventStreamParser {
    const accept: Acceptor
    var buffer: string
    var frameBytes: nat
    var eventId: string
    var eventType: string
    var dataLines: seq<string>
    /** The events handed to the caller's callback, in order. */
    var delivered: seq<Event>

    constructor (accept: Acceptor)
      ensures this.accept == accept && After([]) && frameBytes == 0 && buffer == ""
    {
      this.accept := accept;
      buffer, frameBytes, eventId, eventType, dataLines, delivered := "", 0, "", "", [], [];
    }

    ghost function Now(failure: Option<StreamError>): Progress
      reads this
    {
      Progress(Fields(eventId, eventType, dataLines), delivered, failure)
    }

    /** These lines have been consumed, without failure. */
    ghost predicate After(lines: seq<string>)
      reads this
    {
      AfterLines(lines, accept) == Now(None)
    }

    method Reset()
      modifies this`eventId, this`eventType, this`dataLines, this`frameBytes
      ensures Fields(eventId, eventType, dataLines) == NO_FIELDS && frameBytes == 0
    {
      eventId := "";
      eventType := "";
      dataLines := [];
      frameBytes := 0;
    }

    method Dispatch() returns (failure: Option<StreamError>)
      modifies this`eventId, this`eventType, this`dataLines, this`frameBytes, this`delivered
      ensures Now(failure) == Dispatched(old(Now(None)), accept)
      ensures failure.None? ==> frameBytes == 0
    {
      if dataLines == [] {
        Reset();
        return None;
      }
      match accept(Fields(eventId, eventType, dataLines)) {
        case Failure(error) => return Some(error);
        case Success(event) =>
          Reset();
          delivered := delivered + [event];
          return None;
      }
    }

    method ConsumeLine(line: string) returns (failure: Option<StreamError>)
      modifies this`eventId, this`eventType, this`dataLines, this`frameBytes, this`delivered
      ensures Now(failure) == Consumed(old(Now(None)), line, accept)
      ensures failure.None? ==> frameBytes == if line == "" then 0 else old(frameBytes)
    {
      if line == "" {
        failure := Dispatch();
        return;
      }
      if line[0] == ':' { return None; }
      var separator := IndexOf(line, ':');
      var field := if separator < 0 then line else line[..separator];
      var value := if separator < 0 then "" else line[separator + 1..];
      if value != "" && value[0] == ' ' { value := value[1..]; }
      if field == "id" { eventId := value; }
      else if field == "event" { eventType := value; }
      else if field == "data" { dataLines := dataLines + [value]; }
      return None;
    }

    /** Consumes every line the buffer holds. `past` are the lines consumed before. */
    method ConsumeLines(ghost past: seq<string>) returns (failure: Option<StreamError>)
      requires After(past)
      modifies this
      ensures var all := AfterLines(past + CompleteLines(old(buffer)), accept);
              failure == all.failure && delivered == all.delivered
      ensures failure.None? ==> After(past + CompleteLines(old(buffer))) && buffer == Tail(old(buffer))
      ensures failure.None? ==> frameBytes == if AnyBlank(CompleteLines(old(buffer))) then 0 else old(frameBytes)
    {
      hide AfterLines, IsBlank;
      ghost var done := past;
      failure := None;
      while '\n' in buffer && failure.None?
        invariant failure.None? ==> After(done) && Tail(buffer) == Tail(old(buffer))
        invariant failure.None? ==> done + CompleteLines(buffer) == past + CompleteLines(old(buffer))
        invariant failure.None? ==>
          (if AnyBlank(CompleteLines(buffer)) then 0 else frameBytes)
          == (if AnyBlank(CompleteLines(old(buffer))) then 0 else old(frameBytes))
        invariant failure.Some? ==>
          var all := AfterLines(past + CompleteLines(old(buffer)), accept);
          failure == all.failure && delivered == all.delivered
        decreases |buffer|
      {
        ghost var line, rest := CompleteLines(buffer)[0], CompleteLines(buffer)[1..];
        assert done + CompleteLines(buffer) == (done + [line]) + rest;
        failure := ConsumeFirstLine(done);
        done := done + [line];
        if failure.Some? { AfterLinesStuck(done, rest, accept); }
      }
      assert failure.None? ==> done + CompleteLines(buffer) == done;
    }

    /** One turn of the loop above. */
    method ConsumeFirstLine(ghost done: seq<string>) returns (failure: Option<StreamError>)
      requires After(done) && '\n' in buffer
      modifies this
      ensures var newline := IndexOf(old(buffer), '\n');
              var line := old(buffer)[..newline];
              && CompleteLines(old(buffer)) == [line] + CompleteLines(buffer)
              && Tail(buffer) == Tail(old(buffer)) && |buffer| < |old(buffer)|
              && AfterLines(done + [line], accept) == Now(failure)
              && (failure.None? ==> frameBytes == if IsBlank(line) then 0 else old(frameBytes))
    {
      hide Consumed;
      var newline := IndexOf(buffer, '\n');
      var line := buffer[..newline];
      buffer := buffer[newline + 1..];
      assert (done + [line])[..|done|] == done;
      if line != "" && line[|line| - 1] == '\r' { line := line[..|line| - 1]; }
      failure := ConsumeLine(line);
    }

    /** One network read. */
    method Read(chunk: Chunk, maxFrameBytes: nat, ghost prior: string) returns (failure: Option<StreamError>)
      requires After(CompleteLines(prior)) && buffer == Tail(prior)
      modifies this
      ensures if old(frameBytes) + chunk.bytes > maxFrameBytes
              then failure == Some(FrameTooLarge) && delivered == old(delivered)
              else var all := AfterLines(CompleteLines(prior + chunk.text), accept);
                   failure == all.failure && delivered == all.delivered
      ensures failure.None? ==> After(CompleteLines(prior + chunk.text)) && buffer == Tail(prior + chunk.text)
      ensures failure.None? ==>
        frameBytes == if AnyBlank(CompleteLines(Tail(prior) + chunk.text)) then 0 else old(frameBytes) + chunk.bytes
    {
      frameBytes := frameBytes + chunk.bytes;
      if frameBytes > maxFrameBytes { return Some(FrameTooLarge); }
      buffer := buffer + chunk.text;
      SplitExtends(prior, chunk.text);
      failure := ConsumeLines(CompleteLines(prior));
    }

    /** The parser is where these reads lead, and they did not fail. */
    ghost predicate Synced(chunks: seq<Chunk>, maxFrameBytes: nat)
      reads this
    {
      && After(CompleteLines(TextOf(chunks)))
      && AfterChunks(chunks, maxFrameBytes, accept) == Now(None)
      && buffer == Tail(TextOf(chunks)) && frameBytes == BytesPending(chunks)
    }

    method ReadNext(chunks: seq<Chunk>, k: nat, maxFrameBytes: nat) returns (failure: Option<StreamError>)
      requires k < |chunks| && Synced(chunks[..k], maxFrameBytes)
      modifies this
      ensures failure.None? ==> Synced(chunks[..k + 1], maxFrameBytes)
      ensures failure.Some? ==>
        AfterChunks(chunks, maxFrameBytes, accept).failure == failure &&
        AfterChunks(chunks, maxFrameBytes, accept).delivered == delivered
    {
      assert chunks[..k + 1][..k] == chunks[..k];
      failure := Read(chunks[k], maxFrameBytes, TextOf(chunks[..k]));
      if failure.Some? { StuckChunks(chunks, k + 1, maxFrameBytes, accept); }
    }

    /** The end of the input. */
    method Finish(flush: string) returns (failure: Option<StreamError>)
      modifies this
      ensures Now(failure) == AtEnd(old(Now(None)), old(buffer) + flush, accept)
    {
      buffer := buffer + flush;
      ghost var before := Now(None);
      failure := ConsumeTail();
      ghost var q := Now(failure);
      assert q == if buffer == "" then before else Consumed(before, WithoutCr(buffer), accept);
      if failure.None? && dataLines != [] { failure := Dispatch(); }
    }

    method ConsumeTail() returns (failure: Option<StreamError>)
      modifies this`eventId, this`eventType, this`dataLines, this`frameBytes, this`delivered
      ensures Now(failure) == if buffer == "" then old(Now(None)) else Consumed(old(Now(None)), WithoutCr(buffer), accept)
    {
      if buffer == "" { return None; }
      var last := buffer;
      if last[|last| - 1] == '\r' { last := last[..|last| - 1]; }
      failure := ConsumeLine(last);
    }
  }

  /** The parser's whole run. Its outcome is fixed by the text and by where the reads
      were cut only through the byte cap. */
  method ParseEventStream(chunks: seq<Chunk>, flush: string, maxFrameBytes: nat, accept: Acceptor)
    returns (delivered: seq<Event>, failure: Option<StreamError>)
    ensures var p := ParseChunks(chunks, flush, maxFrameBytes, accept);
            delivered == p.delivered && failure == p.failure
  {
    var parser := new EventStreamParser(accept);
    var k := 0;
    while k < |chunks|
      invariant 0 <= k <= |chunks| && fresh(parser) && parser.accept == accept
      invariant parser.Synced(chunks[..k], maxFrameBytes)
    {
      failure := parser.ReadNext(chunks, k, maxFrameBytes);
      if failure.Some? { return parser.delivered, failure; }
      k := k + 1;
    }
    assert chunks[..k] == chunks;
    failure := parser.Finish(flush);
    delivered := parser.delivered;
  }

  lemma {:induction false} StuckChunks(chunks: seq<Chunk>, k: nat, maxFrameBytes: nat, accept: Acceptor)
    requires k <= |chunks| && AfterChunks(chunks[..k], maxFrameBytes, accept).failure.Some?
    ensures AfterChunks(chunks, maxFrameBytes, accept) == AfterChunks(chunks[..k], maxFrameBytes, accept)
    decreases |chunks| - k
  {
    if k == |chunks| {
      assert chunks[..k] == chunks;
    } else {
      assert chunks[..k + 1][..k] == chunks[..k];
      StuckChunks(chunks, k + 1, maxFrameBytes, accept);
    }
  }

  // ---------------------------------------------------------------- chunking does not matter

  lemma {:induction false} ChunksAreText(chunks: seq<Chunk>, maxFrameBytes: nat, accept: Acceptor)
    requires WithinCap(chunks, maxFrameBytes)
    ensures var p := AfterChunks(chunks, maxFrameBytes, accept);
            var q := AfterLines(CompleteLines(TextOf(chunks)), accept);
            p.delivered == q.delivered && p.failure == q.failure && (p.failure.None? ==> p == q)
  {
    if chunks != [] {
      var init, text := chunks[..|chunks| - 1], chunks[|chunks| - 1].text;
      forall k | 0 < k <= |init| ensures !OverCap(init[..k], maxFrameBytes) {
        assert init[..k] == chunks[..k];
      }
      ChunksAreText(init, maxFrameBytes, accept);
      assert chunks[..|chunks|] == chunks;
      if AfterChunks(init, maxFrameBytes, accept).failure.Some? {
        SplitExtends(TextOf(init), text);
        AfterLinesStuck(CompleteLines(TextOf(init)), CompleteLines(Tail(TextOf(init)) + text), accept);
      }
    }
  }

  /** However the network cuts a stream, within the cap its events and its failure are
      those of the concatenated text. */
  lemma ChunkBoundariesDoNotMatter(chunks: seq<Chunk>, flush: string, maxFrameBytes: nat, accept: Acceptor)
    requires '\n' !in flush && WithinCap(chunks, maxFrameBytes)
    ensures var p := ParseChunks(chunks, flush, maxFrameBytes, accept);
            var whole := ParseText(TextOf(chunks) + flush, accept);
            p.delivered == whole.delivered && p.failure == whole.failure
  {
    ChunksAreText(chunks, maxFrameBytes, accept);
    FlushJoinsTail(TextOf(chunks), flush);
    var q := AfterLines(CompleteLines(TextOf(chunks)), accept);
    if q.failure.Some? { FailureStays(q, Tail(TextOf(chunks)) + flush, accept); }
  }

  lemma FailureStays(p: Progress, tail: string, accept: Acceptor)
    requires p.failure.Some?
    ensures AtEnd(p, tail, accept) == p
  {
  }

  lemma FlushJoinsTail(text: string, flush: string)
    requires '\n' !in flush
    ensures CompleteLines(text + flush) == CompleteLines(text) && Tail(text + flush) == Tail(text) + flush
  {
    SplitExtends(text, flush);
    assert '\n' !in Tail(text) + flush;
  }

  /** The cap is the only failure that chunking can cause, and it costs the events after
      the refused read and nothing before it. */
  lemma {:induction false} OverCapKeepsEarlierFrames(chunks: seq<Chunk>, k: nat, maxFrameBytes: nat, accept: Acceptor)
    requires k < |chunks| && WithinCap(chunks[..k], maxFrameBytes) && OverCap(chunks[..k + 1], maxFrameBytes)
    ensures var p := AfterChunks(chunks, maxFrameBytes, accept);
            var before := AfterLines(CompleteLines(TextOf(chunks[..k])), accept);
            p.delivered == before.delivered &&
            p.failure == if before.failure.Some? then before.failure else Some(FrameTooLarge)
  {
    assert chunks[..k + 1][..k] == chunks[..k];
    ChunksAreText(chunks[..k], maxFrameBytes, accept);
    StuckChunks(chunks, k + 1, maxFrameBytes, accept);
  }

  /** A stream no longer than the cap is never refused for its size. */
  lemma {:induction false} ShortStreamsFit(chunks: seq<Chunk>, maxFrameBytes: nat)
    requires TotalBytes(chunks) <= maxFrameBytes
    ensures BytesPending(chunks) <= TotalBytes(chunks) && WithinCap(chunks, maxFrameBytes)
  {
    if chunks != [] {
      var init := chunks[..|chunks| - 1];
      ShortStreamsFit(init, maxFrameBytes);
      forall k | 0 < k <= |chunks| ensures !OverCap(chunks[..k], maxFrameBytes) {
        if k < |chunks| { assert init[..k] == chunks[..k]; } else { assert chunks[..k] == chunks; }
      }
    }
  }

  /** Within the cap read by read, yet refused when the network delivers it in one read:
      the cap is on what arrives before a read ends, not on one frame. */
  lemma OneReadMayBeRefused(chunks: seq<Chunk>, maxFrameBytes: nat, accept: Acceptor)
    requires TotalBytes(chunks) > maxFrameBytes
    ensures ParseChunks([Chunk(TotalBytes(chunks), TextOf(chunks), 0)], "", maxFrameBytes, accept)
            == Progress(NO_FIELDS, [], Some(FrameTooLarge))
  {
    var one := [Chunk(TotalBytes(chunks), TextOf(chunks), 0)];
    assert one[..|one| - 1] == [];
    assert BytesPending([]) == 0 && one[|one| - 1].bytes == TotalBytes(chunks);
    assert OverCap(one, maxFrameBytes);
    assert AfterChunks([], maxFrameBytes, accept) == NOTHING_READ;
    assert AfterChunks(one, maxFrameBytes, accept) == NOTHING_READ.(failure := Some(FrameTooLarge));
  }

  function TotalBytes(chunks: seq<Chunk>): nat {
    if chunks == [] then 0 else TotalBytes(chunks[..|chunks| - 1]) + chunks[|chunks| - 1].bytes
  }

  /** Whatever the server prints, however it is cut, comes out again. */
  lemma PrintedStreamIsReadBack(events: seq<Event>, codec: Codec, chunks: seq<Chunk>, maxFrameBytes: nat)
    requires Lawful(codec) && forall e <- events :: Printable(e)
    requires TextOf(chunks) == PrintAll(events, codec) && WithinCap(chunks, maxFrameBytes)
    ensures var p := ParseChunks(chunks, "", maxFrameBytes, EnvelopeChecked(codec));
            p.delivered == events && p.failure == None
  {
    ChunkBoundariesDoNotMatter(chunks, "", maxFrameBytes, EnvelopeChecked(codec));
    assert TextOf(chunks) + "" == TextOf(chunks);
    RoundTrip(events, codec);
  }

  /** A stream may be as long as it likes: if every read fits and completes a frame, none is refused. */
  lemma FrameByFrameFits(chunks: seq<Chunk>, maxFrameBytes: nat)
    requires forall k :: 0 <= k < |chunks| ==> chunks[k].bytes <= maxFrameBytes && AnyBlank(NewLines(chunks[..k + 1]))
    ensures WithinCap(chunks, maxFrameBytes)
  {
    forall k | 0 < k <= |chunks| ensures !OverCap(chunks[..k], maxFrameBytes) {
      var some := chunks[..k];
      assert some[..k - 1] == chunks[..k - 1] && some[k - 1] == chunks[k - 1];
      if k > 1 { assert AnyBlank(NewLines(chunks[..k - 2 + 1])); }
    }
  }

  // ---------------------------------------------------------------- memory

  /** What is used of the streaming decoder: a character takes at least one byte, and what
      follows a line feed in a read was wholly received with that read. */
  predicate Decodes(c: Chunk, heldBefore: nat) {
    && |c.text| + c.held <= heldBefore + c.bytes
    && forall i :: 0 <= i < |c.text| && c.text[i] == '\n' ==> |c.text| - i - 1 + c.held <= c.bytes
  }

  function Held(chunks: seq<Chunk>): nat {
    if chunks == [] then 0 else chunks[|chunks| - 1].held
  }

  predicate Decoded(chunks: seq<Chunk>) {
    chunks != [] ==>
      Decoded(chunks[..|chunks| - 1]) && Decodes(chunks[|chunks| - 1], Held(chunks[..|chunks| - 1]))
  }

  function DataSize(lines: seq<string>): nat {
    if lines == [] then 0 else DataSize(lines[..|lines| - 1]) + |lines[|lines| - 1]|
  }

  function FieldsSize(f: Fields): nat { |f.eventId| + |f.eventType| + DataSize(f.dataLines) }

  /** Characters received since the last blank line among `lines`. */
  function Since(lines: seq<string>): nat {
    if lines == [] || IsBlank(lines[|lines| - 1]) then 0
    else Since(lines[..|lines| - 1]) + |lines[|lines| - 1]| + 1
  }

  lemma DataSizeSnoc(lines: seq<string>, value: string)
    ensures DataSize(lines + [value]) == DataSize(lines) + |value|
  {
    var all := lines + [value];
    assert all[..|all| - 1] == lines;
  }

  lemma FieldSize(f: Fields, name: string, value: string)
    ensures FieldsSize(WithField(f, name, value)) <= FieldsSize(f) + |value|
  {
    DataSizeSnoc(f.dataLines, value);
  }

  lemma LineSize(p: Progress, line: string, accept: Acceptor)
    requires p.failure.None? && Consumed(p, line, accept).failure.None?
    ensures FieldsSize(Consumed(p, line, accept).fields) <= if line == "" then 0 else FieldsSize(p.fields) + |line|
  {
    if line != "" {
      FieldSize(p.fields, FieldName(line), FieldValue(line));
      assert |FieldValue(line)| <= |line|;
    }
  }

  lemma {:induction false} FieldsFit(lines: seq<string>, accept: Acceptor)
    requires AfterLines(lines, accept).failure.None?
    ensures FieldsSize(AfterLines(lines, accept).fields) <= Since(lines)
  {
    if lines != [] {
      FieldsFit(lines[..|lines| - 1], accept);
      LineSize(AfterLines(lines[..|lines| - 1], accept), WithoutCr(lines[|lines| - 1]), accept);
    }
  }

  lemma {:induction false} LineFeedBefore(text: string, j: nat)
    requires j < |CompleteLines(text)|
    ensures var rest := Rejoined(CompleteLines(text)[j + 1..], Tail(text));
            |rest| < |text| && text[|text| - |rest| - 1] == '\n'
    decreases |text|
  {
    var i := IndexOf(text, '\n');
    var lines := CompleteLines(text);
    if j == 0 {
      SplitLosesNothing(text[i + 1..]);
      assert lines[1..] == CompleteLines(text[i + 1..]);
    } else {
      LineFeedBefore(text[i + 1..], j - 1);
      assert lines[j + 1..] == CompleteLines(text[i + 1..])[j..];
    }
  }

  /** With `j` of `lines` consumed after `past`: the characters since the last blank
      line, consumed or still buffered. */
  function Account(past: seq<string>, lines: seq<string>, j: nat, tail: string): nat
    requires j <= |lines|
  {
    Since(past + lines[..j]) + |Rejoined(lines[j..], tail)|
  }

  lemma {:induction false} BlankSoFar(lines: seq<string>, m: nat)
    requires m < |lines|
    ensures AnyBlank(lines[..m + 1]) <==> AnyBlank(lines[..m]) || IsBlank(lines[m])
  {
    if m > 0 {
      BlankSoFar(lines[1..], m - 1);
      assert lines[1..][..m] == lines[..m + 1][1..] && lines[1..][..m - 1] == lines[..m][1..];
    }
  }

  /** Consuming a line moves it from the buffer to the account of the current frame. */
  lemma AccountStep(past: seq<string>, lines: seq<string>, j: nat, tail: string)
    requires j < |lines|
    ensures Account(past, lines, j + 1, tail) ==
            if IsBlank(lines[j]) then |Rejoined(lines[j + 1..], tail)| else Account(past, lines, j, tail)
  {
    var all := past + lines[..j + 1];
    assert all[..|all| - 1] == past + lines[..j];
    assert lines[j..][1..] == lines[j + 1..];
  }

  lemma LineFeedIsNew(tail: string, rest: string, at: nat)
    requires '\n' !in tail && at < |tail + rest| && (tail + rest)[at] == '\n'
    ensures at >= |tail| && rest[at - |tail|] == '\n'
  {
    assert forall k :: 0 <= k < |tail| ==> tail[k] in tail;
  }

  lemma AfterBlankIsNew(tail: string, c: Chunk, heldBefore: nat, text: string, j: nat)
    requires '\n' !in tail && Decodes(c, heldBefore) && text == tail + c.text && j < |CompleteLines(text)|
    ensures |Rejoined(CompleteLines(text)[j + 1..], Tail(text))| + c.held <= c.bytes
  {
    LineFeedBefore(text, j);
    LineFeedIsNew(tail, c.text, |text| - |Rejoined(CompleteLines(text)[j + 1..], Tail(text))| - 1);
  }

  lemma AccountStart(past: seq<string>, text: string)
    ensures Account(past, CompleteLines(text), 0, Tail(text)) == Since(past) + |text|
  {
    var lines := CompleteLines(text);
    SplitLosesNothing(text);
    assert lines[0..] == lines && past + lines[..0] == past;
  }

  lemma {:induction false} AccountFits(past: seq<string>, tail: string, c: Chunk, heldBefore: nat, text: string, j: nat)
    requires '\n' !in tail && Decodes(c, heldBefore) && text == tail + c.text && j <= |CompleteLines(text)|
    ensures Account(past, CompleteLines(text), j, Tail(text)) + c.held <=
            if AnyBlank(CompleteLines(text)[..j]) then c.bytes else Since(past) + |tail| + heldBefore + c.bytes
    decreases j
  {
    if j == 0 {
      AccountStart(past, text);
      assert !AnyBlank([]);
    } else {
      AccountFits(past, tail, c, heldBefore, text, j - 1);
      BlankSoFar(CompleteLines(text), j - 1);
      AccountStep(past, CompleteLines(text), j - 1, Tail(text));
      AfterBlankIsNew(tail, c, heldBefore, text, j - 1);
    }
  }

  lemma InitKeeps(chunks: seq<Chunk>, maxFrameBytes: nat)
    requires chunks != [] && Decoded(chunks) && WithinCap(chunks, maxFrameBytes)
    ensures Decoded(chunks[..|chunks| - 1]) && WithinCap(chunks[..|chunks| - 1], maxFrameBytes)
  {
    var init := chunks[..|chunks| - 1];
    forall k | 0 < k <= |init| ensures !OverCap(init[..k], maxFrameBytes) {
      assert init[..k] == chunks[..k];
    }
  }

  lemma {:induction false} PendingFits(chunks: seq<Chunk>, maxFrameBytes: nat)
    requires Decoded(chunks) && WithinCap(chunks, maxFrameBytes)
    ensures var text := TextOf(chunks);
            Since(CompleteLines(text)) + |Tail(text)| + Held(chunks) <= maxFrameBytes + BytesPending(chunks)
  {
    if chunks != [] {
      var init, c := chunks[..|chunks| - 1], chunks[|chunks| - 1];
      InitKeeps(chunks, maxFrameBytes);
      PendingFits(init, maxFrameBytes);
      var past, tail := CompleteLines(TextOf(init)), Tail(TextOf(init));
      var lines := CompleteLines(tail + c.text);
      SplitExtends(TextOf(init), c.text);
      AccountFits(past, tail, c, Held(init), tail + c.text, |lines|);
      assert lines[..|lines|] == lines && chunks[..|chunks|] == chunks;
    }
  }

  /** Bounded memory: after any read, and after any number `j` of its lines have been
      consumed, the buffer and the fields together hold at most twice the cap, although
      the byte counter restarts in the middle of a read. */
  lemma MemoryIsBounded(chunks: seq<Chunk>, c: Chunk, j: nat, maxFrameBytes: nat, accept: Acceptor)
    requires Decoded(chunks + [c]) && WithinCap(chunks + [c], maxFrameBytes)
    requires j <= |CompleteLines(Tail(TextOf(chunks)) + c.text)|
    requires AfterLines(CompleteLines(TextOf(chunks)) + CompleteLines(Tail(TextOf(chunks)) + c.text)[..j], accept).failure.None?
    ensures var buffered := Tail(TextOf(chunks)) + c.text;
            var consumed := CompleteLines(TextOf(chunks)) + CompleteLines(buffered)[..j];
            var buffer := Rejoined(CompleteLines(buffered)[j..], Tail(buffered));
            |buffer| + FieldsSize(AfterLines(consumed, accept).fields) <= 2 * maxFrameBytes
  {
    var all := chunks + [c];
    assert all[..|chunks|] == chunks && all[..|all|] == all;
    InitKeeps(all, maxFrameBytes);
    PendingFits(chunks, maxFrameBytes);
    assert !OverCap(all[..|all|], maxFrameBytes);
    var past, tail := CompleteLines(TextOf(chunks)), Tail(TextOf(chunks));
    AccountFits(past, tail, c, Held(chunks), tail + c.text, j);
    FieldsFit(past + CompleteLines(tail + c.text)[..j], accept);
  }

  /** Nor does the end of the stream exceed it: a flush gives no more characters than the decoder held
      bytes, and the last line, if there is one, becomes part of the fields. */
  lemma MemoryIsBoundedAtEnd(chunks: seq<Chunk>, flush: string, maxFrameBytes: nat, accept: Acceptor)
    requires Decoded(chunks) && WithinCap(chunks, maxFrameBytes) && |flush| <= Held(chunks)
    requires AfterLines(CompleteLines(TextOf(chunks)), accept).failure.None?
    ensures var p, last := AfterLines(CompleteLines(TextOf(chunks)), accept), Tail(TextOf(chunks)) + flush;
      && |last| + FieldsSize(p.fields) <= 2 * maxFrameBytes
      && (Consumed(p, WithoutCr(last), accept).failure.None? ==> FieldsSize(Consumed(p, WithoutCr(last), accept).fields) <= 2 * maxFrameBytes)
  {
    PendingFits(chunks, maxFrameBytes);
    FieldsFit(CompleteLines(TextOf(chunks)), accept);
    assert BytesPending(chunks) <= maxFrameBytes by {
      if chunks != [] { assert !OverCap(chunks[..|chunks|], maxFrameBytes) && chunks[..|chunks|] == chunks; }
    }
    var p, last := AfterLines(CompleteLines(TextOf(chunks)), accept), Tail(TextOf(chunks)) + flush;
    if Consumed(p, WithoutCr(last), accept).failure.None? {
      LineSize(p, WithoutCr(last), accept);
    }
  }
}
