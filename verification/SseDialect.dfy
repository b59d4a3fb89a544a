/** What the event-stream text may look like and still mean the same: line ends, spaces after colons,
    comments, several data lines, frames without data, a last frame without its blank line. And what is
    never delivered. */
module SseDialect {
  import opened Wrappers
  import opened SseText

  /** A line without its line end. */
  predicate Plain(line: string) { '\n' !in line && (line == "" || line[|line| - 1] != '\r') }

  function WithCr(lines: seq<string>): seq<string> {
    seq(|lines|, i requires 0 <= i < |lines| => lines[i] + "\r")
  }

  lemma CrIsDropped(line: string)
    requires Plain(line)
    ensures WithoutCr(line + "\r") == line && WithoutCr(line) == line
  {
    assert (line + "\r")[..|line|] == line;
  }

  lemma {:induction false} LinesReadTheSame(lines: seq<string>, accept: Acceptor)
    requires forall line <- lines :: Plain(line)
    ensures AfterLines(WithCr(lines), accept) == AfterLines(lines, accept)
  {
    if lines != [] {
      var last := |lines| - 1;
      assert WithCr(lines)[..last] == WithCr(lines[..last]);
      LinesReadTheSame(lines[..last], accept);
      CrIsDropped(lines[last]);
    }
  }

  lemma PlainEnds(line: string)
    requires Plain(line)
    ensures '\n' !in line + "\r"
  {}

  /** Lines that end in CRLF mean what they mean when they end in LF. */
  lemma CrLfReadsTheSame(lines: seq<string>, tail: string, accept: Acceptor)
    requires (forall line <- lines :: Plain(line)) && '\n' !in tail
    ensures ParseText(Rejoined(WithCr(lines), tail), accept) == ParseText(Rejoined(lines, tail), accept)
  {
    forall line | line in WithCr(lines) ensures '\n' !in line {
      var i :| 0 <= i < |lines| && line == lines[i] + "\r";
      PlainEnds(lines[i]);
    }
    SplitOfRejoined(lines, tail);
    SplitOfRejoined(WithCr(lines), tail);
    LinesReadTheSame(lines, accept);
  }

  // ---------------------------------------------------------------- single lines

  /** A field is read the same with the space after its colon and without, if its value does not start with one. */
  lemma SpaceIsOptional(name: string, value: string)
    requires ':' !in name && (value == "" || value[0] != ' ')
    ensures FieldName(name + ":" + value) == name && FieldValue(name + ":" + value) == value
    ensures FieldName(name + ": " + value) == name && FieldValue(name + ": " + value) == value
  {
    var line, spaced := name + ":" + value, name + ": " + value;
    assert line[..|name|] == name && spaced[..|name|] == name;
    IndexOfIs(line, ':', |name|);
    IndexOfIs(spaced, ':', |name|);
    assert line[|name| + 1..] == value && spaced[|name| + 1..] == " " + value;
  }

  /** Comments, and fields of other names, change nothing. */
  lemma OthersAreIgnored(p: Progress, line: string, accept: Acceptor)
    requires p.failure.None? && line != "" && (line[0] == ':' || FieldName(line) !in {"id", "event", "data"})
    ensures Consumed(p, line, accept) == p
  {}

  /** A named field replaces what was there, save data, which is added. */
  lemma FieldsAreSet(p: Progress, name: string, value: string, accept: Acceptor)
    requires p.failure.None? && name in {"id", "event", "data"} && (value == "" || value[0] != ' ')
    ensures var next := Consumed(p, name + ":" + value, accept);
      && next.delivered == p.delivered && next.failure.None?
      && next.fields.eventId == (if name == "id" then value else p.fields.eventId)
      && next.fields.eventType == (if name == "event" then value else p.fields.eventType)
      && next.fields.dataLines == (if name == "data" then p.fields.dataLines + [value] else p.fields.dataLines)
  {
    assert ':' !in "id" && ':' !in "event" && ':' !in "data";
    SpaceIsOptional(name, value);
    var line := name + ":" + value;
    assert line[0] == name[0];
  }

  /** Several data lines are one text, with line feeds between them. */
  lemma {:induction false} DataLinesAreJoined(lines: seq<string>)
    requires lines != []
    ensures JoinLines(lines) == Rejoined(lines[..|lines| - 1], lines[|lines| - 1])
  {
    if |lines| > 1 {
      DataLinesAreJoined(lines[1..]);
      assert lines[1..][..|lines| - 2] == lines[..|lines| - 1][1..];
    }
  }

  // ---------------------------------------------------------------- frames

  /** A frame without data is dropped, fields and all. */
  lemma FrameWithoutDataIsDropped(p: Progress, accept: Acceptor)
    requires p.failure.None? && p.fields.dataLines == []
    ensures Consumed(p, "", accept) == Progress(NO_FIELDS, p.delivered, None)
  {}

  /** The acceptance test passes exactly the frames whose identifier and type are there and are the envelope's own. */
  lemma AcceptedIff(codec: Codec, f: Fields)
    ensures var decoded := codec.decode(JoinLines(f.dataLines)); var answer := EnvelopeChecked(codec)(f);
      && (answer.Success? <==>
            decoded.Success? && f.eventId != "" && f.eventType != "" && decoded.value.eventId == f.eventId && decoded.value.kind == f.eventType)
      && (answer.Success? ==> answer == decoded)
      && (answer.Failure? ==> answer.error == if decoded.Failure? then decoded.error else FramingMismatch)
  {}

  /** A blank line delivers the frame's event exactly if the frame has data and passes; a frame that does not
      pass ends the stream, and what was delivered before stays. */
  lemma BlankDelivers(p: Progress, codec: Codec)
    requires p.failure.None?
    ensures var accept := EnvelopeChecked(codec); var next := Consumed(p, "", accept); var decoded := codec.decode(JoinLines(p.fields.dataLines));
      if p.fields.dataLines == [] then next.delivered == p.delivered && next.failure.None?
      else if decoded.Success? && p.fields.eventId != "" && p.fields.eventType != ""
              && decoded.value.eventId == p.fields.eventId && decoded.value.kind == p.fields.eventType
      then next == Progress(NO_FIELDS, p.delivered + [decoded.value], None)
      else next.failure.Some? && next.delivered == p.delivered
  {
    AcceptedIff(codec, p.fields);
  }

  predicate Named(events: seq<Event>) { forall e <- events :: e.eventId != "" && e.kind != "" }

  lemma LineKeepsNamed(p: Progress, line: string, codec: Codec)
    requires Named(p.delivered)
    ensures Named(Consumed(p, line, EnvelopeChecked(codec)).delivered)
    ensures p.delivered <= Consumed(p, line, EnvelopeChecked(codec)).delivered
  {
    if line == "" && p.failure.None? { BlankDelivers(p, codec); }
  }

  lemma {:induction false} LinesKeepNamed(lines: seq<string>, codec: Codec)
    ensures Named(AfterLines(lines, EnvelopeChecked(codec)).delivered)
  {
    if lines != [] {
      LinesKeepNamed(lines[..|lines| - 1], codec);
      LineKeepsNamed(AfterLines(lines[..|lines| - 1], EnvelopeChecked(codec)), WithoutCr(lines[|lines| - 1]), codec);
    }
  }

  /** Whatever the text, nothing without an identifier and a type is delivered. */
  lemma OnlyNamedAreDelivered(text: string, codec: Codec)
    ensures Named(ParseText(text, EnvelopeChecked(codec)).delivered)
  {
    var accept := EnvelopeChecked(codec);
    var p := AfterLines(CompleteLines(text), accept);
    LinesKeepNamed(CompleteLines(text), codec);
    LineKeepsNamed(p, WithoutCr(Tail(text)), codec);
    var q := if Tail(text) == "" then p else Consumed(p, WithoutCr(Tail(text)), accept);
    if q.failure.None? {
      LineKeepsNamed(q, "", codec);
      assert Consumed(q, "", accept) == Dispatched(q, accept);
    }
  }

  function Unfinished(e: Event, codec: Codec): string {
    Rejoined([PrintedField("id", e.eventId), PrintedField("event", e.kind)], PrintedField("data", codec.encode(e)))
  }

  lemma UnfinishedSplits(e: Event, codec: Codec)
    requires Lawful(codec) && Printable(e)
    ensures CompleteLines(Unfinished(e, codec)) == [PrintedField("id", e.eventId), PrintedField("event", e.kind)]
    ensures Tail(Unfinished(e, codec)) == PrintedField("data", codec.encode(e))
  {
    assert Clean(codec.encode(e));
    hide Lawful;
    FieldLine("id", e.eventId);
    FieldLine("event", e.kind);
    FieldLine("data", codec.encode(e));
    hide PrintedField, FieldName, FieldValue, WithoutCr, CompleteLines, Tail;
    var before := [PrintedField("id", e.eventId), PrintedField("event", e.kind)];
    assert before[0] == PrintedField("id", e.eventId) && before[1] == PrintedField("event", e.kind);
    SplitOfRejoined(before, PrintedField("data", codec.encode(e)));
  }

  /** A last line without a line end counts as a line, and a pending frame is then dispatched. */
  lemma AtEndIsLine(lines: seq<string>, tail: string, accept: Acceptor)
    requires tail != ""
    ensures var q := AfterLines(lines + [tail], accept);
      AtEnd(AfterLines(lines, accept), tail, accept) == if q.failure.None? && q.fields.dataLines != [] then Dispatched(q, accept) else q
  {
    var all := lines + [tail];
    assert all[..|all| - 1] == lines;
  }

  lemma CompleteFieldsDispatch(q: Progress, e: Event, codec: Codec)
    requires Lawful(codec) && Printable(e)
    requires q.failure.None? && q.fields == Fields(e.eventId, e.kind, [codec.encode(e)])
    ensures Dispatched(q, EnvelopeChecked(codec)) == Progress(NO_FIELDS, q.delivered + [e], None)
  {
    assert JoinLines([codec.encode(e)]) == codec.encode(e);
  }

  lemma TwoLinesAndATail(text: string, more: string, a: string, b: string, last: string, accept: Acceptor)
    requires Tail(text) == "" && CompleteLines(more) == [a, b] && Tail(more) == last && last != ""
    ensures var q := AfterLines(CompleteLines(text) + [a] + [b] + [last], accept);
      ParseText(text + more, accept) == if q.failure.None? && q.fields.dataLines != [] then Dispatched(q, accept) else q
  {
    hide AfterLines, CompleteLines, Tail, AtEnd, Dispatched;
    SplitExtends(text, more);
    assert "" + more == more;
    assert CompleteLines(text) + [a, b] == CompleteLines(text) + [a] + [b];
    AtEndIsLine(CompleteLines(text) + [a] + [b], last, accept);
  }

  /** The last frame counts also when the stream ends before its blank line, and before the end of its last line. */
  lemma UnfinishedFrameIsDelivered(events: seq<Event>, e: Event, codec: Codec)
    requires Lawful(codec) && Printable(e) && forall d <- events :: Printable(d)
    ensures ParseText(PrintAll(events, codec) + Unfinished(e, codec), EnvelopeChecked(codec)) == Progress(NO_FIELDS, events + [e], None)
  {
    var accept := EnvelopeChecked(codec);
    var text := PrintAll(events, codec);
    var a, b, last := PrintedField("id", e.eventId), PrintedField("event", e.kind), PrintedField("data", codec.encode(e));
    PrintedLines(events, codec);
    UnfinishedSplits(e, codec);
    assert Clean(codec.encode(e)) && last != "";
    hide AfterLines, CompleteLines, Tail, ParseText, PrintAll, Dispatched, Unfinished, PrintedField;
    TwoLinesAndATail(text, Unfinished(e, codec), a, b, last, accept);
    FieldsDelivered(CompleteLines(text), e.eventId, e.kind, codec.encode(e), accept);
    CompleteFieldsDispatch(AfterLines(CompleteLines(text) + [a] + [b] + [last], accept), e, codec);
  }
}
