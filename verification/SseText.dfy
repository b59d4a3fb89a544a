/** The text of an event stream: how it splits into lines, and what the lines mean.
    Nothing here knows about network reads; this is the reference the incremental parser
    of SseParser is held to. The dialect is the one of the browser client: only a line
    feed ends a line, one carriage return before it is dropped, and no field survives
    a dispatched frame. */
module SseText {
  import opened Wrappers

  datatype StreamError = InvalidJson | InvalidEnvelope | FramingMismatch | FrameTooLarge

  datatype Event = Event(eventId: string, kind: string, body: string)

  /** The fields of the frame being assembled. */
  datatype Fields = Fields(eventId: string, eventType: string, dataLines: seq<string>)

  const NO_FIELDS := Fields("", "", [])

  /** What a prefix of the stream has led to. Once `failure` is set nothing more is read. */
  datatype Progress = Progress(fields: Fields, delivered: seq<Event>, failure: Option<StreamError>)

  const NOTHING_READ := Progress(NO_FIELDS, [], None)

  /** How a complete frame becomes an event, or why it does not. */
  type Acceptor = Fields -> Result<Event, StreamError>

  // ---------------------------------------------------------------- lines

  /** The first index of `c` in `s`, or -1. */
  function IndexOf(s: string, c: char): (i: int)
    ensures -1 <= i < |s|
    ensures i < 0 ==> c !in s
    ensures i >= 0 ==> s[i] == c && forall k :: 0 <= k < i ==> s[k] != c
  {
    if s == "" then -1
    else if s[0] == c then 0
    else
      var rest := IndexOf(s[1..], c);
      if rest < 0 then -1 else rest + 1
  }

  lemma IndexOfIs(s: string, c: char, i: nat)
    requires i < |s| && s[i] == c && c !in s[..i]
    ensures IndexOf(s, c) == i
  {
    forall k | 0 <= k < i ensures s[k] != c { assert s[..i][k] == s[k]; }
  }

  /** The lines of `text` that a line feed has ended, without that line feed. */
  function CompleteLines(text: string): (lines: seq<string>)
    ensures forall line <- lines :: '\n' !in line
    decreases |text|
  {
    var i := IndexOf(text, '\n');
    if i < 0 then [] else [text[..i]] + CompleteLines(text[i + 1..])
  }

  /** What follows the last line feed of `text`. */
  function Tail(text: string): (tail: string)
    ensures '\n' !in tail
    decreases |text|
  {
    var i := IndexOf(text, '\n');
    if i < 0 then text else Tail(text[i + 1..])
  }

  /** Lines, each ended by a line feed, and then `tail`. */
  function Rejoined(lines: seq<string>, tail: string): string {
    if lines == [] then tail else lines[0] + ("\n" + Rejoined(lines[1..], tail))
  }

  lemma CutAt(text: string, i: nat)
    requires i < |text| && text[i] == '\n'
    ensures text == text[..i] + ("\n" + text[i + 1..])
  {
  }

  lemma {:induction false} SplitLosesNothing(text: string)
    ensures Rejoined(CompleteLines(text), Tail(text)) == text
    decreases |text|
  {
    var i := IndexOf(text, '\n');
    if i >= 0 {
      var first, rest := text[..i], text[i + 1..];
      SplitLosesNothing(rest);
      CutAt(text, i);
      RejoinedCons(first, CompleteLines(rest), Tail(rest));
    }
  }

  lemma RejoinedCons(first: string, lines: seq<string>, tail: string)
    ensures Rejoined([first] + lines, tail) == first + ("\n" + Rejoined(lines, tail))
  {
    assert ([first] + lines)[1..] == lines;
  }

  lemma {:induction false} SplitOfRejoined(lines: seq<string>, tail: string)
    requires '\n' !in tail && forall line <- lines :: '\n' !in line
    ensures CompleteLines(Rejoined(lines, tail)) == lines && Tail(Rejoined(lines, tail)) == tail
  {
    if lines != [] {
      SplitOfRejoined(lines[1..], tail);
      SplitFirstLine(lines[0], Rejoined(lines[1..], tail));
    }
  }

  /** Splitting into lines loses nothing, and is the only way to split: whatever breaks
      `text` into lines without line feeds and a tail without one is this split. */
  lemma SplitIsUnique(text: string, lines: seq<string>, tail: string)
    requires '\n' !in tail && forall line <- lines :: '\n' !in line
    ensures Rejoined(lines, tail) == text <==> (lines == CompleteLines(text) && tail == Tail(text))
  {
    SplitLosesNothing(text);
    SplitOfRejoined(lines, tail);
  }

  /** Reading on after a prefix: only the prefix's tail still matters. */
  lemma {:induction false} SplitExtends(a: string, b: string)
    ensures CompleteLines(a + b) == CompleteLines(a) + CompleteLines(Tail(a) + b)
    ensures Tail(a + b) == Tail(Tail(a) + b)
    decreases |a|
  {
    var i := IndexOf(a, '\n');
    if i >= 0 {
      assert (a + b)[..i] == a[..i];
      IndexOfIs(a + b, '\n', i);
      assert (a + b)[i + 1..] == a[i + 1..] + b;
      SplitExtends(a[i + 1..], b);
    }
  }

  lemma SplitFirstLine(line: string, rest: string)
    requires '\n' !in line
    ensures CompleteLines(line + ("\n" + rest)) == [line] + CompleteLines(rest)
    ensures Tail(line + ("\n" + rest)) == Tail(rest)
  {
    var text := line + ("\n" + rest);
    assert text[..|line|] == line;
    IndexOfIs(text, '\n', |line|);
    assert text[|line| + 1..] == rest;
  }

  // ---------------------------------------------------------------- frames

  function WithoutCr(line: string): string {
    if line != "" && line[|line| - 1] == '\r' then line[..|line| - 1] else line
  }

  predicate IsBlank(line: string) { WithoutCr(line) == "" }

  function JoinLines(lines: seq<string>): string {
    if lines == [] then "" else if |lines| == 1 then lines[0] else lines[0] + "\n" + JoinLines(lines[1..])
  }

  function Dispatched(p: Progress, accept: Acceptor): Progress {
    if p.fields.dataLines == [] then p.(fields := NO_FIELDS)
    else match accept(p.fields)
      case Success(event) => Progress(NO_FIELDS, p.delivered + [event], None)
      case Failure(error) => p.(failure := Some(error))
  }

  function FieldName(line: string): string {
    var separator := IndexOf(line, ':');
    if separator < 0 then line else line[..separator]
  }

  function FieldValue(line: string): string {
    var separator := IndexOf(line, ':');
    var value := if separator < 0 then "" else line[separator + 1..];
    if value != "" && value[0] == ' ' then value[1..] else value
  }

  function WithField(f: Fields, name: string, value: string): Fields {
    if name == "id" then f.(eventId := value)
    else if name == "event" then f.(eventType := value)
    else if name == "data" then f.(dataLines := f.dataLines + [value])
    else f
  }

  /** One line, already without its terminator. */
  function Consumed(p: Progress, line: string, accept: Acceptor): Progress {
    if p.failure.Some? then p
    else if line == "" then Dispatched(p, accept)
    else if line[0] == ':' then p
    else p.(fields := WithField(p.fields, FieldName(line), FieldValue(line)))
  }

  function AfterLines(lines: seq<string>, accept: Acceptor): Progress {
    if lines == [] then NOTHING_READ
    else Consumed(AfterLines(lines[..|lines| - 1], accept), WithoutCr(lines[|lines| - 1]), accept)
  }

  /** End of input: an unfinished last line still counts, and so does a pending frame. */
  function AtEnd(p: Progress, tail: string, accept: Acceptor): Progress {
    var q := if tail == "" then p else Consumed(p, WithoutCr(tail), accept);
    if q.failure.None? && q.fields.dataLines != [] then Dispatched(q, accept) else q
  }

  /** The meaning of a whole stream. */
  function ParseText(text: string, accept: Acceptor): Progress {
    AtEnd(AfterLines(CompleteLines(text), accept), Tail(text), accept)
  }

  lemma {:induction false} AfterLinesStuck(lines: seq<string>, more: seq<string>, accept: Acceptor)
    requires AfterLines(lines, accept).failure.Some?
    ensures AfterLines(lines + more, accept) == AfterLines(lines, accept)
    decreases |more|
  {
    if more == [] {
      assert lines + more == lines;
    } else {
      var all := lines + more;
      assert all[..|all| - 1] == lines + more[..|more| - 1];
      AfterLinesStuck(lines, more[..|more| - 1], accept);
    }
  }

  // ---------------------------------------------------------------- printing

  /** The codec for event envelopes: JSON in the program, here any pair of functions. */
  datatype Codec = Codec(encode: Event -> string, decode: string -> Result<Event, StreamError>)

  predicate Clean(s: string) { '\n' !in s && '\r' !in s }

  /** What is assumed of JSON: it reads back what it wrote and writes no line ends. */
  ghost predicate Lawful(codec: Codec) {
    forall e: Event :: Clean(codec.encode(e)) && codec.decode(codec.encode(e)) == Success(e)
  }

  /** Event identifiers and types as the protocol's schema admits them. */
  predicate Printable(e: Event) {
    e.eventId != "" && e.kind != "" && Clean(e.eventId) && Clean(e.kind)
  }

  function PrintedField(name: string, value: string): string { name + ": " + value }

  function FrameLines(e: Event, codec: Codec): seq<string> {
    [PrintedField("id", e.eventId), PrintedField("event", e.kind), PrintedField("data", codec.encode(e)), ""]
  }

  /** One frame as the server writes it: three fields and a blank line. */
  function Frame(e: Event, codec: Codec): string {
    Rejoined(FrameLines(e, codec), "")
  }

  function PrintAll(events: seq<Event>, codec: Codec): string {
    if events == [] then "" else PrintAll(events[..|events| - 1], codec) + Frame(events[|events| - 1], codec)
  }

  /** The browser's acceptance test: the JSON must parse, and the frame's identifier and
      type must be present and agree with the envelope inside. */
  function EnvelopeChecked(codec: Codec): Acceptor {
    (f: Fields) =>
      match codec.decode(JoinLines(f.dataLines))
      case Failure(error) => Failure(error)
      case Success(e) =>
        if f.eventId == "" || f.eventType == "" || e.eventId != f.eventId || e.kind != f.eventType
        then Failure(FramingMismatch) else Success(e)
  }

  lemma FieldLine(name: string, value: string)
    requires name != "" && ':' !in name && Clean(name) && Clean(value)
    ensures var line := PrintedField(name, value);
            '\n' !in line && WithoutCr(line) == line && line != "" && line[0] != ':' &&
            FieldName(line) == name && FieldValue(line) == value
  {
    var line := PrintedField(name, value);
    assert line[..|name|] == name;
    assert line[0] == name[0] && name[0] in name;
    IndexOfIs(line, ':', |name|);
    assert line[|name| + 1..] == " " + value;
    var last := line[|line| - 1];
    assert last == ' ' || last in value by {
      if value == "" { assert line == name + ": "; } else { assert last == value[|value| - 1]; }
    }
  }

  /** A printed field sets that field and nothing else. */
  lemma FieldConsumed(lines: seq<string>, name: string, value: string, accept: Acceptor)
    requires name != "" && ':' !in name && Clean(name) && Clean(value)
    requires AfterLines(lines, accept).failure.None?
    ensures var p := AfterLines(lines, accept);
            AfterLines(lines + [PrintedField(name, value)], accept) == p.(fields := WithField(p.fields, name, value))
  {
    FieldLine(name, value);
    var all := lines + [PrintedField(name, value)];
    assert all[..|all| - 1] == lines;
  }

  lemma FrameLinesAreLines(e: Event, codec: Codec)
    requires Lawful(codec) && Printable(e)
    ensures forall line <- FrameLines(e, codec) :: '\n' !in line
  {
    var lines := FrameLines(e, codec);
    forall i | 0 <= i < |lines| ensures '\n' !in lines[i] {
      if i == 0 { FieldLine("id", e.eventId); }
      else if i == 1 { FieldLine("event", e.kind); }
      else if i == 2 { FieldLine("data", codec.encode(e)); }
    }
  }

  lemma FrameSplits(e: Event, codec: Codec)
    requires Lawful(codec) && Printable(e)
    ensures CompleteLines(Frame(e, codec)) == FrameLines(e, codec) && Tail(Frame(e, codec)) == ""
  {
    FrameLinesAreLines(e, codec);
    SplitOfRejoined(FrameLines(e, codec), "");
  }

  lemma FrameDelivers(lines: seq<string>, e: Event, codec: Codec)
    requires Lawful(codec) && Printable(e)
    requires AfterLines(lines, EnvelopeChecked(codec)).failure.None?
    requires AfterLines(lines, EnvelopeChecked(codec)).fields == NO_FIELDS
    ensures var before := AfterLines(lines, EnvelopeChecked(codec));
            AfterLines(lines + FrameLines(e, codec), EnvelopeChecked(codec)) == Progress(NO_FIELDS, before.delivered + [e], None)
  {
    FieldsDelivered(lines, e.eventId, e.kind, codec.encode(e), EnvelopeChecked(codec));
    BlankDispatches(lines + [PrintedField("id", e.eventId)] + [PrintedField("event", e.kind)]
                    + [PrintedField("data", codec.encode(e))], e, codec);
    AppendOneByOne(lines, PrintedField("id", e.eventId), PrintedField("event", e.kind), PrintedField("data", codec.encode(e)), "");
  }

  lemma AppendOneByOne<T>(s: seq<T>, a: T, b: T, c: T, d: T)
    ensures s + [a, b, c, d] == s + [a] + [b] + [c] + [d]
  {
  }

  lemma FieldsDelivered(lines: seq<string>, id: string, kind: string, data: string, accept: Acceptor)
    requires Clean(id) && Clean(kind) && Clean(data)
    requires AfterLines(lines, accept).failure.None? && AfterLines(lines, accept).fields == NO_FIELDS
    ensures AfterLines(lines + [PrintedField("id", id)] + [PrintedField("event", kind)] + [PrintedField("data", data)], accept)
            == AfterLines(lines, accept).(fields := Fields(id, kind, [data]))
  {
    hide AfterLines, WithField;
    FieldConsumed(lines, "id", id, accept);
    FieldConsumed(lines + [PrintedField("id", id)], "event", kind, accept);
    FieldConsumed(lines + [PrintedField("id", id)] + [PrintedField("event", kind)], "data", data, accept);
    ThreeFields(id, kind, data);
  }

  lemma ThreeFields(id: string, kind: string, data: string)
    ensures WithField(WithField(WithField(NO_FIELDS, "id", id), "event", kind), "data", data) == Fields(id, kind, [data])
  {
  }

  lemma BlankDispatches(lines: seq<string>, e: Event, codec: Codec)
    requires Lawful(codec) && Printable(e)
    requires AfterLines(lines, EnvelopeChecked(codec)).failure.None?
    requires AfterLines(lines, EnvelopeChecked(codec)).fields == Fields(e.eventId, e.kind, [codec.encode(e)])
    ensures var before := AfterLines(lines, EnvelopeChecked(codec));
            AfterLines(lines + [""], EnvelopeChecked(codec)) == Progress(NO_FIELDS, before.delivered + [e], None)
  {
    var all := lines + [""];
    assert all[..|all| - 1] == lines;
    assert JoinLines([codec.encode(e)]) == codec.encode(e);
  }

  lemma OneMoreFrame(text: string, events: seq<Event>, e: Event, codec: Codec)
    requires Lawful(codec) && Printable(e) && Tail(text) == ""
    requires AfterLines(CompleteLines(text), EnvelopeChecked(codec)) == Progress(NO_FIELDS, events, None)
    ensures Tail(text + Frame(e, codec)) == ""
    ensures AfterLines(CompleteLines(text + Frame(e, codec)), EnvelopeChecked(codec)) == Progress(NO_FIELDS, events + [e], None)
  {
    var frame := Frame(e, codec);
    SplitExtends(text, frame);
    assert Tail(text) + frame == frame;
    FrameSplits(e, codec);
    FrameDelivers(CompleteLines(text), e, codec);
  }

  lemma PrintAllSnoc(init: seq<Event>, last: Event, codec: Codec)
    ensures PrintAll(init + [last], codec) == PrintAll(init, codec) + Frame(last, codec)
  {
    assert (init + [last])[..|init|] == init;
  }

  lemma {:induction false} PrintedLines(events: seq<Event>, codec: Codec)
    requires Lawful(codec) && forall e <- events :: Printable(e)
    ensures Tail(PrintAll(events, codec)) == ""
    ensures AfterLines(CompleteLines(PrintAll(events, codec)), EnvelopeChecked(codec)) == Progress(NO_FIELDS, events, None)
  {
    if events != [] {
      var init, last := events[..|events| - 1], events[|events| - 1];
      assert events == init + [last];
      PrintedLines(init, codec);
      PrintAllSnoc(init, last, codec);
      OneMoreFrame(PrintAll(init, codec), init, last, codec);
    }
  }

  /** Reading back what the server printed gives exactly the events that were printed. */
  lemma RoundTrip(events: seq<Event>, codec: Codec)
    requires Lawful(codec) && forall e <- events :: Printable(e)
    ensures ParseText(PrintAll(events, codec), EnvelopeChecked(codec)) == Progress(NO_FIELDS, events, None)
  {
    PrintedLines(events, codec);
  }
}
