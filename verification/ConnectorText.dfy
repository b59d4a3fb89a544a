/** The text of a connector's answer: cut into pieces, sent as events, put together by the client. */
module ConnectorText {
  import opened Wrappers
  import opened ChatReducer
  import opened ChatFields

  // ---------------------------------------------------------------- cutting

  function Concat(chunks: seq<string>): string {
    if chunks == [] then "" else chunks[0] + Concat(chunks[1..])
  }

  const CHUNK_LIMIT := 20_000

  /** `value.slice(from, to)` for non-negative bounds. */
  function Slice(value: string, from: nat, to: nat): (r: string)
    requires from <= to
    ensures |r| <= to - from
  {
    if from >= |value| then "" else if to > |value| then value[from..] else value[from..to]
  }

  lemma {:induction false} ConcatSnoc(chunks: seq<string>, last: string)
    ensures Concat(chunks + [last]) == Concat(chunks) + last
  {
    if chunks == [] {
      assert chunks + [last] == [last];
    } else {
      assert (chunks + [last])[1..] == chunks[1..] + [last];
      ConcatSnoc(chunks[1..], last);
    }
  }

  /** The chunks are non-empty, at most the limit long, and put together give the text; only the
      last may be shorter than the limit. */
  method TextChunks(value: string) returns (chunks: seq<string>)
    ensures Concat(chunks) == value
    ensures forall k :: 0 <= k < |chunks| ==> 0 < |chunks[k]| <= CHUNK_LIMIT
    ensures forall k :: 0 <= k < |chunks| - 1 ==> |chunks[k]| == CHUNK_LIMIT
  {
    chunks := [];
    var offset := 0;
    while offset < |value|
      invariant Concat(chunks) == Slice(value, 0, offset)
      invariant forall k :: 0 <= k < |chunks| ==> 0 < |chunks[k]| <= CHUNK_LIMIT
      invariant offset <= |value| ==> forall k :: 0 <= k < |chunks| ==> |chunks[k]| == CHUNK_LIMIT
      invariant forall k :: 0 <= k < |chunks| - 1 ==> |chunks[k]| == CHUNK_LIMIT
      decreases |value| - offset
    {
      var chunk := Slice(value, offset, offset + CHUNK_LIMIT);
      assert Slice(value, 0, offset) + chunk == Slice(value, 0, offset + CHUNK_LIMIT);
      ConcatSnoc(chunks, chunk);
      chunks := chunks + [chunk];
      offset := offset + CHUNK_LIMIT;
    }
    assert Slice(value, 0, offset) == value;
  }

  function Ceiling(a: nat, b: nat): nat
    requires b > 0
  {
    (a + b - 1) / b
  }

  function NonEmpty(chunks: seq<string>): (r: seq<string>)
    ensures |r| <= |chunks| && Concat(r) == Concat(chunks)
    ensures forall k :: 0 <= k < |r| ==> r[k] != "" && r[k] in chunks
  {
    if chunks == [] then [] else if chunks[0] == "" then NonEmpty(chunks[1..]) else [chunks[0]] + NonEmpty(chunks[1..])
  }

  /** `count` pieces of the given size, one after the other from an offset on. */
  function Pieces(text: string, size: nat, from: nat, count: nat): (r: seq<string>)
    ensures |r| == count && forall p <- r :: |p| <= size
    decreases count
  {
    if count == 0 then [] else [Slice(text, from, from + size)] + Pieces(text, size, from + size, count - 1)
  }

  function Offset(from: nat, size: nat, k: nat): nat
    decreases k
  {
    if k == 0 then from else Offset(from + size, size, k - 1)
  }

  lemma {:induction false} OffsetIs(from: nat, size: nat, k: nat)
    ensures Offset(from, size, k) == from + k * size
    decreases k
  {
    if k > 0 {
      OffsetIs(from + size, size, k - 1);
      assert k * size == (k - 1) * size + size;
    }
  }

  lemma {:induction false} PieceIs(text: string, size: nat, from: nat, count: nat, k: nat)
    requires k < count
    ensures Pieces(text, size, from, count)[k] == Slice(text, Offset(from, size, k), Offset(from, size, k) + size)
    decreases k
  {
    hide Slice;
    if k > 0 {
      PieceIs(text, size, from + size, count - 1, k - 1);
      assert Pieces(text, size, from, count)[k] == Pieces(text, size, from + size, count - 1)[k - 1];
    }
  }

  /** So piece `k` is the slice from `k` sizes to `k + 1` sizes, as the program writes it. */
  lemma PieceAt(text: string, size: nat, count: nat, k: nat)
    requires k < count
    ensures Pieces(text, size, 0, count)[k] == Slice(text, k * size, k * size + size)
  {
    OffsetIs(0, size, k);
    PieceIs(text, size, 0, count, k);
  }

  function SplitText(text: string, requested: nat): seq<string> {
    var count := if requested < |text| then requested else |text|;
    if count == 0 then [] else NonEmpty(Pieces(text, Ceiling(|text|, count), 0, count))
  }

  function Max(a: nat, b: nat): nat { if a > b then a else b }

  lemma {:induction false} PiecesJoin(text: string, size: nat, from: nat, count: nat)
    requires Offset(from, size, count) >= |text|
    ensures Concat(Pieces(text, size, from, count)) == Slice(text, from, Max(from, |text|))
    decreases count
  {
    if count > 0 {
      PiecesJoin(text, size, from + size, count - 1);
      SlicesJoin(text, from, from + size);
    }
  }

  lemma SlicesJoin(text: string, from: nat, to: nat)
    requires from <= to
    ensures Slice(text, from, to) + Slice(text, to, Max(to, |text|)) == Slice(text, from, Max(from, |text|))
  {}

  lemma CeilingCovers(a: nat, b: nat)
    requires b > 0
    ensures b * Ceiling(a, b) >= a && b * Ceiling(a, b) < a + b
  {}

  /** Splitting gives at most the requested number of non-empty pieces, which put together give the text. */
  lemma SplitTextJoins(text: string, requested: nat)
    requires requested > 0
    ensures Concat(SplitText(text, requested)) == text
    ensures |SplitText(text, requested)| <= requested
    ensures forall p <- SplitText(text, requested) :: p != "" && |p| <= Ceiling(|text|, if requested < |text| then requested else |text|)
  {
    var count := if requested < |text| then requested else |text|;
    if count > 0 {
      var size := Ceiling(|text|, count);
      CeilingCovers(|text|, count);
      OffsetIs(0, size, count);
      PiecesJoin(text, size, 0, count);
    }
  }

  // ---------------------------------------------------------------- sending

  datatype Draft = Draft(messageId: Option<string>, kind: Kind)

  datatype Response = Response(text: string, tools: seq<string>, citations: seq<string>, asksForHandoff: bool)

  function Deltas(chunks: seq<string>): seq<Kind> { seq(|chunks|, i requires 0 <= i < |chunks| => MessageDelta(chunks[i])) }

  function Citations(citations: seq<string>): seq<Kind> { seq(|citations|, i requires 0 <= i < |citations| => CitationAdded(citations[i])) }

  function CitationParts(citations: seq<string>): seq<Part> { seq(|citations|, i requires 0 <= i < |citations| => Citation(citations[i])) }

  /** Each tool once, in the order of its first use. */
  function Once(tools: seq<string>): seq<string> {
    if tools == [] then []
    else
      var earlier := Once(tools[..|tools| - 1]);
      if tools[|tools| - 1] in earlier then earlier else earlier + [tools[|tools| - 1]]
  }

  function Tools(tools: seq<string>, callId: nat -> string): seq<Kind> {
    if tools == [] then []
    else
      var last := |tools| - 1;
      Tools(tools[..last], callId) + [ToolStart(callId(last + 1), tools[last]), ToolEnd(callId(last + 1), false)]
  }

  function Before(response: Response, callId: nat -> string): seq<Kind> {
    [MessageStarted] + Tools(Once(response.tools), callId) + Citations(response.citations)
  }

  function FinalParts(response: Response): seq<Part> { [Text(response.text)] + CitationParts(response.citations) }

  /** What the connector says about its message, in order. */
  function MessageKinds(response: Response, chunks: seq<string>, callId: nat -> string): seq<Kind> {
    Before(response, callId) + Deltas(chunks) + [MessageCompleted(FinalParts(response))]
  }

  function About(id: Option<string>, kinds: seq<Kind>): seq<Draft> { seq(|kinds|, i requires 0 <= i < |kinds| => Draft(id, kinds[i])) }

  function CompletedEvents(id: string, runId: string, response: Response, chunks: seq<string>, callId: nat -> string): seq<Draft> {
    About(Some(id), MessageKinds(response, chunks, callId))
    + (if response.asksForHandoff then [Draft(None, HandoffRequested(runId))] else [])
    + [Draft(None, RunCompleted)]
  }

  // ---------------------------------------------------------------- putting together

  function GrownBy(live: LiveMessage, kinds: seq<Kind>): LiveMessage
    decreases |kinds|
  {
    if kinds == [] then live else GrownBy(Grown(live, kinds[0]), kinds[1..])
  }

  /** The kinds of the events about one message. */
  function KindsAbout(id: string, events: seq<Event>): seq<Kind>
    decreases |events|
  {
    if events == [] then []
    else (if events[0].messageId == Some(id) then [events[0].kind] else []) + KindsAbout(id, events[1..])
  }

  lemma {:induction false} GrownByMore(live: LiveMessage, a: seq<Kind>, b: seq<Kind>)
    ensures GrownBy(live, a + b) == GrownBy(GrownBy(live, a), b)
    decreases |a|
  {
    if a == [] {
      assert a + b == b;
    } else {
      assert (a + b)[1..] == a[1..] + b;
      GrownByMore(Grown(live, a[0]), a[1..], b);
    }
  }

  predicate Fresh(recent: seq<string>, events: seq<Event>) {
    NoDuplicates(Ids(events)) && (forall e <- events :: e.eventId !in recent && !e.kind.SyncRequired?)
  }

  lemma OneEvent(state: ChatState, event: Event, id: string)
    requires !IsIgnored(state, event) && id != "" && !HasId(state.messages, id)
    ensures var next := Receive(state, event);
      && LiveOf(next, id) == (if event.messageId == Some(id) then Grown(LiveOf(state, id), event.kind) else LiveOf(state, id))
      && next.messages == state.messages && next.recentEventIds == LastOf(state.recentEventIds + [event.eventId])
  {
    NotedRemembers(state, event);
  }

  /** Fresh events grow a message that is not canonical by exactly what they say about it. */
  lemma {:induction false} EventsGrowMessage(state: ChatState, events: seq<Event>, id: string)
    requires Fresh(state.recentEventIds, events) && id != "" && !HasId(state.messages, id)
    ensures LiveOf(Fold(state, events), id) == GrownBy(LiveOf(state, id), KindsAbout(id, events))
    decreases |events|
  {
    hide Receive, Grown;
    if events != [] {
      var e, rest := events[0], events[1..];
      assert e in events;
      OneEvent(state, e, id);
      assert Ids(events)[1..] == Ids(rest);
      forall r | r in rest ensures r.eventId !in LastOf(state.recentEventIds + [e.eventId]) && !r.kind.SyncRequired? {
        var k :| 0 <= k < |rest| && rest[k] == r;
        assert Ids(events)[k + 1] == r.eventId && Ids(events)[0] == e.eventId;
        assert r in events;
      }
      EventsGrowMessage(Receive(state, e), rest, id);
      assert KindsAbout(id, events) == (if e.messageId == Some(id) then [e.kind] else []) + KindsAbout(id, rest);
      assert ([e.kind] + KindsAbout(id, rest))[1..] == KindsAbout(id, rest);
      assert [] + KindsAbout(id, rest) == KindsAbout(id, rest);
    }
  }

  lemma {:induction false} DeltasGrowText(live: LiveMessage, chunks: seq<string>)
    ensures GrownBy(live, Deltas(chunks)) == live.(text := live.text + Concat(chunks))
    decreases |chunks|
  {
    if chunks != [] {
      assert Deltas(chunks)[1..] == Deltas(chunks[1..]);
      DeltasGrowText(Grown(live, MessageDelta(chunks[0])), chunks[1..]);
      assert live.text + chunks[0] + Concat(chunks[1..]) == live.text + Concat(chunks);
    }
  }

  predicate LeavesText(kind: Kind) { !kind.MessageDelta? && !kind.MessageCompleted? }

  lemma {:induction false} OthersKeepText(live: LiveMessage, kinds: seq<Kind>)
    requires forall k :: 0 <= k < |kinds| ==> LeavesText(kinds[k])
    ensures GrownBy(live, kinds).text == live.text
    decreases |kinds|
  {
    if kinds != [] {
      assert LeavesText(kinds[0]);
      OthersKeepText(Grown(live, kinds[0]), kinds[1..]);
    }
  }

  lemma {:induction false} ToolsLeaveText(tools: seq<string>, callId: nat -> string)
    ensures forall k :: 0 <= k < |Tools(tools, callId)| ==> LeavesText(Tools(tools, callId)[k])
  {
    if tools != [] {
      ToolsLeaveText(tools[..|tools| - 1], callId);
    }
  }

  lemma {:induction false} CitationsHaveNoText(citations: seq<string>)
    ensures TextOf(CitationParts(citations)) == ""
  {
    if citations != [] {
      assert CitationParts(citations)[1..] == CitationParts(citations[1..]);
      CitationsHaveNoText(citations[1..]);
    }
  }

  lemma FinalText(response: Response)
    ensures TextOf(FinalParts(response)) == response.text
  {
    CitationsHaveNoText(response.citations);
    assert FinalParts(response)[1..] == CitationParts(response.citations);
  }

  /** What the events about a message make of it. */
  lemma CompletedMessage(live: LiveMessage, response: Response, chunks: seq<string>, callId: nat -> string)
    requires Concat(chunks) == response.text
    ensures GrownBy(live, Before(response, callId) + Deltas(chunks)).text == live.text + response.text
    ensures GrownBy(live, MessageKinds(response, chunks, callId))
      == LiveMessage(live.messageId, LiveCompleted, if response.text != "" then response.text else live.text, FinalParts(response))
  {
    var before := Before(response, callId);
    ToolsLeaveText(Once(response.tools), callId);
    OthersKeepText(live, before);
    GrownByMore(live, before, Deltas(chunks));
    DeltasGrowText(GrownBy(live, before), chunks);
    GrownByMore(live, before + Deltas(chunks), [MessageCompleted(FinalParts(response))]);
    FinalText(response);
    GrowingKeepsId(live, before + Deltas(chunks));
  }

  lemma {:induction false} GrowingKeepsId(live: LiveMessage, kinds: seq<Kind>)
    ensures GrownBy(live, kinds).messageId == live.messageId
    decreases |kinds|
  {
    if kinds != [] {
      GrowingKeepsId(Grown(live, kinds[0]), kinds[1..]);
    }
  }

  /** The log gave the drafts identifiers, in order. */
  predicate Logged(drafts: seq<Draft>, events: seq<Event>) {
    |events| == |drafts| && forall k :: 0 <= k < |drafts| ==> events[k].messageId == drafts[k].messageId && events[k].kind == drafts[k].kind
  }

  lemma {:induction false} KindsOfLogged(id: string, drafts: seq<Draft>, events: seq<Event>, kinds: seq<Kind>)
    requires Logged(drafts, events) && |kinds| <= |drafts| && drafts[..|kinds|] == About(Some(id), kinds)
    requires forall k :: |kinds| <= k < |drafts| ==> drafts[k].messageId == None
    ensures KindsAbout(id, events) == kinds
    decreases |drafts|
  {
    if drafts != [] {
      var shorter := if kinds == [] then [] else kinds[1..];
      forall k | 0 <= k < |kinds| ensures drafts[k] == Draft(Some(id), kinds[k]) {
        assert drafts[..|kinds|][k] == About(Some(id), kinds)[k];
      }
      assert drafts[1..][..|shorter|] == About(Some(id), shorter);
      KindsOfLogged(id, drafts[1..], events[1..], shorter);
    }
  }

  /** The answer survives the trip: with fresh events about a message that is not canonical yet, the
      client ends with a completed message whose parts are the answer's, and whose text is the
      answer's exactly when that is not empty or nothing was shown before. */
  lemma AnswerSurvives(state: ChatState, id: string, runId: string, response: Response, chunks: seq<string>,
                       callId: nat -> string, events: seq<Event>)
    requires id != "" && !HasId(state.messages, id) && Concat(chunks) == response.text
    requires Logged(CompletedEvents(id, runId, response, chunks, callId), events) && Fresh(state.recentEventIds, events)
    ensures var live := LiveOf(Fold(state, events), id);
      && live.status == LiveCompleted && live.parts == FinalParts(response)
      && (live.text == response.text <==> response.text != "" || LiveOf(state, id).text == "")
  {
    var kinds := MessageKinds(response, chunks, callId);
    var drafts := CompletedEvents(id, runId, response, chunks, callId);
    assert drafts[..|kinds|] == About(Some(id), kinds);
    KindsOfLogged(id, drafts, events, kinds);
    EventsGrowMessage(state, events, id);
    CompletedMessage(LiveOf(state, id), response, chunks, callId);
  }

  // ---------------------------------------------------------------- the tools, the citations and the end

  /** Each tool is there once, no other is, and they come in the order in which they were first used. */
  lemma {:induction false} OnceIs(tools: seq<string>)
    ensures NoDuplicates(Once(tools)) && forall tool :: tool in Once(tools) <==> tool in tools
    ensures forall k: nat :: k <= |tools| ==> Once(tools[..k]) <= Once(tools)
    decreases |tools|
  {
    if tools != [] {
      var last := |tools| - 1;
      OnceIs(tools[..last]);
      assert tools == tools[..last] + [tools[last]];
      forall k: nat | k <= |tools| ensures Once(tools[..k]) <= Once(tools) {
        if k <= last {
          assert tools[..last][..k] == tools[..k];
        } else {
          assert tools[..k] == tools;
        }
      }
    }
  }

  /** What is shown of the tools. */
  function ToolParts(tools: seq<string>, callId: nat -> string): seq<Part> {
    seq(|tools|, i requires 0 <= i < |tools| => Tool(callId(i + 1), tools[i], ToolCompleted))
  }

  predicate DistinctCalls(n: nat, callId: nat -> string) {
    forall i: nat, j: nat :: 1 <= i < j <= n ==> callId(i) != callId(j)
  }

  predicate Shows(parts: seq<Part>, toolCallId: string) { exists p <- parts :: p.Tool? && p.toolCallId == toolCallId }

  lemma {:induction false} NothingToReplace(parts: seq<Part>, toolCallId: string)
    requires !Shows(parts, toolCallId)
    ensures WithoutTool(parts, toolCallId) == parts
  {
    if parts != [] {
      assert parts[0] in parts;
      assert forall p <- parts[1..] :: p in parts;
      NothingToReplace(parts[1..], toolCallId);
    }
  }

  lemma GrownByTwo(live: LiveMessage, a: Kind, b: Kind)
    ensures GrownBy(live, [a, b]) == Grown(Grown(live, a), b)
  {
    assert [a, b][1..] == [b] && [b][1..] == [];
    assert GrownBy(Grown(live, a), [b]) == GrownBy(Grown(Grown(live, a), b), []);
  }

  /** A tool that starts and ends is added at the end. */
  lemma ToolIsAdded(live: LiveMessage, toolCallId: string, title: string)
    requires !Shows(live.parts, toolCallId)
    ensures GrownBy(live, [ToolStart(toolCallId, title), ToolEnd(toolCallId, false)])
      == live.(parts := live.parts + [Tool(toolCallId, title, ToolCompleted)])
  {
    NothingToReplace(live.parts, toolCallId);
    var started := Grown(live, ToolStart(toolCallId, title));
    GrownByTwo(live, ToolStart(toolCallId, title), ToolEnd(toolCallId, false));
    forall i | 0 <= i < |live.parts| ensures !(live.parts[i].Tool? && live.parts[i].toolCallId == toolCallId) {
      assert live.parts[i] in live.parts;
    }
    assert WithToolStatus(started.parts, toolCallId, ToolCompleted) == live.parts + [Tool(toolCallId, title, ToolCompleted)];
  }

  lemma NotShownYet(tools: seq<string>, callId: nat -> string)
    requires tools != [] && DistinctCalls(|tools|, callId)
    ensures !Shows(ToolParts(tools[..|tools| - 1], callId), callId(|tools|))
  {
    var last := |tools| - 1;
    forall p | p in ToolParts(tools[..last], callId) ensures !(p.Tool? && p.toolCallId == callId(|tools|)) {
      var i: nat :| i < last && ToolParts(tools[..last], callId)[i] == p;
      assert callId(i + 1) != callId(last + 1);
    }
  }

  lemma {:induction false} ToolsAreShown(live: LiveMessage, tools: seq<string>, callId: nat -> string)
    requires live.parts == [] && DistinctCalls(|tools|, callId)
    ensures GrownBy(live, Tools(tools, callId)) == live.(parts := ToolParts(tools, callId))
    decreases |tools|
  {
    if tools == [] {
      assert ToolParts(tools, callId) == [];
    } else {
      var last := |tools| - 1;
      var earlier := GrownBy(live, Tools(tools[..last], callId));
      ToolsAreShown(live, tools[..last], callId);
      GrownByMore(live, Tools(tools[..last], callId), [ToolStart(callId(last + 1), tools[last]), ToolEnd(callId(last + 1), false)]);
      NotShownYet(tools, callId);
      hide Tools, DistinctCalls, Shows, GrownBy;
      ToolIsAdded(earlier, callId(last + 1), tools[last]);
      assert ToolParts(tools[..last], callId) + [Tool(callId(last + 1), tools[last], ToolCompleted)] == ToolParts(tools, callId);
    }
  }

  lemma {:induction false} CitationsAreShown(live: LiveMessage, citations: seq<string>)
    ensures GrownBy(live, Citations(citations)) == live.(parts := live.parts + CitationParts(citations))
    decreases |citations|
  {
    if citations == [] {
      assert live.parts + CitationParts([]) == live.parts;
    } else {
      assert Citations(citations)[1..] == Citations(citations[1..]);
      CitationsAreShown(Grown(live, CitationAdded(citations[0])), citations[1..]);
      assert live.parts + [Citation(citations[0])] + CitationParts(citations[1..]) == live.parts + CitationParts(citations);
    }
  }

  lemma ShownWhileStreaming(live: LiveMessage, response: Response, chunks: seq<string>, callId: nat -> string)
    requires live.parts == [] && DistinctCalls(|Once(response.tools)|, callId)
    ensures GrownBy(live, Before(response, callId) + Deltas(chunks)) == live.(
      parts := ToolParts(Once(response.tools), callId) + CitationParts(response.citations), text := live.text + Concat(chunks))
  {
    var tools := Tools(Once(response.tools), callId);
    GrownByMore(live, [MessageStarted], tools);
    assert [MessageStarted][1..] == [] && GrownBy(live, [MessageStarted]) == live;
    ToolsAreShown(live, Once(response.tools), callId);
    GrownByMore(live, [MessageStarted] + tools, Citations(response.citations));
    CitationsAreShown(GrownBy(live, [MessageStarted] + tools), response.citations);
    GrownByMore(live, Before(response, callId), Deltas(chunks));
    DeltasGrowText(GrownBy(live, Before(response, callId)), chunks);
  }

  lemma DeltasSoFar(chunks: seq<string>, j: nat)
    requires j <= |chunks|
    ensures Deltas(chunks)[..j] == Deltas(chunks[..j])
  {}

  lemma FreshSoFar(recent: seq<string>, events: seq<Event>, n: nat)
    requires Fresh(recent, events) && n <= |events|
    ensures Fresh(recent, events[..n])
  {
    assert forall k :: 0 <= k < n ==> Ids(events[..n])[k] == Ids(events)[k];
  }

  /** While the answer streams, the client shows each tool once, as completed, then the citations, and as much
      of the text as has come. */
  lemma AnswerIsShownAsItComes(state: ChatState, id: string, runId: string, response: Response, chunks: seq<string>,
                               callId: nat -> string, events: seq<Event>, j: nat)
    requires id != "" && !HasId(state.messages, id) && LiveOf(state, id).parts == [] && j <= |chunks|
    requires Logged(CompletedEvents(id, runId, response, chunks, callId), events) && Fresh(state.recentEventIds, events)
    requires DistinctCalls(|Once(response.tools)|, callId)
    ensures var n := |Before(response, callId)| + j;
      && n <= |events|
      && LiveOf(Fold(state, events[..n]), id) == LiveOf(state, id).(
           parts := ToolParts(Once(response.tools), callId) + CitationParts(response.citations),
           text := LiveOf(state, id).text + Concat(chunks[..j]))
  {
    var n := |Before(response, callId)| + j;
    var kinds := Before(response, callId) + Deltas(chunks[..j]);
    var drafts := CompletedEvents(id, runId, response, chunks, callId);
    DeltasSoFar(chunks, j);
    assert MessageKinds(response, chunks, callId)[..n] == kinds;
    assert drafts[..n] == About(Some(id), kinds) by {
      assert drafts[..n] == About(Some(id), MessageKinds(response, chunks, callId))[..n];
    }
    KindsOfLogged(id, drafts[..n], events[..n], kinds);
    FreshSoFar(state.recentEventIds, events, n);
    EventsGrowMessage(state, events[..n], id);
    ShownWhileStreaming(LiveOf(state, id), response, chunks[..j], callId);
  }

  lemma FreshIsNew(recent: seq<string>, events: seq<Event>)
    requires NoDuplicates(recent) && Fresh(recent, events)
    ensures NoDuplicates(recent + Ids(events))
  {
    forall i, j | 0 <= i < j < |recent + Ids(events)| ensures (recent + Ids(events))[i] != (recent + Ids(events))[j] {
      if i < |recent| <= j {
        assert events[j - |recent|] in events && recent[i] in recent;
      }
    }
  }

  lemma {:induction false} ContactStays(state: ChatState, events: seq<Event>)
    requires forall e <- events :: !e.kind.ContactRequested?
    ensures Fold(state, events).contactRequest == state.contactRequest
    decreases |events|
  {
    hide Receive;
    if events != [] {
      assert events[0] in events;
      NotedToldAfter(state, events[0]);
      ContactStays(Receive(state, events[0]), events[1..]);
    }
  }

  lemma {:induction false} ToolsAreNoOthers(tools: seq<string>, callId: nat -> string)
    ensures forall kind <- Tools(tools, callId) :: kind.ToolStart? || kind.ToolEnd?
  {
    if tools != [] {
      ToolsAreNoOthers(tools[..|tools| - 1], callId);
    }
  }

  lemma KindsAreOfMessage(response: Response, chunks: seq<string>, callId: nat -> string)
    ensures forall kind <- MessageKinds(response, chunks, callId) ::
      !IsHandoffEvent(kind) && !kind.ContactRequested? && !kind.SyncRequired? && !IsRunEvent(kind)
  {
    ToolsAreNoOthers(Once(response.tools), callId);
  }

  /** The events of an answer: about its message, and then for its run. */
  lemma EndOfEvents(id: string, runId: string, response: Response, chunks: seq<string>, callId: nat -> string, events: seq<Event>)
    requires Logged(CompletedEvents(id, runId, response, chunks, callId), events)
    ensures |events| >= 2 && events[|events| - 1].kind == RunCompleted && forall e <- events :: !e.kind.ContactRequested?
    ensures response.asksForHandoff ==> events[|events| - 2].kind == HandoffRequested(runId)
    ensures !response.asksForHandoff ==> forall e <- events :: !IsHandoffEvent(e.kind)
  {
    var kinds := MessageKinds(response, chunks, callId);
    var drafts := CompletedEvents(id, runId, response, chunks, callId);
    KindsAreOfMessage(response, chunks, callId);
    assert |kinds| >= 1;
    forall k | 0 <= k < |kinds| ensures events[k].kind == kinds[k] && kinds[k] in kinds {
      assert drafts[k] == About(Some(id), kinds)[k];
    }
    hide MessageKinds;
    assert forall k :: |kinds| <= k < |drafts| ==> drafts[k].kind == RunCompleted || (response.asksForHandoff && drafts[k].kind == HandoffRequested(runId));
    assert |drafts| == |kinds| + (if response.asksForHandoff then 2 else 1);
    hide CompletedEvents;
    forall e | e in events
      ensures !e.kind.ContactRequested? && (!response.asksForHandoff ==> !IsHandoffEvent(e.kind))
    {
      var k :| 0 <= k < |events| && events[k] == e;
      assert k >= |kinds| ==> e.kind == drafts[k].kind;
    }
  }

  /** And in the end the run is completed, the chat ready, and the handoff asked for exactly if the answer does. */
  lemma AnswerSettlesRun(state: ChatState, id: string, runId: string, response: Response, chunks: seq<string>,
                         callId: nat -> string, events: seq<Event>)
    requires Sane(state) && Fresh(state.recentEventIds, events)
    requires Logged(CompletedEvents(id, runId, response, chunks, callId), events)
    ensures events != [] && var next := Fold(state, events);
      && next.run == Some(RunState(Some(events[|events| - 1].runId), Completed, None)) && next.phase == Ready && next.error.None?
      && next.contactRequest == state.contactRequest
      && next.handoff == if response.asksForHandoff then Some(HandoffState(runId, false)) else state.handoff
  {
    EndOfEvents(id, runId, response, chunks, callId, events);
    hide CompletedEvents, Logged, Fold, Ids;
    FreshIsNew(state.recentEventIds, events);
    ContactStays(state, events);
    HandoffIsTheLatestToldOf(state, events);
    if response.asksForHandoff {
      assert IsLatest(events, |events| - 2, kind => IsHandoffEvent(kind));
    }
    LastEventSettles(state, events);
  }

  lemma LastEventSettles(state: ChatState, events: seq<Event>)
    requires events != [] && |state.recentEventIds| <= RECENT_LIMIT && NoDuplicates(state.recentEventIds + Ids(events))
    requires (forall e <- events :: !e.kind.SyncRequired?) && events[|events| - 1].kind == RunCompleted
    ensures var next := Fold(state, events);
      next.run == Some(RunState(Some(events[|events| - 1].runId), Completed, None)) && next.phase == Ready && next.error.None?
  {
    var last := |events| - 1;
    assert events == events[..last] + [events[last]];
    FoldMore(state, events[..last], events[last]);
    LastIsNew(state, events);
    NotedToldAfter(Fold(state, events[..last]), events[last]);
    NotedPhaseAfter(Fold(state, events[..last]), events[last]);
  }
}
