/** The browser client's state and the reducer that every action and event goes through. */
module ChatReducer {
  import opened Wrappers

  datatype Phase = Idle | Bootstrapping | Ready | Streaming | Reconnecting | Failed
  datatype Part = Text(text: string) | Citation(citation: string) | Tool(toolCallId: string, title: string, status: ToolStatus)
  datatype ToolStatus = ToolStarted | ToolCompleted | ToolFailed
  datatype LiveStatus = LiveStreaming | LiveCompleted
  datatype LiveMessage = LiveMessage(messageId: string, status: LiveStatus, text: string, parts: seq<Part>)
  datatype Message = Message(messageId: string, sequence: nat, body: string)
  datatype RunStatus = Queued | Running | Completed | RunFailed | CancelRequested | Cancelled
  datatype RunState = RunState(runId: Option<string>, status: RunStatus, failureCode: Option<string>)
  datatype HandoffState = HandoffState(handoffId: string, isCompleted: bool)

  datatype ChatState = ChatState(
    phase: Phase, session: Option<string>, conversation: Option<string>, messages: seq<Message>,
    liveMessages: map<string, LiveMessage>, run: Option<RunState>, contactRequest: Option<string>,
    handoff: Option<HandoffState>, lastEventId: Option<string>, lastEventSequence: nat,
    recentEventIds: seq<string>, error: Option<string>)

  const INITIAL := ChatState(Idle, None, None, [], map[], None, None, None, None, 0, [], None)

  datatype Kind =
    | SyncRequired
    | RunStarted | RunCompleted | RunFailedWith(code: string)
    | ContactRequested(requestId: string)
    | HandoffRequested(handoffId: string) | HandoffCompleted(handoffId: string)
    | MessageStarted | MessageDelta(delta: string) | MessageCompleted(parts: seq<Part>)
    | ToolStart(toolCallId: string, title: string) | ToolEnd(toolCallId: string, isFailed: bool)
    | CitationAdded(citation: string)

  datatype Event = Event(eventId: string, sequence: nat, runId: string, messageId: Option<string>, kind: Kind)

  datatype Action =
    | PhaseChanged(phase: Phase)
    | SessionLoaded(session: string)
    | SnapshotLoaded(conversation: string, messages: seq<Message>)
    | ConversationCleared
    | LiveCleared
    | MessageSubmitted(message: Message)
    | RunCancelled(runId: string, requested: bool)
    | RunRetrying
    | InputSubmitted(requestId: string)
    | CursorCleared
    | CursorRestored(eventId: string, sequence: nat)
    | ConnectionFailed(error: string)
    | ErrorRaised(error: string)
    | EventReceived(event: Event)

  // ---------------------------------------------------------------- the order of messages

  /** Order of identifiers, code unit by code unit. */
  predicate IdBefore(a: string, b: string) {
    b != "" && (a == "" || a[0] < b[0] || (a[0] == b[0] && IdBefore(a[1..], b[1..])))
  }

  predicate Before(a: Message, b: Message) {
    a.sequence < b.sequence || (a.sequence == b.sequence && IdBefore(a.messageId, b.messageId))
  }

  lemma {:induction false} IdsAreOrdered(a: string, b: string)
    ensures a == b <==> !IdBefore(a, b) && !IdBefore(b, a)
    ensures !(IdBefore(a, b) && IdBefore(b, a))
  {
    if a != "" && b != "" && a[0] == b[0] {
      IdsAreOrdered(a[1..], b[1..]);
      assert a == [a[0]] + a[1..] && b == [b[0]] + b[1..];
    }
  }

  lemma {:induction false} IdOrderChains(a: string, b: string, c: string)
    requires IdBefore(a, b) && IdBefore(b, c)
    ensures IdBefore(a, c)
  {
    if a != "" && a[0] == b[0] == c[0] {
      IdOrderChains(a[1..], b[1..], c[1..]);
    }
  }

  predicate IsSorted(messages: seq<Message>) {
    forall i, j :: 0 <= i < j < |messages| ==> Before(messages[i], messages[j])
  }

  predicate HasId(messages: seq<Message>, id: string) { exists m <- messages :: m.messageId == id }

  function Without(messages: seq<Message>, id: string): (r: seq<Message>)
    ensures forall m :: m in r <==> m in messages && m.messageId != id
  {
    if messages == [] then []
    else if messages[0].messageId == id then Without(messages[1..], id)
    else [messages[0]] + Without(messages[1..], id)
  }

  function Inserted(messages: seq<Message>, m: Message): (r: seq<Message>)
    ensures forall n :: n in r <==> n in messages || n == m
  {
    if messages == [] then [m]
    else if Before(m, messages[0]) then [m] + messages
    else [messages[0]] + Inserted(messages[1..], m)
  }

  /** The last message of each identifier, by sequence and then by identifier. */
  function Canonical(messages: seq<Message>): seq<Message> {
    if messages == [] then []
    else
      var m := messages[|messages| - 1];
      Inserted(Without(Canonical(messages[..|messages| - 1]), m.messageId), m)
  }

  lemma {:induction false} BeforeChains(a: Message, b: Message, c: Message)
    requires Before(a, b) && Before(b, c)
    ensures Before(a, c)
  {
    if a.sequence == b.sequence == c.sequence {
      IdOrderChains(a.messageId, b.messageId, c.messageId);
    }
  }

  lemma {:induction false} WithoutSorted(messages: seq<Message>, id: string)
    requires IsSorted(messages)
    ensures IsSorted(Without(messages, id))
  {
    if messages != [] {
      WithoutSorted(messages[1..], id);
      var rest := Without(messages[1..], id);
      forall j | 0 <= j < |rest| ensures Before(messages[0], rest[j]) {
        assert rest[j] in messages[1..];
      }
    }
  }

  lemma {:induction false} InsertedSorted(messages: seq<Message>, m: Message)
    requires IsSorted(messages) && forall n <- messages :: n.messageId != m.messageId
    ensures IsSorted(Inserted(messages, m))
  {
    if messages != [] {
      if Before(m, messages[0]) {
        forall j | 0 <= j < |messages| ensures Before(m, messages[j]) {
          if j > 0 { BeforeChains(m, messages[0], messages[j]); }
        }
      } else {
        InsertedSorted(messages[1..], m);
        IdsAreOrdered(m.messageId, messages[0].messageId);
        var rest := Inserted(messages[1..], m);
        forall j | 0 <= j < |rest| ensures Before(messages[0], rest[j]) {
          assert rest[j] in messages[1..] || rest[j] == m;
        }
      }
    }
  }

  /** `m` is what a map filled from `messages` in order holds for its identifier. */
  predicate IsLast(messages: seq<Message>, m: Message) {
    exists k :: 0 <= k < |messages| && messages[k] == m
      && forall j :: k < j < |messages| ==> messages[j].messageId != m.messageId
  }

  lemma {:induction false} CanonicalIs(messages: seq<Message>)
    ensures IsSorted(Canonical(messages))
    ensures forall m :: m in Canonical(messages) <==> IsLast(messages, m)
  {
    if messages != [] {
      var earlier, m := messages[..|messages| - 1], messages[|messages| - 1];
      CanonicalIs(earlier);
      var kept := Without(Canonical(earlier), m.messageId);
      WithoutSorted(Canonical(earlier), m.messageId);
      InsertedSorted(kept, m);
      LastIsLast(earlier, m);
      assert messages == earlier + [m];
      forall n ensures n in Canonical(messages) <==> IsLast(messages, n) {
        if n != m { LastOfMore(earlier, m, n); }
      }
    }
  }

  lemma LastIsLast(earlier: seq<Message>, m: Message)
    ensures IsLast(earlier + [m], m)
  {
    assert (earlier + [m])[|earlier|] == m;
  }

  lemma LastOfMore(earlier: seq<Message>, m: Message, n: Message)
    requires n != m
    ensures IsLast(earlier + [m], n) <==> IsLast(earlier, n) && n.messageId != m.messageId
  {
    var more := earlier + [m];
    if IsLast(more, n) {
      var k :| 0 <= k < |more| && more[k] == n && forall j :: k < j < |more| ==> more[j].messageId != n.messageId;
      assert more[|earlier|] == m;
      assert earlier[k] == n;
      assert forall j :: k < j < |earlier| ==> more[j] == earlier[j];
    }
    if IsLast(earlier, n) && n.messageId != m.messageId {
      var k :| 0 <= k < |earlier| && earlier[k] == n && forall j :: k < j < |earlier| ==> earlier[j].messageId != n.messageId;
      assert more[k] == n;
    }
  }

  /** Being sorted with these contents leaves no choice, so any sort of the map's values gives this. */
  lemma {:induction false} SortedIsUnique(a: seq<Message>, b: seq<Message>)
    requires IsSorted(a) && IsSorted(b) && forall m :: m in a <==> m in b
    ensures a == b
  {
    HasMember(a);
    HasMember(b);
    if a != [] && b != [] {
      SameFirst(a, b);
      forall m ensures m in a[1..] <==> m in b[1..] {
        NotBeforeItself(a[0]);
        assert m in a <==> m == a[0] || m in a[1..];
        assert m in b <==> m == b[0] || m in b[1..];
        assert a[0] !in a[1..] && b[0] !in b[1..];
      }
      SortedIsUnique(a[1..], b[1..]);
    }
  }

  lemma HasMember(messages: seq<Message>)
    ensures messages == [] || exists m :: m in messages
  {
    assert messages != [] ==> messages[0] in messages;
  }

  lemma SameFirst(a: seq<Message>, b: seq<Message>)
    requires IsSorted(a) && IsSorted(b) && a != [] && b != [] && a[0] in b && b[0] in a
    ensures a[0] == b[0]
  {
    var i :| 0 <= i < |b| && b[i] == a[0];
    var j :| 0 <= j < |a| && a[j] == b[0];
    if i > 0 && j > 0 {
      BeforeChains(a[0], b[0], a[0]);
      NotBeforeItself(a[0]);
    }
  }

  lemma NotBeforeItself(m: Message)
    ensures !Before(m, m)
  {
    IdsAreOrdered(m.messageId, m.messageId);
  }

  // ---------------------------------------------------------------- the reducer

  const RECENT_LIMIT := 100

  function LastOf(ids: seq<string>): (r: seq<string>)
    ensures |r| <= RECENT_LIMIT && forall id <- r :: id in ids
  {
    if |ids| <= RECENT_LIMIT then ids else ids[|ids| - RECENT_LIMIT..]
  }

  function TextOf(parts: seq<Part>): string {
    if parts == [] then "" else (if parts[0].Text? then parts[0].text else "") + TextOf(parts[1..])
  }

  function WithoutTool(parts: seq<Part>, toolCallId: string): seq<Part> {
    if parts == [] then []
    else if parts[0].Tool? && parts[0].toolCallId == toolCallId then WithoutTool(parts[1..], toolCallId)
    else [parts[0]] + WithoutTool(parts[1..], toolCallId)
  }

  function WithToolStatus(parts: seq<Part>, toolCallId: string, status: ToolStatus): seq<Part> {
    seq(|parts|, i requires 0 <= i < |parts| =>
      if parts[i].Tool? && parts[i].toolCallId == toolCallId then parts[i].(status := status) else parts[i])
  }

  function Grown(live: LiveMessage, kind: Kind): LiveMessage {
    match kind
    case MessageDelta(delta) => live.(text := live.text + delta)
    case MessageCompleted(parts) =>
      live.(status := LiveCompleted, parts := parts, text := if TextOf(parts) != "" then TextOf(parts) else live.text)
    case ToolStart(id, title) => live.(parts := WithoutTool(live.parts, id) + [Tool(id, title, ToolStarted)])
    case ToolEnd(id, isFailed) =>
      live.(parts := WithToolStatus(live.parts, id, if isFailed then ToolFailed else ToolCompleted))
    case CitationAdded(citation) => live.(parts := live.parts + [Citation(citation)])
    case _ => live
  }

  /** What an event does to everything but the message it belongs to. */
  function Noted(state: ChatState, event: Event): ChatState {
    var next := state.(
      phase := Streaming, lastEventId := Some(event.eventId),
      lastEventSequence := if event.sequence > state.lastEventSequence then event.sequence else state.lastEventSequence,
      recentEventIds := LastOf(state.recentEventIds + [event.eventId]));
    match event.kind
    case RunStarted => next.(error := None, run := Some(RunState(Some(event.runId), Running, None)))
    case RunCompleted => next.(error := None, phase := Ready, run := Some(RunState(Some(event.runId), Completed, None)))
    case RunFailedWith(code) =>
      next.(phase := Failed, run := Some(RunState(Some(event.runId), RunFailed, Some(code))), error := Some(code))
    case ContactRequested(requestId) => next.(error := None, phase := Ready, contactRequest := Some(requestId))
    case HandoffRequested(id) => next.(handoff := Some(HandoffState(id, false)))
    case HandoffCompleted(id) => next.(handoff := Some(HandoffState(id, true)))
    case _ => next
  }

  predicate IsIgnored(state: ChatState, event: Event) { event.eventId in state.recentEventIds || event.kind.SyncRequired? }

  /** The message an event writes to, if it has one that is not canonical yet. */
  predicate Writes(state: ChatState, event: Event) {
    event.messageId.Some? && event.messageId.value != "" && !HasId(state.messages, event.messageId.value)
  }

  function LiveOf(state: ChatState, id: string): LiveMessage {
    if id in state.liveMessages then state.liveMessages[id] else LiveMessage(id, LiveStreaming, "", [])
  }

  function Receive(state: ChatState, event: Event): ChatState {
    if IsIgnored(state, event) then state
    else if !Writes(state, event) then Noted(state, event)
    else
      var id := event.messageId.value;
      Noted(state, event).(liveMessages := state.liveMessages[id := Grown(LiveOf(state, id), event.kind)])
  }

  function Reduce(state: ChatState, action: Action): ChatState {
    match action
    case PhaseChanged(phase) => state.(phase := phase, error := None)
    case SessionLoaded(session) => state.(session := Some(session), phase := Ready, error := None)
    case SnapshotLoaded(conversation, messages) =>
      var canonical := Canonical(messages);
      var failed := state.run.Some? && state.run.value.status == RunFailed;
      state.(conversation := Some(conversation), messages := canonical,
             liveMessages := map id | id in state.liveMessages && !HasId(canonical, id) :: state.liveMessages[id],
             phase := if failed then Failed else Ready, error := if failed then state.error else None)
    case ConversationCleared =>
      state.(conversation := None, lastEventId := None, run := None, contactRequest := None, handoff := None, messages := [],
             liveMessages := map[], lastEventSequence := 0, recentEventIds := [], phase := Ready, error := None)
    case LiveCleared => state.(liveMessages := map[])
    case MessageSubmitted(message) =>
      state.(messages := Canonical(state.messages + [message]), run := Some(RunState(None, Queued, None)))
    case RunCancelled(runId, requested) =>
      state.(run := Some(RunState(Some(runId), if requested then CancelRequested else Cancelled, None)))
    case RunRetrying => state.(phase := Streaming, run := Some(RunState(None, Queued, None)), error := None)
    case InputSubmitted(requestId) =>
      if state.contactRequest != Some(requestId) then state
      else state.(contactRequest := None, phase := Streaming, error := None)
    case CursorCleared => state.(lastEventId := None, lastEventSequence := 0, recentEventIds := [])
    case CursorRestored(eventId, sequence) => state.(lastEventId := Some(eventId), lastEventSequence := sequence)
    case ConnectionFailed(error) => state.(phase := Reconnecting, error := Some(error))
    case ErrorRaised(error) => state.(phase := Failed, error := Some(error))
    case EventReceived(event) => Receive(state, event)
  }

  // ---------------------------------------------------------------- what every action keeps

  predicate NoDuplicates(ids: seq<string>) { forall i, j :: 0 <= i < j < |ids| ==> ids[i] != ids[j] }

  predicate Sane(state: ChatState) {
    && |state.recentEventIds| <= RECENT_LIMIT && NoDuplicates(state.recentEventIds)
    && IsSorted(state.messages)
    && (forall i, j :: 0 <= i < j < |state.messages| ==> state.messages[i].messageId != state.messages[j].messageId)
    && (forall id <- state.liveMessages :: state.liveMessages[id].messageId == id)
  }

  lemma CanonicalHasUniqueIds(messages: seq<Message>)
    ensures var c := Canonical(messages); forall i, j :: 0 <= i < j < |c| ==> c[i].messageId != c[j].messageId
  {
    var c := Canonical(messages);
    CanonicalIs(messages);
    forall i, j | 0 <= i < j < |c| ensures c[i].messageId != c[j].messageId {
      NotBeforeItself(c[i]);
      assert IsLast(messages, c[i]) && IsLast(messages, c[j]);
    }
  }

  lemma RememberedKeeps(ids: seq<string>, id: string)
    requires NoDuplicates(ids) && id !in ids
    ensures NoDuplicates(LastOf(ids + [id]))
  {
    assert NoDuplicates(ids + [id]);
  }

  lemma ReceiveKeepsSane(state: ChatState, event: Event)
    requires Sane(state)
    ensures Sane(Receive(state, event))
  {
    if !IsIgnored(state, event) {
      RememberedKeeps(state.recentEventIds, event.eventId);
      NotedRemembers(state, event);
      if Writes(state, event) {
        assert Grown(LiveOf(state, event.messageId.value), event.kind).messageId == event.messageId.value;
      }
    }
  }

  lemma NotedRemembers(state: ChatState, event: Event)
    ensures var next := Noted(state, event);
      && next.recentEventIds == LastOf(state.recentEventIds + [event.eventId])
      && next.messages == state.messages && next.liveMessages == state.liveMessages
      && next.lastEventId == Some(event.eventId) && next.lastEventSequence >= state.lastEventSequence
  {}

  lemma CanonicalIsSane(state: ChatState, messages: seq<Message>)
    requires Sane(state)
    ensures Sane(state.(messages := Canonical(messages)))
  {
    CanonicalIs(messages);
    CanonicalHasUniqueIds(messages);
  }

  /** Remembered event identifiers never repeat and are at most a hundred; messages stay canonical. */
  lemma ReduceKeepsSane(state: ChatState, action: Action)
    requires Sane(state)
    ensures Sane(Reduce(state, action))
  {
    match action
    case SnapshotLoaded(_, messages) => CanonicalIsSane(state, messages);
    case MessageSubmitted(message) => CanonicalIsSane(state, state.messages + [message]);
    case EventReceived(event) => ReceiveKeepsSane(state, event);
    case _ =>
  }

  predicate Disjoint(state: ChatState) { forall id <- state.liveMessages :: !HasId(state.messages, id) }

  /** Live and canonical messages stay apart under every action but one: a submitted message
      joins the canonical ones even while a live message has its identifier. */
  lemma ReduceKeepsDisjointIff(state: ChatState, action: Action)
    requires Disjoint(state)
    ensures Disjoint(Reduce(state, action)) <==> !(action.MessageSubmitted? && action.message.messageId in state.liveMessages)
  {
    if action.MessageSubmitted? {
      var m := action.message;
      var all := state.messages + [m];
      CanonicalIs(all);
      assert IsLast(all, m) by { assert all[|state.messages|] == m; }
      forall id | id in state.liveMessages && id != m.messageId ensures !HasId(Canonical(all), id) {
        forall n | n in Canonical(all) ensures n.messageId != id {
          assert IsLast(all, n);
          assert n in state.messages || n == m;
        }
      }
    }
  }

  lemma {:induction false} AlwaysSane(actions: seq<Action>)
    ensures Sane(ReduceAll(INITIAL, actions))
    decreases |actions|
  {
    if actions != [] {
      var last := |actions| - 1;
      AlwaysSane(actions[..last]);
      ReduceKeepsSane(ReduceAll(INITIAL, actions[..last]), actions[last]);
    }
  }

  function ReduceAll(state: ChatState, actions: seq<Action>): ChatState
    decreases |actions|
  {
    if actions == [] then state else Reduce(ReduceAll(state, actions[..|actions| - 1]), actions[|actions| - 1])
  }

  // ---------------------------------------------------------------- redelivery

  function Fold(state: ChatState, events: seq<Event>): ChatState
    decreases |events|
  {
    if events == [] then state else Fold(Receive(state, events[0]), events[1..])
  }

  /** An event leaves the state alone exactly when it is remembered or asks for a resync. */
  lemma IgnoredExactly(state: ChatState, event: Event)
    ensures Receive(state, event) == state <==> IsIgnored(state, event)
  {
    if !IsIgnored(state, event) {
      NotedRemembers(state, event);
      var ids := state.recentEventIds + [event.eventId];
      assert ids[|ids| - 1] == event.eventId;
      assert LastOf(ids)[|LastOf(ids)| - 1] == event.eventId;
      assert event.eventId in Receive(state, event).recentEventIds;
    }
  }

  function Ids(events: seq<Event>): seq<string> { seq(|events|, i requires 0 <= i < |events| => events[i].eventId) }

  /** The first delivery of each event that is not in `seen`, in order. */
  function Firsts(seen: seq<string>, events: seq<Event>): seq<Event>
    decreases |events|
  {
    if events == [] then []
    else if events[0].kind.SyncRequired? || events[0].eventId in seen then Firsts(seen, events[1..])
    else [events[0]] + Firsts(seen + [events[0].eventId], events[1..])
  }

  /** Each repeat comes while its identifier is among the last hundred distinct ones. */
  predicate RepeatsAreRecent(seen: seq<string>, events: seq<Event>)
    decreases |events|
  {
    events != [] ==>
      if events[0].kind.SyncRequired? then RepeatsAreRecent(seen, events[1..])
      else if events[0].eventId in seen then events[0].eventId in LastOf(seen) && RepeatsAreRecent(seen, events[1..])
      else RepeatsAreRecent(seen + [events[0].eventId], events[1..])
  }

  lemma LastOfLast(ids: seq<string>, id: string)
    ensures LastOf(LastOf(ids) + [id]) == LastOf(ids + [id])
  {}

  lemma AppliedIsRemembered(state: ChatState, event: Event)
    requires !IsIgnored(state, event)
    ensures Receive(state, event).recentEventIds == LastOf(state.recentEventIds + [event.eventId])
  {
    NotedRemembers(state, event);
  }

  /** Redelivery is harmless: with every repeat recent, the state is the one that the first
      deliveries alone would have given. */
  lemma {:induction false} RedeliveryIsHarmless(state: ChatState, seen: seq<string>, events: seq<Event>)
    requires state.recentEventIds == LastOf(seen) && RepeatsAreRecent(seen, events)
    ensures Fold(state, events) == Fold(state, Firsts(seen, events))
    ensures Fold(state, events).recentEventIds == LastOf(seen + Ids(Firsts(seen, events)))
    decreases |events|
  {
    hide Receive, Ids, LastOf;
    if events == [] {
      NoIds(seen);
    } else {
      var e, rest := events[0], events[1..];
      IgnoredExactly(state, e);
      RecentAreSeen(seen, e.eventId);
      if e.kind.SyncRequired? || e.eventId in seen {
        RedeliveryIsHarmless(state, seen, rest);
      } else {
        var next := Receive(state, e);
        LastOfLast(seen, e.eventId);
        AppliedIsRemembered(state, e);
        RedeliveryIsHarmless(next, seen + [e.eventId], rest);
        var firsts := Firsts(seen + [e.eventId], rest);
        FoldFirst(state, e, firsts);
        IdsFirst(seen, e, firsts);
      }
    }
  }

  lemma RecentAreSeen(seen: seq<string>, id: string)
    ensures id in LastOf(seen) ==> id in seen
  {}

  lemma NoIds(seen: seq<string>)
    ensures seen + Ids([]) == seen
  {}

  lemma FoldFirst(state: ChatState, e: Event, rest: seq<Event>)
    ensures Fold(state, [e] + rest) == Fold(Receive(state, e), rest)
  {
    assert ([e] + rest)[1..] == rest;
  }

  lemma IdsFirst(seen: seq<string>, e: Event, rest: seq<Event>)
    ensures seen + Ids([e] + rest) == seen + [e.eventId] + Ids(rest)
  {}

  // ---------------------------------------------------------------- a repeat that comes too late

  predicate LeavesMessage(event: Event, id: string) { event.messageId != Some(id) }

  lemma OtherLeavesText(state: ChatState, event: Event, id: string)
    requires LeavesMessage(event, id)
    ensures LiveOf(Receive(state, event), id) == LiveOf(state, id) && Receive(state, event).messages == state.messages
  {
    NotedRemembers(state, event);
    if !IsIgnored(state, event) && Writes(state, event) {
      assert event.messageId.value != id;
    }
  }

  lemma {:induction false} OthersLeaveText(state: ChatState, events: seq<Event>, id: string)
    requires forall e <- events :: LeavesMessage(e, id)
    ensures LiveOf(Fold(state, events), id) == LiveOf(state, id) && Fold(state, events).messages == state.messages
    decreases |events|
  {
    if events != [] {
      OtherLeavesText(state, events[0], id);
      OthersLeaveText(Receive(state, events[0]), events[1..], id);
    }
  }

  lemma {:induction false} RememberedAfter(state: ChatState, events: seq<Event>)
    requires NoDuplicates(state.recentEventIds + Ids(events)) && forall e <- events :: !e.kind.SyncRequired?
    requires |state.recentEventIds| <= RECENT_LIMIT
    ensures Fold(state, events).recentEventIds == LastOf(state.recentEventIds + Ids(events))
    decreases |events|
  {
    if events == [] {
      assert state.recentEventIds + Ids([]) == state.recentEventIds;
    } else {
      var e := events[0];
      var all := state.recentEventIds + Ids(events);
      assert all[|state.recentEventIds|] == e.eventId;
      assert forall k :: 0 <= k < |state.recentEventIds| ==> all[k] == state.recentEventIds[k];
      assert e.eventId !in state.recentEventIds;
      NotedRemembers(state, e);
      var ids := state.recentEventIds + [e.eventId];
      assert all == ids + Ids(events[1..]);
      LaterIds(LastOf(ids), ids, Ids(events[1..]));
      RememberedAfter(Receive(state, e), events[1..]);
    }
  }

  lemma LaterIds(recent: seq<string>, ids: seq<string>, more: seq<string>)
    requires recent == LastOf(ids) && NoDuplicates(ids + more)
    ensures NoDuplicates(recent + more) && LastOf(recent + more) == LastOf(ids + more)
  {
    var gap := |ids| - |recent|;
    assert forall k :: 0 <= k < |recent + more| ==> (recent + more)[k] == (ids + more)[k + gap];
  }

  lemma DeltaAppends(state: ChatState, event: Event)
    requires event.kind.MessageDelta? && Writes(state, event) && event.eventId !in state.recentEventIds
    ensures var next := Receive(state, event); var id := event.messageId.value;
      && LiveOf(next, id).text == LiveOf(state, id).text + event.kind.delta
      && next.messages == state.messages && next.recentEventIds == LastOf(state.recentEventIds + [event.eventId])
  {
    NotedRemembers(state, event);
  }

  lemma ForgottenAfter(first: ChatState, id: string, others: seq<Event>)
    requires first.recentEventIds == [id] && |others| == RECENT_LIMIT && NoDuplicates([id] + Ids(others))
    requires forall e <- others :: !e.kind.SyncRequired?
    ensures id !in Fold(first, others).recentEventIds
  {
    RememberedAfter(first, others);
    var all := [id] + Ids(others);
    assert LastOf(all) == Ids(others);
    assert forall k :: 0 <= k < |others| ==> all[k + 1] == Ids(others)[k];
    assert all[0] == id;
  }

  /** A hundred other events later a repeated piece of text is no longer recognised: it is appended again. */
  lemma LateRepeatIsAppendedAgain(state: ChatState, event: Event, others: seq<Event>)
    requires event.kind.MessageDelta? && Writes(state, event) && state.recentEventIds == []
    requires |others| == RECENT_LIMIT && NoDuplicates([event.eventId] + Ids(others))
    requires forall e <- others :: !e.kind.SyncRequired? && LeavesMessage(e, event.messageId.value)
    ensures var id := event.messageId.value; var delta := event.kind.delta;
      LiveOf(Fold(state, [event] + others + [event]), id).text == LiveOf(state, id).text + delta + delta
  {
    hide Noted, Grown;
    var id := event.messageId.value;
    var first := Receive(state, event);
    DeltaAppends(state, event);
    ForgottenAfter(first, event.eventId, others);
    OthersLeaveText(first, others, id);
    DeltaAppends(Fold(first, others), event);
    FoldMore(first, others, event);
    assert ([event] + others + [event])[1..] == others + [event];
  }

  lemma {:induction false} FoldMore(state: ChatState, events: seq<Event>, last: Event)
    ensures Fold(state, events + [last]) == Receive(Fold(state, events), last)
    decreases |events|
  {
    if events == [] {
      assert events + [last] == [last];
    } else {
      assert (events + [last])[1..] == events[1..] + [last];
      FoldMore(Receive(state, events[0]), events[1..], last);
    }
  }

  // ---------------------------------------------------------------- what the state says about the run

  predicate IsRunEvent(kind: Kind) { kind.RunStarted? || kind.RunCompleted? || kind.RunFailedWith? }

  predicate Tells(event: Event, run: RunState) {
    && run.runId == Some(event.runId)
    && match event.kind
       case RunStarted => run.status == Running && run.failureCode.None?
       case RunCompleted => run.status == Completed && run.failureCode.None?
       case RunFailedWith(code) => run.status == RunFailed && run.failureCode == Some(code)
       case _ => false
  }

  predicate IsLatest(events: seq<Event>, k: int, relevant: Kind -> bool) {
    0 <= k < |events| && relevant(events[k].kind) && forall j :: k < j < |events| ==> !relevant(events[j].kind)
  }

  lemma NotedTells(state: ChatState, event: Event)
    ensures var next := Noted(state, event);
      && (if IsRunEvent(event.kind) then next.run.Some? && Tells(event, next.run.value) else next.run == state.run)
      && (if event.kind.ContactRequested? then next.contactRequest == Some(event.kind.requestId) else next.contactRequest == state.contactRequest)
      && (event.kind.RunFailedWith? ==> next.phase == Failed && next.error == Some(event.kind.code))
      && (event.kind.RunCompleted? || event.kind.ContactRequested? ==> next.phase == Ready && next.error.None?)
  {}

  lemma ReceivedTells(state: ChatState, event: Event)
    requires !IsIgnored(state, event)
    ensures var next := Receive(state, event);
      && (if IsRunEvent(event.kind) then next.run.Some? && Tells(event, next.run.value) else next.run == state.run)
      && (if event.kind.ContactRequested? then next.contactRequest == Some(event.kind.requestId) else next.contactRequest == state.contactRequest)
  {
    NotedTells(state, event);
  }

  /** After distinct new events the run is what the latest of the run events says, whatever came between. */
  lemma {:induction false} RunIsTheLatestToldOf(state: ChatState, events: seq<Event>, k: int)
    requires |state.recentEventIds| <= RECENT_LIMIT && NoDuplicates(state.recentEventIds + Ids(events))
    requires forall e <- events :: !e.kind.SyncRequired?
    requires IsLatest(events, k, kind => IsRunEvent(kind))
    ensures Fold(state, events).run.Some? && Tells(events[k], Fold(state, events).run.value)
    decreases |events|
  {
    hide Receive, Noted, Tells;
    var last := |events| - 1;
    var init := events[..last];
    assert events == init + [events[last]];
    var earlier := Fold(state, init);
    FoldMore(state, init, events[last]);
    LastIsNew(state, events);
    ReceivedTells(earlier, events[last]);
    if k < last {
      InitIsNew(state, events);
      assert init[k] == events[k];
      RunIsTheLatestToldOf(state, init, k);
    }
  }

  lemma InitIsNew(state: ChatState, events: seq<Event>)
    requires events != [] && NoDuplicates(state.recentEventIds + Ids(events))
    ensures NoDuplicates(state.recentEventIds + Ids(events[..|events| - 1]))
  {
    var all, shorter := state.recentEventIds + Ids(events), state.recentEventIds + Ids(events[..|events| - 1]);
    assert forall j :: 0 <= j < |shorter| ==> shorter[j] == all[j];
  }

  lemma LastIsNew(state: ChatState, events: seq<Event>)
    requires events != [] && |state.recentEventIds| <= RECENT_LIMIT && NoDuplicates(state.recentEventIds + Ids(events))
    requires forall e <- events :: !e.kind.SyncRequired?
    ensures !IsIgnored(Fold(state, events[..|events| - 1]), events[|events| - 1])
  {
    var last := |events| - 1;
    var init := events[..last];
    InitIsNew(state, events);
    RememberedAfter(state, init);
    var all, shorter := state.recentEventIds + Ids(events), state.recentEventIds + Ids(init);
    assert all[|shorter|] == events[last].eventId;
    assert forall j :: 0 <= j < |shorter| ==> shorter[j] == all[j];
    assert events[last] in events;
  }

  /** A tool that starts and ends is shown once, with its title and how it ended, whatever was shown before. */
  lemma ToolIsShownOnce(live: LiveMessage, id: string, title: string, isFailed: bool)
    ensures var parts := Grown(Grown(live, ToolStart(id, title)), ToolEnd(id, isFailed)).parts;
      && parts != [] && parts[|parts| - 1] == Tool(id, title, if isFailed then ToolFailed else ToolCompleted)
      && parts[..|parts| - 1] == WithoutTool(live.parts, id)
  {
    WithoutToolHasNone(live.parts, id);
    var started := WithoutTool(live.parts, id) + [Tool(id, title, ToolStarted)];
    assert started[|started| - 1] == Tool(id, title, ToolStarted);
    var status := if isFailed then ToolFailed else ToolCompleted;
    assert WithToolStatus(started, id, status)[..|started| - 1] == WithoutTool(live.parts, id);
  }

  lemma {:induction false} WithoutToolHasNone(parts: seq<Part>, id: string)
    ensures forall p <- WithoutTool(parts, id) :: !(p.Tool? && p.toolCallId == id)
    ensures forall p :: p in WithoutTool(parts, id) ==> p in parts
    ensures forall p <- parts :: p in WithoutTool(parts, id) || (p.Tool? && p.toolCallId == id)
  {
    if parts != [] {
      WithoutToolHasNone(parts[1..], id);
    }
  }
}
