/** The client's state field by field: which actions change it and to what. */
module ChatFields {
  import opened Wrappers
  import opened ChatReducer

  /** An event that is not ignored. */
  predicate Counts(state: ChatState, action: Action) {
    action.EventReceived? && action.event.eventId !in state.recentEventIds && !action.event.kind.SyncRequired?
  }

  function KindOf(action: Action): Kind
    requires action.EventReceived?
  {
    action.event.kind
  }

  // ---------------------------------------------------------------- what is told of the run, the contact and the handoff

  function RunTold(state: ChatState, action: Action): Option<RunState> {
    if Counts(state, action) then
      var runId := Some(action.event.runId);
      match KindOf(action)
      case RunStarted => Some(RunState(runId, Running, None))
      case RunCompleted => Some(RunState(runId, Completed, None))
      case RunFailedWith(code) => Some(RunState(runId, RunFailed, Some(code)))
      case _ => state.run
    else match action
      case MessageSubmitted(_) => Some(RunState(None, Queued, None))
      case RunRetrying => Some(RunState(None, Queued, None))
      case RunCancelled(runId, requested) => Some(RunState(Some(runId), if requested then CancelRequested else Cancelled, None))
      case ConversationCleared => None
      case _ => state.run
  }

  function ContactTold(state: ChatState, action: Action): Option<string> {
    if Counts(state, action) && KindOf(action).ContactRequested? then Some(KindOf(action).requestId)
    else if action.ConversationCleared? || (action.InputSubmitted? && state.contactRequest == Some(action.requestId)) then None
    else state.contactRequest
  }

  function HandoffTold(state: ChatState, action: Action): Option<HandoffState> {
    if Counts(state, action) && KindOf(action).HandoffRequested? then Some(HandoffState(KindOf(action).handoffId, false))
    else if Counts(state, action) && KindOf(action).HandoffCompleted? then Some(HandoffState(KindOf(action).handoffId, true))
    else if action.ConversationCleared? then None
    else state.handoff
  }

  /** Run, contact request and handoff after every action. */
  lemma ToldAfter(state: ChatState, action: Action)
    ensures var next := Reduce(state, action);
      next.run == RunTold(state, action) && next.contactRequest == ContactTold(state, action) && next.handoff == HandoffTold(state, action)
  {
    if action.EventReceived? { NotedToldAfter(state, action.event); }
  }

  lemma NotedToldAfter(state: ChatState, event: Event)
    ensures var next := Receive(state, event); var action := EventReceived(event);
      next.run == RunTold(state, action) && next.contactRequest == ContactTold(state, action) && next.handoff == HandoffTold(state, action)
  {}

  // ---------------------------------------------------------------- phase and error

  function PhaseTold(state: ChatState, action: Action): Phase {
    if action.EventReceived? then
      if !Counts(state, action) then state.phase
      else match KindOf(action)
        case RunCompleted => Ready
        case ContactRequested(_) => Ready
        case RunFailedWith(_) => Failed
        case _ => Streaming
    else match action
      case PhaseChanged(phase) => phase
      case SessionLoaded(_) => Ready
      case ConversationCleared => Ready
      case SnapshotLoaded(_, _) => if HasFailed(state) then Failed else Ready
      case RunRetrying => Streaming
      case InputSubmitted(requestId) => if state.contactRequest == Some(requestId) then Streaming else state.phase
      case ConnectionFailed(_) => Reconnecting
      case ErrorRaised(_) => Failed
      case _ => state.phase
  }

  predicate HasFailed(state: ChatState) { state.run.Some? && state.run.value.status == RunFailed }

  function ErrorTold(state: ChatState, action: Action): Option<string> {
    if action.EventReceived? then
      if !Counts(state, action) then state.error
      else match KindOf(action)
        case RunFailedWith(code) => Some(code)
        case RunStarted => None
        case RunCompleted => None
        case ContactRequested(_) => None
        case _ => state.error
    else match action
      case ConnectionFailed(error) => Some(error)
      case ErrorRaised(error) => Some(error)
      case SnapshotLoaded(_, _) => if HasFailed(state) then state.error else None
      case InputSubmitted(requestId) => if state.contactRequest == Some(requestId) then None else state.error
      case PhaseChanged(_) => None
      case SessionLoaded(_) => None
      case ConversationCleared => None
      case RunRetrying => None
      case _ => state.error
  }

  /** Phase and error after every action. */
  lemma PhaseAndErrorAfter(state: ChatState, action: Action)
    ensures Reduce(state, action).phase == PhaseTold(state, action) && Reduce(state, action).error == ErrorTold(state, action)
  {
    if action.EventReceived? { NotedPhaseAfter(state, action.event); }
  }

  lemma NotedPhaseAfter(state: ChatState, event: Event)
    ensures Receive(state, event).phase == PhaseTold(state, EventReceived(event))
    ensures Receive(state, event).error == ErrorTold(state, EventReceived(event))
  {}

  // ---------------------------------------------------------------- cursor, conversation, messages

  /** Session, conversation and cursor after every action. */
  lemma PlaceAfter(state: ChatState, action: Action)
    ensures var next := Reduce(state, action);
      && next.session == (if action.SessionLoaded? then Some(action.session) else state.session)
      && next.conversation == (if action.SnapshotLoaded? then Some(action.conversation) else if action.ConversationCleared? then None else state.conversation)
      && next.lastEventId == (if Counts(state, action) then Some(action.event.eventId)
                              else if action.CursorRestored? then Some(action.eventId)
                              else if action.CursorCleared? || action.ConversationCleared? then None else state.lastEventId)
      && next.lastEventSequence == (if Counts(state, action) then Max(action.event.sequence, state.lastEventSequence)
                                    else if action.CursorRestored? then action.sequence
                                    else if action.CursorCleared? || action.ConversationCleared? then 0 else state.lastEventSequence)
  {
    if Counts(state, action) { NotedPlaceAfter(state, action.event); }
  }

  function Max(a: nat, b: nat): nat { if a > b then a else b }

  lemma NotedPlaceAfter(state: ChatState, event: Event)
    requires !IsIgnored(state, event)
    ensures var next := Receive(state, event);
      && next.session == state.session && next.conversation == state.conversation && next.lastEventId == Some(event.eventId)
      && next.lastEventSequence == Max(event.sequence, state.lastEventSequence)
  {}

  /** Remembered identifiers after every action: an event that counts is remembered last, and all the latest
      before it up to a hundred in all. */
  lemma RecentAfter(state: ChatState, action: Action)
    requires |state.recentEventIds| <= RECENT_LIMIT
    ensures var next, ids := Reduce(state, action).recentEventIds, state.recentEventIds;
      if Counts(state, action) then
        next == (if |ids| < RECENT_LIMIT then ids else ids[1..]) + [action.event.eventId]
      else next == if action.CursorCleared? || action.ConversationCleared? then [] else ids
  {
    if Counts(state, action) {
      NotedRemembers(state, action.event);
      var all := state.recentEventIds + [action.event.eventId];
      assert |all| > RECENT_LIMIT ==> all[1..] == state.recentEventIds[1..] + [action.event.eventId];
    }
  }

  /** Messages after every action: canonical ones come from a snapshot or by submitting. */
  lemma MessagesAfter(state: ChatState, action: Action, m: Message)
    requires Sane(state)
    ensures m in Reduce(state, action).messages <==>
      match action
      case SnapshotLoaded(_, messages) => IsLast(messages, m)
      case MessageSubmitted(message) => m == message || (m in state.messages && m.messageId != message.messageId)
      case ConversationCleared => false
      case _ => m in state.messages
  {
    match action
    case SnapshotLoaded(_, messages) => CanonicalIs(messages);
    case MessageSubmitted(message) => SubmittedIsLast(state, message, m);
    case EventReceived(event) => if !IsIgnored(state, event) { NotedRemembers(state, event); }
    case _ =>
  }

  lemma SubmittedIsLast(state: ChatState, message: Message, m: Message)
    requires Sane(state)
    ensures m in Canonical(state.messages + [message]) <==> m == message || (m in state.messages && m.messageId != message.messageId)
  {
    CanonicalIs(state.messages + [message]);
    LastIsLast(state.messages, message);
    if m != message {
      LastOfMore(state.messages, message, m);
      if m in state.messages {
        var k :| 0 <= k < |state.messages| && state.messages[k] == m;
        assert forall j :: k < j < |state.messages| ==> state.messages[j].messageId != m.messageId;
        assert IsLast(state.messages, m);
      }
    }
  }

  /** A live message after every action: it goes when it becomes canonical or is cleared, and otherwise changes
      only by an event of its own that counts. */
  lemma LiveAfter(state: ChatState, action: Action, id: string)
    ensures var next := Reduce(state, action).liveMessages;
      match action
      case SnapshotLoaded(_, messages) =>
        if id in state.liveMessages && forall m :: IsLast(messages, m) ==> m.messageId != id
        then id in next && next[id] == state.liveMessages[id] else id !in next
      case ConversationCleared => id !in next
      case LiveCleared => id !in next
      case EventReceived(event) =>
        if Counts(state, action) && event.messageId == Some(id) && id != "" && !HasId(state.messages, id)
        then
          var live := if id in state.liveMessages then state.liveMessages[id] else LiveMessage(id, LiveStreaming, "", []);
          id in next && IsGrown(live, event.kind, next[id])
        else (id in next <==> id in state.liveMessages) && (id in next ==> next[id] == state.liveMessages[id])
      case _ => (id in next <==> id in state.liveMessages) && (id in next ==> next[id] == state.liveMessages[id])
  {
    match action
    case SnapshotLoaded(_, messages) =>
      CanonicalIs(messages);
      assert HasId(Canonical(messages), id) <==> exists m :: IsLast(messages, m) && m.messageId == id;
    case EventReceived(event) =>
      if !IsIgnored(state, event) {
        NotedRemembers(state, event);
        hide Noted;
        GrownIs(LiveOf(state, id), event.kind);
      }
    case _ =>
  }

  /** What an event makes of its message. */
  ghost predicate IsGrown(live: LiveMessage, kind: Kind, next: LiveMessage) {
    && next.messageId == live.messageId
    && next.status == (if kind.MessageCompleted? then LiveCompleted else live.status)
    && next.text == (match kind
                     case MessageDelta(delta) => live.text + delta
                     case MessageCompleted(parts) => if TextOf(parts) == "" then live.text else TextOf(parts)
                     case _ => live.text)
    && match kind
       case MessageCompleted(parts) => next.parts == parts
       case CitationAdded(citation) => next.parts == live.parts + [Citation(citation)]
       case ToolStart(toolCallId, title) =>
         next.parts != [] && next.parts[|next.parts| - 1] == Tool(toolCallId, title, ToolStarted)
         && IsWithout(live.parts, toolCallId, next.parts[..|next.parts| - 1])
       case ToolEnd(toolCallId, isFailed) =>
         |next.parts| == |live.parts|
         && forall i :: 0 <= i < |live.parts| ==>
              next.parts[i] == if IsTool(live.parts[i], toolCallId)
                then Tool(toolCallId, live.parts[i].title, if isFailed then ToolFailed else ToolCompleted) else live.parts[i]
       case _ => next.parts == live.parts
  }

  predicate IsTool(part: Part, toolCallId: string) { part.Tool? && part.toolCallId == toolCallId }

  /** The other parts, in their order. */
  predicate IsWithout(parts: seq<Part>, toolCallId: string, rest: seq<Part>) {
    if parts == [] then rest == []
    else if IsTool(parts[0], toolCallId) then IsWithout(parts[1..], toolCallId, rest)
    else rest != [] && rest[0] == parts[0] && IsWithout(parts[1..], toolCallId, rest[1..])
  }

  lemma {:induction false} WithoutToolIs(parts: seq<Part>, toolCallId: string)
    ensures IsWithout(parts, toolCallId, WithoutTool(parts, toolCallId))
  {
    if parts != [] {
      WithoutToolIs(parts[1..], toolCallId);
    }
  }

  lemma SameJoin(a: string, b: string, c: string)
    ensures a + b + c == a + (b + c)
  {}

  /** The text of a message's parts is the texts in their order, without the other parts. */
  lemma {:induction false} TextInOrder(a: seq<Part>, b: seq<Part>)
    ensures TextOf(a + b) == TextOf(a) + TextOf(b)
    ensures |b| == 1 ==> TextOf(b) == if b[0].Text? then b[0].text else ""
  {
    if |b| == 1 {
      assert b[1..] == [] && TextOf([]) == "";
    }
    if a == [] {
      assert a + b == b;
    } else {
      var head := if a[0].Text? then a[0].text else "";
      assert (a + b)[1..] == a[1..] + b && (a + b)[0] == a[0];
      TextInOrder(a[1..], b);
      SameJoin(head, TextOf(a[1..]), TextOf(b));
    }
  }

  /** Identifiers are ordered by their first difference, a prefix coming first. */
  lemma {:induction false} IdsByFirstDifference(same: string, a: string, b: string)
    requires b != "" && (a == "" || a[0] != b[0])
    ensures IdBefore(same + a, same + b) <==> a == "" || a[0] < b[0]
  {
    if same == "" {
      assert same + a == a && same + b == b;
    } else {
      assert (same + a)[1..] == same[1..] + a && (same + b)[1..] == same[1..] + b;
      IdsByFirstDifference(same[1..], a, b);
    }
  }

  lemma GrownIs(live: LiveMessage, kind: Kind)
    ensures IsGrown(live, kind, Grown(live, kind))
  {
    match kind
    case ToolStart(toolCallId, title) =>
      WithoutToolIs(live.parts, toolCallId);
      var next := Grown(live, kind).parts;
      assert next[..|next| - 1] == WithoutTool(live.parts, toolCallId);
    case _ =>
  }

  // ---------------------------------------------------------------- the handoff after many events

  predicate IsHandoffEvent(kind: Kind) { kind.HandoffRequested? || kind.HandoffCompleted? }

  /** After distinct new events the handoff is what the latest of its events says, completed exactly if that
      one says so; without such an event it is what it was. */
  lemma {:induction false} HandoffIsTheLatestToldOf(state: ChatState, events: seq<Event>)
    requires |state.recentEventIds| <= RECENT_LIMIT && NoDuplicates(state.recentEventIds + Ids(events))
    requires forall e <- events :: !e.kind.SyncRequired?
    ensures forall k :: IsLatest(events, k, kind => IsHandoffEvent(kind)) ==>
      Fold(state, events).handoff == Some(HandoffState(events[k].kind.handoffId, events[k].kind.HandoffCompleted?))
    ensures (forall e <- events :: !IsHandoffEvent(e.kind)) ==> Fold(state, events).handoff == state.handoff
    decreases |events|
  {
    hide Receive, Noted;
    if events != [] {
      var last := |events| - 1;
      var init := events[..last];
      assert events == init + [events[last]];
      FoldMore(state, init, events[last]);
      LastIsNew(state, events);
      InitIsNew(state, events);
      NotedToldAfter(Fold(state, init), events[last]);
      HandoffIsTheLatestToldOf(state, init);
      forall k | IsLatest(events, k, kind => IsHandoffEvent(kind))
        ensures Fold(state, events).handoff == Some(HandoffState(events[k].kind.handoffId, events[k].kind.HandoffCompleted?))
      {
        if k < last {
          assert init[k] == events[k];
          assert IsLatest(init, k, kind => IsHandoffEvent(kind));
        }
      }
    }
  }
}
