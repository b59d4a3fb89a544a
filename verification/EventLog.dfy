/** The durable event log: numbering, pruning to the retention window, and replay. */
module EventLog {
  import opened Wrappers

  datatype Visibility = Public | Operator | Internal

  /** An event of one conversation as it was appended. */
  datatype LoggedEvent = LoggedEvent(eventId: string, sequence: nat, visibility: Visibility, body: string)

  /** All that was ever appended to a conversation; the n-th event carries number n. */
  type History = seq<LoggedEvent>

  predicate Numbered(h: History) {
    forall i :: 0 <= i < |h| ==> h[i].sequence == i + 1
  }

  function Min(a: int, b: int): int { if a <= b then a else b }

  /** The last min(n, retentionMaxEvents) events. */
  function Retained(h: History, retentionMaxEvents: nat): History {
    h[|h| - Min(|h|, retentionMaxEvents)..]
  }

  /** The same window, by number. */
  predicate InWindow(h: History, retentionMaxEvents: nat, e: LoggedEvent) {
    && 1 <= e.sequence <= |h| && |h| < e.sequence + retentionMaxEvents
    && h[e.sequence - 1] == e
  }

  lemma WindowIsSuffix(h: History, retentionMaxEvents: nat)
    requires Numbered(h)
    ensures forall e :: e in Retained(h, retentionMaxEvents) <==> InWindow(h, retentionMaxEvents, e)
    ensures |Retained(h, retentionMaxEvents)| == Min(|h|, retentionMaxEvents)
  {
    SliceContents(h, |h| - Min(|h|, retentionMaxEvents));
  }

  function PublicOnly(h: History): History {
    if h == [] then []
    else if h[0].visibility == Public then [h[0]] + PublicOnly(h[1..])
    else PublicOnly(h[1..])
  }

  predicate Ascending(h: History) {
    forall i, j :: 0 <= i < j < |h| ==> h[i].sequence < h[j].sequence
  }

  lemma {:induction false} PublicOnlyContents(h: History)
    ensures forall e :: e in PublicOnly(h) <==> e in h && e.visibility == Public
    ensures Ascending(h) ==> Ascending(PublicOnly(h))
  {
    if h != [] {
      PublicOnlyContents(h[1..]);
      assert forall e :: e in h <==> e == h[0] || e in h[1..];
      if Ascending(h) {
        assert Ascending(h[1..]);
        forall i, j | 0 <= i < j < |PublicOnly(h)| ensures PublicOnly(h)[i].sequence < PublicOnly(h)[j].sequence {
          assert PublicOnly(h)[j] in PublicOnly(h[1..]);
          if PublicOnly(h)[i] !in PublicOnly(h[1..]) { assert PublicOnly(h)[i] == h[0]; }
        }
      }
    }
  }

  /** A result ordered by sequence is determined by its rows. */
  lemma {:induction false} OrderIsUnique(a: History, b: History)
    requires Ascending(a) && Ascending(b) && forall e :: e in a <==> e in b
    ensures a == b
  {
    if a == [] {
      assert forall k :: 0 <= k < |b| ==> b[k] in b;
    } else {
      assert a[0] in b && b != [];
      assert b[0] in a;
      assert a[0] == b[0];
      assert forall e :: e in a <==> e == a[0] || e in a[1..];
      assert forall e :: e in b <==> e == b[0] || e in b[1..];
      assert forall e :: e in a[1..] ==> e.sequence > a[0].sequence;
      assert forall e :: e in b[1..] ==> e.sequence > b[0].sequence;
      OrderIsUnique(a[1..], b[1..]);
    }
  }

  /** Index `i` holds a public event with this identifier that the window still holds. */
  ghost predicate IsCursor(h: History, retentionMaxEvents: nat, eventId: string, i: int) {
    && 0 <= i < |h| && |h| <= i + retentionMaxEvents
    && h[i].eventId == eventId && h[i].visibility == Public
  }

  datatype EventReplay = Events(events: History) | SyncRequired(sequence: nat)

  /** What a replay must answer. */
  ghost predicate IsReplay(h: History, retentionMaxEvents: nat, after: Option<string>, replay: EventReplay) {
    match after
    case None => replay == Events(PublicOnly(Retained(h, retentionMaxEvents)))
    case Some(eventId) =>
      && (replay.SyncRequired? <==> !exists i :: IsCursor(h, retentionMaxEvents, eventId, i))
      && (replay.SyncRequired? ==> replay.sequence == if |h| == 0 then 1 else |h|)
      && (forall i :: IsCursor(h, retentionMaxEvents, eventId, i) ==> replay == Events(PublicOnly(h[i + 1..])))
  }

  // ---------------------------------------------------------------- the store

  datatype Scope = Scope(tenantId: string, siteId: string, principalId: string)

  datatype ConversationRow = ConversationRow(scope: Scope, nextEventSequence: nat)

  datatype EventRow = EventRow(tenantId: string, siteId: string, conversationId: string, event: LoggedEvent)

  datatype StoreError = ConversationNotFound | DuplicateKey

  datatype Tables = Tables(conversations: map<string, ConversationRow>, rows: map<string, EventRow>)

  predicate InScope(row: EventRow, scope: Scope) {
    row.tenantId == scope.tenantId && row.siteId == scope.siteId
  }

  /** The rows are exactly the retained events of the histories, in their scopes. */
  ghost predicate Consistent(t: Tables, history: map<string, History>, retentionMaxEvents: nat) {
    && t.conversations.Keys == history.Keys
    && (forall c <- history :: Numbered(history[c]) && t.conversations[c].nextEventSequence == |history[c]| + 1)
    && (forall id <- t.rows :: RowBelongs(t, history, retentionMaxEvents, id))
    && (forall c <- history :: AllStored(t, history[c], retentionMaxEvents, c))
  }

  ghost predicate RowBelongs(t: Tables, history: map<string, History>, retentionMaxEvents: nat, id: string)
    requires t.conversations.Keys == history.Keys && id in t.rows
  {
    var row := t.rows[id];
    && row.event.eventId == id && row.conversationId in history
    && InWindow(history[row.conversationId], retentionMaxEvents, row.event)
    && InScope(row, t.conversations[row.conversationId].scope)
  }

  ghost predicate AllStored(t: Tables, h: History, retentionMaxEvents: nat, c: string) {
    forall i :: 0 <= i < |h| && |h| <= i + retentionMaxEvents ==> Stored(t, c, h[i])
  }

  ghost predicate Stored(t: Tables, c: string, e: LoggedEvent) {
    e.eventId in t.rows && t.rows[e.eventId].conversationId == c && t.rows[e.eventId].event == e
  }

  function Appended(t: Tables, c: string, e: LoggedEvent, retentionMaxEvents: nat): Tables
    requires c in t.conversations
  {
    var scope := t.conversations[c].scope;
    var inserted := t.rows[e.eventId := EventRow(scope.tenantId, scope.siteId, c, e)];
    Tables(t.conversations[c := ConversationRow(scope, e.sequence + 1)],
           map id | id in inserted && !Prunable(inserted[id], scope, c, e.sequence - retentionMaxEvents) :: inserted[id])
  }

  predicate Prunable(row: EventRow, scope: Scope, c: string, last: int) {
    InScope(row, scope) && row.conversationId == c && row.event.sequence <= last
  }

  lemma AppendedIsConsistent(t: Tables, history: map<string, History>, c: string, e: LoggedEvent, retentionMaxEvents: nat)
    requires retentionMaxEvents >= 1 && Consistent(t, history, retentionMaxEvents)
    requires c in history && e.sequence == |history[c]| + 1 && e.eventId !in t.rows
    ensures Consistent(Appended(t, c, e, retentionMaxEvents), history[c := history[c] + [e]], retentionMaxEvents)
  {
    var u, after := Appended(t, c, e, retentionMaxEvents), history[c := history[c] + [e]];
    forall id <- u.rows ensures RowBelongs(u, after, retentionMaxEvents, id) {
      assert id != e.eventId ==> RowBelongs(t, history, retentionMaxEvents, id);
    }
    forall d <- after ensures AllStored(u, after[d], retentionMaxEvents, d) {
      AppendKeepsStored(t, history, c, e, retentionMaxEvents, d);
    }
  }

  lemma AppendKeepsStored(t: Tables, history: map<string, History>, c: string, e: LoggedEvent, retentionMaxEvents: nat, d: string)
    requires retentionMaxEvents >= 1 && Consistent(t, history, retentionMaxEvents)
    requires c in history && e.sequence == |history[c]| + 1 && e.eventId !in t.rows && d in history
    ensures AllStored(Appended(t, c, e, retentionMaxEvents), history[c := history[c] + [e]][d], retentionMaxEvents, d)
  {
    var h := history[c := history[c] + [e]][d];
    assert AllStored(t, history[d], retentionMaxEvents, d);
    forall i | 0 <= i < |h| && |h| <= i + retentionMaxEvents
      ensures Stored(Appended(t, c, e, retentionMaxEvents), d, h[i])
    {
      if i < |history[d]| { assert h[i] == history[d][i] && Stored(t, d, h[i]); }
    }
  }

  class EventStore {
    const retentionMaxEvents: nat
    var conversations: map<string, ConversationRow>
    var rows: map<string, EventRow>
    ghost var history: map<string, History>

    constructor (retentionMaxEvents: nat, conversations: map<string, ConversationRow>)
      requires retentionMaxEvents >= 1
      requires forall c <- conversations :: conversations[c].nextEventSequence == 1
      ensures Valid() && history == map c <- conversations :: []
    {
      this.retentionMaxEvents, this.conversations, rows := retentionMaxEvents, conversations, map[];
      history := map c <- conversations :: [];
    }

    ghost predicate Valid()
      reads this
    {
      retentionMaxEvents >= 1 && Consistent(Tables(conversations, rows), history, retentionMaxEvents)
    }

    predicate Readable(scope: Scope, conversationId: string)
      reads this
    {
      conversationId in conversations && conversations[conversationId].scope == scope
    }

    /** Allocates the next number, inserts, and prunes what falls out of the window. */
    method Append(scope: Scope, conversationId: string, visibility: Visibility, body: string, eventId: string)
      returns (r: Result<LoggedEvent, StoreError>)
      requires Valid()
      modifies this
      ensures Valid() && conversations.Keys == old(conversations.Keys)
      ensures r.Failure? <==> !old(Readable(scope, conversationId)) || eventId in old(rows)
      ensures r.Failure? ==> unchanged(this)
      ensures r.Failure? ==>
        r.error == if old(Readable(scope, conversationId)) then DuplicateKey else ConversationNotFound
      ensures r.Success? ==>
        && r.value == LoggedEvent(eventId, |old(history)[conversationId]| + 1, visibility, body)
        && history == old(history)[conversationId := old(history)[conversationId] + [r.value]]
    {
      if conversationId !in conversations || conversations[conversationId].scope != scope {
        return Failure(ConversationNotFound);
      }
      if eventId in rows { return Failure(DuplicateKey); }
      var sequence := conversations[conversationId].nextEventSequence;
      var event := LoggedEvent(eventId, sequence, visibility, body);
      AppendedIsConsistent(Tables(conversations, rows), history, conversationId, event, retentionMaxEvents);
      Write(conversationId, event);
      history := history[conversationId := history[conversationId] + [event]];
      return Success(event);
    }

    method Write(conversationId: string, event: LoggedEvent)
      requires conversationId in conversations && event.sequence == conversations[conversationId].nextEventSequence
      modifies this`conversations, this`rows
      ensures Tables(conversations, rows) == Appended(old(Tables(conversations, rows)), conversationId, event, retentionMaxEvents)
    {
      var row := conversations[conversationId];
      conversations := conversations[conversationId := row.(nextEventSequence := row.nextEventSequence + 1)];
      rows := rows[event.eventId := EventRow(row.scope.tenantId, row.scope.siteId, conversationId, event)];
      var last := event.sequence - retentionMaxEvents;
      rows := map id | id in rows && !Prunable(rows[id], row.scope, conversationId, last) :: rows[id];
    }

    method Replay(scope: Scope, conversationId: string, afterEventId: Option<string>)
      returns (r: Result<EventReplay, StoreError>)
      requires Valid()
      ensures r.Failure? <==> !Readable(scope, conversationId)
      ensures r.Failure? ==> r.error == ConversationNotFound
      ensures r.Success? ==> IsReplay(history[conversationId], retentionMaxEvents, afterEventId, r.value)
    {
      if conversationId !in conversations || conversations[conversationId].scope != scope {
        return Failure(ConversationNotFound);
      }
      var afterSequence := 0;
      if afterEventId.Some? {
        var cursor := FindCursor(scope, conversationId, afterEventId.value);
        if cursor.None? {
          var last := conversations[conversationId].nextEventSequence - 1;
          return Success(SyncRequired(if last < 1 then 1 else last));
        }
        afterSequence := cursor.value;
        assert IsCursor(history[conversationId], retentionMaxEvents, afterEventId.value, afterSequence - 1);
      }
      var events := PublicAfter(scope, conversationId, afterSequence);
      return Success(Events(events));
    }

    method FindCursor(scope: Scope, conversationId: string, eventId: string) returns (sequence: Option<nat>)
      requires Valid() && Readable(scope, conversationId)
      ensures forall i :: IsCursor(history[conversationId], retentionMaxEvents, eventId, i) <==> sequence == Some(i + 1)
      ensures sequence.Some? ==> sequence.value >= 1
    {
      CursorIsRow(conversationId, eventId);
      if eventId !in rows || !InScope(rows[eventId], scope) || rows[eventId].conversationId != conversationId
         || rows[eventId].event.visibility != Public { return None; }
      return Some(rows[eventId].event.sequence);
    }

    method PublicAfter(scope: Scope, conversationId: string, afterSequence: nat) returns (events: History)
      requires Valid() && Readable(scope, conversationId)
      ensures events == PublicOnly(SuffixAfter(history[conversationId], retentionMaxEvents, afterSequence))
    {
      var selected := set id | id in rows && InScope(rows[id], scope) && rows[id].conversationId == conversationId
        && rows[id].event.visibility == Public && rows[id].event.sequence > afterSequence :: rows[id].event;
      SelectedAre(conversationId, selected, afterSequence);
      events := OrderBySequence(selected);
      OrderedSelection(history[conversationId], retentionMaxEvents, afterSequence, events);
    }

    /** The row lookup finds exactly the cursors. */
    lemma CursorIsRow(c: string, id: string)
      requires Valid() && c in history
      ensures var scope := conversations[c].scope;
              var found := id in rows && InScope(rows[id], scope) && rows[id].conversationId == c
                && rows[id].event.visibility == Public;
              && (found ==> IsCursor(history[c], retentionMaxEvents, id, rows[id].event.sequence - 1))
              && forall i :: IsCursor(history[c], retentionMaxEvents, id, i) ==> found && i == rows[id].event.sequence - 1
    {
      var h, t := history[c], Tables(conversations, rows);
      assert id in rows ==> RowBelongs(t, history, retentionMaxEvents, id);
      assert AllStored(t, h, retentionMaxEvents, c);
      forall i ensures IsCursor(h, retentionMaxEvents, id, i) ==> id in rows && rows[id].event == h[i] && rows[id].conversationId == c {
        if IsCursor(h, retentionMaxEvents, id, i) { assert Stored(t, c, h[i]); }
      }
    }

    lemma SelectedAre(c: string, selected: set<LoggedEvent>, afterSequence: nat)
      requires Valid() && c in history
      requires selected == set id | id in rows && InScope(rows[id], conversations[c].scope) && rows[id].conversationId == c
                 && rows[id].event.visibility == Public && rows[id].event.sequence > afterSequence :: rows[id].event
      ensures forall e :: e in selected <==>
                InWindow(history[c], retentionMaxEvents, e) && e.sequence > afterSequence && e.visibility == Public
    {
      var h, t := history[c], Tables(conversations, rows);
      assert AllStored(t, h, retentionMaxEvents, c);
      forall e ensures e in selected <==> InWindow(h, retentionMaxEvents, e) && e.sequence > afterSequence && e.visibility == Public {
        if e in selected {
          var id :| id in rows && rows[id].conversationId == c && rows[id].event == e;
          assert RowBelongs(t, history, retentionMaxEvents, id);
        }
        if InWindow(h, retentionMaxEvents, e) {
          assert Stored(t, c, h[e.sequence - 1]);
          assert RowBelongs(t, history, retentionMaxEvents, e.eventId);
        }
      }
    }
  }

  ghost predicate Distinct(events: set<LoggedEvent>) {
    forall a <- events, b <- events :: a.sequence == b.sequence ==> a == b
  }

  /** The database's ORDER BY. */
  method OrderBySequence(events: set<LoggedEvent>) returns (ordered: History)
    requires Distinct(events)
    ensures Ascending(ordered) && forall e :: e in ordered <==> e in events
  {
    ordered := [];
    var rest := events;
    while rest != {}
      invariant rest <= events && Ascending(ordered)
      invariant forall e :: e in ordered <==> e in events && e !in rest
      invariant forall a <- ordered, b <- rest :: a.sequence < b.sequence
      decreases rest
    {
      var least := Least(rest);
      ordered := ordered + [least];
      rest := rest - {least};
    }
  }

  method Least(events: set<LoggedEvent>) returns (least: LoggedEvent)
    requires events != {}
    ensures least in events && forall e <- events :: least.sequence <= e.sequence
  {
    least :| least in events;
    var rest := events - {least};
    while rest != {}
      invariant rest <= events && least in events
      invariant forall e <- events - rest :: least.sequence <= e.sequence
      decreases rest
    {
      var e :| e in rest;
      rest := rest - {e};
      if e.sequence < least.sequence { least := e; }
    }
  }

  /** The retained events numbered after `afterSequence`. */
  function SuffixAfter(h: History, retentionMaxEvents: nat, afterSequence: nat): History {
    var first := |h| - Min(|h|, retentionMaxEvents);
    h[if afterSequence <= first then first else Min(afterSequence, |h|)..]
  }

  lemma SliceContents(h: History, start: nat)
    requires Numbered(h) && start <= |h|
    ensures Ascending(h[start..])
    ensures forall e :: e in h[start..] <==> start < e.sequence <= |h| && h[e.sequence - 1] == e
  {
    var s := h[start..];
    assert forall k :: 0 <= k < |s| ==> s[k] == h[start + k];
    forall e: LoggedEvent | start < e.sequence <= |h| && h[e.sequence - 1] == e ensures e in s {
      assert s[e.sequence - 1 - start] == e;
    }
  }

  /** Ordering the selected rows gives the public events of that suffix. */
  lemma OrderedSelection(h: History, retentionMaxEvents: nat, afterSequence: nat, ordered: History)
    requires Numbered(h) && Ascending(ordered)
    requires forall e :: e in ordered <==>
               InWindow(h, retentionMaxEvents, e) && e.sequence > afterSequence && e.visibility == Public
    ensures ordered == PublicOnly(SuffixAfter(h, retentionMaxEvents, afterSequence))
  {
    var s := SuffixAfter(h, retentionMaxEvents, afterSequence);
    SliceContents(h, |h| - |s|);
    PublicOnlyContents(s);
    OrderIsUnique(ordered, PublicOnly(s));
  }
}
