/** The services as they are written: each command locks its key, looks it up, changes rows one
    statement at a time, and records the key last; a failure rolls everything back. */
module ChatServices {
  import opened Wrappers
  import opened ChatDatabase
  import opened ChatStores

  /** The methods of the conversation, message, run, structured-input and email-handoff services. */
  class CommandService {
    const store: ChatStore

    constructor (store: ChatStore)
      ensures this.store == store
    {
      this.store := store;
    }

    /** The lookup every command starts with; `Some` ends the command there. */
    method Previous(command: Command) returns (reply: Option<Reply>)
      ensures reply.Some? <==> KeyOf(command) in store.keys
      ensures reply.Some? ==> Execute(store.Tables(), command) == Tx(store.Tables(), reply.value)
    {
      var key := KeyOf(command);
      if key !in store.keys {
        return None;
      }
      var row := store.keys[key];
      if command.CancelRun? {
        var outcome := DecodeOutcome(row.resourceId);
        return Some(if outcome.Some? then outcome.value else Refused(InvalidRequest));
      }
      if row.request != RequestOf(command) {
        return Some(Refused(IdempotencyConflict));
      }
      return Some(Resource(Id(row.resourceId)));
    }

    method RecordKey(command: Command, resourceId: string)
      modifies store`keys
      ensures store.Tables() == Recorded(old(store.Tables()), command, resourceId)
    {
      store.keys := store.keys[KeyOf(command) := KeyRow(RequestOf(command), resourceId)];
    }

    method CreateConversation(command: Command) returns (reply: Reply)
      requires command.CreateConversation?
      modifies store
      ensures Tx(store.Tables(), reply) == Execute(old(store.Tables()), command)
    {
      var previous := Previous(command);
      if previous.Some? {
        return previous.value;
      }
      if command.id in store.issued {
        return Refused(DuplicateKey);
      }
      store.conversations := store.conversations[command.id := Conversation(command.scope, command.agentRef, 1)];
      store.issued := store.issued + {command.id};
      RecordKey(command, command.id.text);
      return Resource(command.id);
    }

    method SubmitMessage(command: Command) returns (reply: Reply)
      requires command.SubmitMessage?
      modifies store
      ensures Tx(store.Tables(), reply) == Execute(old(store.Tables()), command)
    {
      var saved := store.Tables();
      var previous := Previous(command);
      if previous.Some? {
        return previous.value;
      }
      var c := command.conversationId;
      if c !in store.conversations || store.conversations[c].scope != command.scope {
        return Refused(ConversationNotFound);
      }
      var next := store.conversations[c].nextMessageSequence + 1;
      store.conversations := store.conversations[c := store.conversations[c].(nextMessageSequence := next)];
      if !FreshIds(store.Tables(), command.messageId, command.runId, command.assistantMessageId) {
        store.Rollback(saved);
        return Refused(DuplicateKey);
      }
      store.messages := store.messages[command.messageId := Message(c, next - 1, User, MessageCompleted, command.parts)];
      store.runs := store.runs[command.runId :=
        NewRun(c, command.messageId, MessageTrigger, command.assistantMessageId, command.now)];
      store.issued := store.issued + {command.messageId, command.runId, command.assistantMessageId};
      RecordKey(command, command.messageId.text);
      return Resource(command.messageId);
    }

    /** The run that the newest creation time puts first. */
    method LatestRun(conversationId: Id) returns (latest: Option<Id>)
      ensures latest.Some? ==> IsLatestRun(store.Tables(), conversationId, latest.value)
      ensures latest.None? ==> forall r <- store.runs :: store.runs[r].conversationId != conversationId
    {
      latest := None;
      var rest := store.runs.Keys;
      while rest != {}
        invariant rest <= store.runs.Keys
        invariant latest.None? ==> forall r <- store.runs :: r in rest || store.runs[r].conversationId != conversationId
        invariant latest.Some? ==> latest.value in store.runs && store.runs[latest.value].conversationId == conversationId
        invariant latest.Some? ==> forall r <- store.runs ::
          r in rest || (store.runs[r].conversationId == conversationId ==> store.runs[r].createdAt <= store.runs[latest.value].createdAt)
        decreases |rest|
      {
        var r :| r in rest;
        rest := rest - {r};
        if store.runs[r].conversationId == conversationId
          && (latest.None? || store.runs[latest.value].createdAt < store.runs[r].createdAt) {
          latest := Some(r);
        }
      }
    }

    /** Which run it is decides the reply; when there is none no choice of run makes a difference. */
    method CancelRun(scope: Scope, key: string, conversationId: Id, now: Time) returns (reply: Reply, picked: Id)
      modifies store
      ensures Tx(store.Tables(), reply) == Execute(old(store.Tables()), Command.CancelRun(scope, key, conversationId, now, picked))
    {
      picked := Id("");
      var command := Command.CancelRun(scope, key, conversationId, now, picked);
      var previous := Previous(command);
      if previous.Some? {
        return previous.value, picked;
      }
      if conversationId !in store.conversations || store.conversations[conversationId].scope != scope {
        return Refused(ConversationNotFound), picked;
      }
      var latest := LatestRun(conversationId);
      if latest.None? {
        return Refused(RunNotFound), picked;
      }
      picked := latest.value;
      command := Command.CancelRun(scope, key, conversationId, now, picked);
      var run := store.runs[picked];
      var status := AlreadyFinished;
      if run.status == Queued {
        status := AlreadyCancelled;
        store.runs := store.runs[picked := run.(status := Cancelled, completedAt := Some(now))];
      } else if run.status == Running || run.status == CancelRequested {
        status := RequestedCancel;
        store.runs := store.runs[picked := run.(status := CancelRequested)];
      }
      RecordKey(command, picked.text + "|" + StatusText(status));
      return CancelOutcome(picked, status), picked;
    }

    method SubmitInput(command: Command) returns (reply: Reply)
      requires command.SubmitInput?
      modifies store
      ensures Tx(store.Tables(), reply) == Execute(old(store.Tables()), command)
    {
      var saved := store.Tables();
      var previous := Previous(command);
      if previous.Some? {
        return previous.value;
      }
      if command.answer == Some("") {
        return Refused(InvalidRequest);
      }
      var c, i := command.conversationId, command.requestId;
      if c !in store.conversations || store.conversations[c].scope != command.scope {
        return Refused(ConversationNotFound);
      }
      if i !in store.inputs || store.inputs[i].conversationId != c {
        return Refused(InputNotFound);
      }
      if store.inputs[i].status != InputPending {
        return Refused(InputAlreadyResolved);
      }
      var r := store.inputs[i].runId;
      var submitted := command.answer.Some?;
      store.inputs := store.inputs[i := store.inputs[i].(
        status := if submitted then Submitted else Declined, value := if submitted then command.answer else None,
        consent := Some(if submitted then Granted else Withheld), consentRecordedAt := Some(command.now), updatedAt := command.now)];
      if r !in store.runs || store.runs[r].status != WaitingForInput {
        store.Rollback(saved);
        return Refused(InputAlreadyResolved);
      }
      store.runs := store.runs[r := Resumed(store.runs[r], command.now)];
      if submitted {
        store.handoffs := SetHandoffs(store.handoffs, r, Delivering);
      }
      RecordKey(command, i.text);
      return Resource(i);
    }

    /** The user message with the highest number among those that can start a run. */
    method LatestTrigger(conversationId: Id) returns (latest: Option<Id>)
      ensures latest.Some? ==> IsLatestUserMessage(store.Tables(), conversationId, latest.value)
      ensures latest.None? ==> forall m <- store.messages :: !IsTrigger(store.messages[m], conversationId)
    {
      latest := None;
      var rest := store.messages.Keys;
      while rest != {}
        invariant rest <= store.messages.Keys
        invariant latest.None? ==> forall m <- store.messages :: m in rest || !IsTrigger(store.messages[m], conversationId)
        invariant latest.Some? ==> latest.value in store.messages && IsTrigger(store.messages[latest.value], conversationId)
        invariant latest.Some? ==> forall m <- store.messages ::
          m in rest || (IsTrigger(store.messages[m], conversationId) ==> store.messages[m].sequence <= store.messages[latest.value].sequence)
        decreases |rest|
      {
        var m :| m in rest;
        rest := rest - {m};
        if IsTrigger(store.messages[m], conversationId)
          && (latest.None? || store.messages[latest.value].sequence < store.messages[m].sequence) {
          latest := Some(m);
        }
      }
    }

    method CreateEmailHandoff(scope: Scope, key: string, conversationId: Id, email: string, now: Time,
                              runId: Id, handoffId: Id, assistantMessageId: Id)
      returns (reply: Reply, picked: Id)
      modifies store
      ensures Tx(store.Tables(), reply) == Execute(old(store.Tables()),
        Command.CreateEmailHandoff(scope, key, conversationId, email, now, picked, runId, handoffId, assistantMessageId))
    {
      picked := Id("");
      var command := Command.CreateEmailHandoff(scope, key, conversationId, email, now, picked, runId, handoffId, assistantMessageId);
      var saved := store.Tables();
      var previous := Previous(command);
      if previous.Some? {
        return previous.value, picked;
      }
      if email == "" {
        return Refused(InvalidRequest), picked;
      }
      if conversationId !in store.conversations || store.conversations[conversationId].scope != scope {
        return Refused(ConversationNotFound), picked;
      }
      var trigger := LatestTrigger(conversationId);
      if trigger.None? {
        return Refused(EmptyConversation), picked;
      }
      picked := trigger.value;
      command := Command.CreateEmailHandoff(scope, key, conversationId, email, now, picked, runId, handoffId, assistantMessageId);
      if !FreshIds(store.Tables(), runId, handoffId, assistantMessageId) {
        return Refused(DuplicateKey), picked;
      }
      store.runs := store.runs[runId := NewRun(conversationId, picked, EmailHandoffTrigger, assistantMessageId, now)];
      if handoffId in store.handoffs || handoffId in store.inputs {
        store.Rollback(saved);
        return Refused(DuplicateKey), picked;
      }
      store.handoffs := store.handoffs[handoffId := Handoff(conversationId, runId, AgentEmail, Delivering)];
      store.inputs := store.inputs[handoffId :=
        Input(conversationId, runId, Submitted, Some(email), Some(Granted), Some(now), now)];
      store.issued := store.issued + {runId, handoffId, assistantMessageId};
      RecordKey(command, handoffId.text);
      return Resource(handoffId), picked;
    }
  }

  class RetentionService {
    const store: ChatStore

    constructor (store: ChatStore)
      ensures this.store == store
    {
      this.store := store;
    }

    /** Children before parents. */
    method DeleteConversation(c: Id)
      modifies store
      ensures store.Tables() == DeletedConversation(old(store.Tables()), c)
    {
      store.inputs := map i | i in store.inputs && store.inputs[i].conversationId != c :: store.inputs[i];
      store.handoffs := map h | h in store.handoffs && store.handoffs[h].conversationId != c :: store.handoffs[h];
      store.runs := map r | r in store.runs && store.runs[r].conversationId != c :: store.runs[r];
      store.messages := map m | m in store.messages && store.messages[m].conversationId != c :: store.messages[m];
      store.conversations := store.conversations - {c};
    }

    method RedactContactValues(cutoff: Time)
      modifies store
      ensures store.Tables() == Redacted(old(store.Tables()), cutoff)
      ensures forall i <- store.inputs :: store.inputs[i].value.Some? ==> store.inputs[i].updatedAt >= cutoff
    {
      store.inputs := map i | i in store.inputs ::
        if store.inputs[i].value.Some? && store.inputs[i].updatedAt < cutoff
        then store.inputs[i].(value := None, status := Expired) else store.inputs[i];
    }
  }
}
