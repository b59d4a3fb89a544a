/** Every transaction keeps the integrity of the tables, so every run of the system does. */
module ChatInvariants {
  import opened Wrappers
  import opened ChatDatabase
  import opened RunLifecycle
  import opened ChatIntegrity

  ghost predicate Whole(db: Db) {
    && Issued(db)
    && Numbered(db.conversations, db.messages)
    && Paired(db.messages, db.runs)
    && Linked(db.conversations, db.runs, db.handoffs, db.inputs)
  }

  /** Changes that leave identities, places and references alone. */
  predicate SameShape(a: Db, b: Db) {
    && a.conversations == b.conversations && a.issued == b.issued
    && SameMessages(a.messages, b.messages) && SameRuns(a.runs, b.runs)
    && SameHandoffs(a.handoffs, b.handoffs) && SameInputs(a.inputs, b.inputs)
  }

  lemma LinksOfSame(a: Db, b: Db)
    requires Linked(a.conversations, a.runs, a.handoffs, a.inputs) && a.conversations == b.conversations
    requires SameRuns(a.runs, b.runs) && SameHandoffs(a.handoffs, b.handoffs) && SameInputs(a.inputs, b.inputs)
    ensures Linked(b.conversations, b.runs, b.handoffs, b.inputs)
  {
    forall r | r in b.runs ensures b.runs[r].conversationId in b.conversations {
      assert SameOrigin(a.runs[r], b.runs[r]);
    }
    forall h | h in b.handoffs ensures HandoffFits(b.runs, b.handoffs[h]) {
      assert HandoffFits(a.runs, a.handoffs[h]);
      assert SameOrigin(a.runs[a.handoffs[h].runId], b.runs[a.handoffs[h].runId]);
    }
    forall i | i in b.inputs ensures InputFits(b.runs, b.inputs[i]) {
      assert InputFits(a.runs, a.inputs[i]);
      assert SameOrigin(a.runs[a.inputs[i].runId], b.runs[a.inputs[i].runId]);
    }
  }

  lemma ShapeKeepsWhole(a: Db, b: Db)
    requires Whole(a) && SameShape(a, b)
    ensures Whole(b)
  {
    NumbersOfSame(a.conversations, a.messages, b.messages);
    PairsOfSame(a.messages, a.runs, b.messages, b.runs);
    LinksOfSame(a, b);
    forall r | r in b.runs ensures b.runs[r].assistantMessageId in b.issued {
      assert SameOrigin(a.runs[r], b.runs[r]);
    }
  }

  lemma Unchanged(db: Db)
    ensures SameShape(db, db)
  {}

  lemma RunRewritten(runs: map<Id, Run>, id: Id, row: Run)
    requires id in runs && SameOrigin(runs[id], row)
    ensures SameRuns(runs, runs[id := row])
  {}

  lemma RunShape(db: Db, id: Id, row: Run)
    requires id in db.runs && SameOrigin(db.runs[id], row)
    ensures SameShape(db, WithRun(db, id, row))
  {
    Unchanged(db);
    RunRewritten(db.runs, id, row);
  }

  // ---------------------------------------------------------------- worker transactions

  lemma LeaseShape(db: Db, step: Step, cfg: Config)
    requires step.Claim? || step.Renew? || step.WaitForInput? || step.Complete?
    ensures SameShape(db, Apply(db, step, cfg))
  {
    Unchanged(db);
    var move := MoveOf(db, step, cfg, step.run);
    if step.run in db.runs && move != Stay {
      LeaseRow(db, step, cfg);
      RunShape(db, step.run, Apply(db, step, cfg).runs[step.run]);
    }
  }

  lemma LeaseRow(db: Db, step: Step, cfg: Config)
    requires step.Claim? || step.Renew? || step.WaitForInput? || step.Complete?
    requires step.run in db.runs && MoveOf(db, step, cfg, step.run) != Stay
    ensures var next := Apply(db, step, cfg);
      step.run in next.runs && SameOrigin(db.runs[step.run], next.runs[step.run]) && next == WithRun(db, step.run, next.runs[step.run])
  {}

  lemma CancelledShape(db: Db, id: Id, now: Time)
    ensures SameShape(db, CancelledRun(db, id, now))
  {
    Unchanged(db);
    if id in db.runs {
      RunRewritten(db.runs, id, CancelledRun(db, id, now).runs[id]);
      CancelledMessages(db.messages, db.runs[id].assistantMessageId);
    }
  }

  lemma CancelledMessages(messages: map<Id, Message>, m: Id)
    ensures SameMessages(messages, WithCancelled(messages, m))
  {}

  lemma FailedShape(db: Db, id: Id, code: string, now: Time)
    ensures SameShape(db, FailedRun(db, id, code, now))
  {
    Unchanged(db);
    if id in db.runs {
      RunRewritten(db.runs, id, FailedRun(db, id, code, now).runs[id]);
      FailedHandoffs(db.handoffs, id);
    }
  }

  lemma FailedHandoffs(handoffs: map<Id, Handoff>, runId: Id)
    ensures SameHandoffs(handoffs, WithFailed(handoffs, runId))
  {}

  lemma StartedKeepsWhole(db: Db, id: Id)
    requires Whole(db) && id in db.runs && db.runs[id].assistantMessageId !in db.messages
    ensures Started(db, id).Some? && Whole(Started(db, id).value)
  {
    var run := db.runs[id];
    var message := AnswerOf(run, db.conversations[run.conversationId]);
    NumberTaken(db.conversations, db.messages, run.assistantMessageId, message);
    AnswerAdded(db.messages, db.runs, id, message);
    ConversationsKept(db, Bumped(db.conversations, run.conversationId));
  }

  lemma ConversationsKept(db: Db, conversations: map<Id, Conversation>)
    requires Linked(db.conversations, db.runs, db.handoffs, db.inputs) && db.conversations.Keys <= conversations.Keys
    ensures Linked(conversations, db.runs, db.handoffs, db.inputs)
  {}

  lemma FinishedShape(db: Db, id: Id, parts: string)
    requires id in db.runs && Finished(db, id, parts).Some?
    ensures SameShape(db, Finished(db, id, parts).value)
  {
    Unchanged(db);
    MessageFinished(db.messages, db.runs[id].assistantMessageId, parts);
  }

  lemma MessageFinished(messages: map<Id, Message>, m: Id, parts: string)
    requires m in messages
    ensures SameMessages(messages, messages[m := messages[m].(status := MessageCompleted, parts := parts)])
  {}

  lemma HandoffAdded(db: Db, h: Id, handoff: Handoff)
    requires Linked(db.conversations, db.runs, db.handoffs, db.inputs) && h !in db.handoffs && HandoffFits(db.runs, handoff)
    requires forall g <- db.handoffs :: db.handoffs[g].runId != handoff.runId
    ensures Linked(db.conversations, db.runs, db.handoffs[h := handoff], db.inputs)
  {}

  lemma InputAdded(db: Db, i: Id, input: Input)
    requires Linked(db.conversations, db.runs, db.handoffs, db.inputs) && i !in db.inputs && InputFits(db.runs, input)
    ensures Linked(db.conversations, db.runs, db.handoffs, db.inputs[i := input])
  {}

  lemma HandoffsSet(handoffs: map<Id, Handoff>, runId: Id, status: HandoffStatus)
    ensures SameHandoffs(handoffs, SetHandoffs(handoffs, runId, status))
  {}

  lemma AskedForHandoffKeepsWhole(db: Db, id: Id, handoffId: Id)
    requires Whole(db) && id in db.runs && AskedForHandoff(db, id, handoffId).Some?
    ensures Whole(AskedForHandoff(db, id, handoffId).value)
  {
    if handoffId !in db.handoffs {
      HandoffAdded(db, handoffId, Handoff(db.runs[id].conversationId, id, Human, Requested));
    }
  }

  lemma AskedForContactKeepsWhole(db: Db, id: Id, requestId: Id, now: Time)
    requires Whole(db) && id in db.runs && AskedForContact(db, id, requestId, now).Some?
    ensures Whole(AskedForContact(db, id, requestId, now).value)
  {
    var next := AskedForContact(db, id, requestId, now).value;
    Unchanged(db);
    HandoffsSet(db.handoffs, id, AwaitingContact);
    var moved := db.(handoffs := next.handoffs);
    LinksOfSame(db, moved);
    if requestId !in db.inputs {
      InputAdded(moved, requestId, Input(db.runs[id].conversationId, id, InputPending, None, None, None, now));
    }
  }

  lemma FinishedHandoffShape(db: Db, id: Id, handoffId: Id)
    requires id in db.runs && FinishedHandoff(db, id, handoffId).Some?
    ensures SameShape(db, FinishedHandoff(db, id, handoffId).value)
  {
    Unchanged(db);
  }

  lemma EventsKeepWhole(db: Db, id: Id, event: ConnectorEvent, now: Time)
    requires Whole(db) && Materialized(db, id, event, now).Some?
    ensures Whole(Materialized(db, id, event, now).value)
  {
    match event
    case MessageStarted =>
      if db.runs[id].assistantMessageId !in db.messages {
        StartedKeepsWhole(db, id);
      }
    case MessageFinished(parts) =>
      FinishedShape(db, id, parts);
      ShapeKeepsWhole(db, Finished(db, id, parts).value);
    case HandoffRequested(handoffId) => AskedForHandoffKeepsWhole(db, id, handoffId);
    case ContactRequested(requestId) => AskedForContactKeepsWhole(db, id, requestId, now);
    case HandoffFinished(handoffId) =>
      FinishedHandoffShape(db, id, handoffId);
      ShapeKeepsWhole(db, FinishedHandoff(db, id, handoffId).value);
    case _ =>
  }

  // ---------------------------------------------------------------- commands

  lemma ConversationCreatedKeepsWhole(db: Db, command: Command)
    requires Whole(db) && command.CreateConversation? && command.id !in db.issued
    ensures Whole(ConversationCreated(db, command).db)
  {
    var conversations := db.conversations[command.id := Conversation(command.scope, command.agentRef, 1)];
    NumbersOfNewConversation(db.conversations, db.messages, command.id, conversations[command.id]);
    ConversationsKept(db, conversations);
  }

  lemma MessageSubmittedKeepsWhole(db: Db, command: Command)
    requires Whole(db) && command.SubmitMessage? && MessageSubmitted(db, command).reply.Resource?
    ensures Whole(MessageSubmitted(db, command).db)
  {
    var next := MessageSubmitted(db, command).db;
    var message := next.messages[command.messageId];
    var run := next.runs[command.runId];
    SubmitKeepsIssued(db, command);
    NumberTaken(db.conversations, db.messages, command.messageId, message);
    PairAdded(db.messages, db.runs, command.messageId, message, command.runId, run);
    RunAdded(db, next.conversations, command.runId, run);
  }

  lemma RunAdded(db: Db, conversations: map<Id, Conversation>, r: Id, run: Run)
    requires Linked(db.conversations, db.runs, db.handoffs, db.inputs) && r !in db.runs
    requires run.conversationId in conversations && db.conversations.Keys <= conversations.Keys
    ensures Linked(conversations, db.runs[r := run], db.handoffs, db.inputs)
  {
    forall h | h in db.handoffs ensures HandoffFits(db.runs[r := run], db.handoffs[h]) {
      assert HandoffFits(db.runs, db.handoffs[h]);
    }
    forall i | i in db.inputs ensures InputFits(db.runs[r := run], db.inputs[i]) {
      assert InputFits(db.runs, db.inputs[i]);
    }
  }

  lemma CancelAskedShape(db: Db, command: Command)
    requires command.CancelRun? && CancelAsked(db, command).reply.CancelOutcome?
    ensures SameShape(db, CancelAsked(db, command).db)
  {
    RunShape(db, command.picked, CancelledByUser(db.runs[command.picked], command.now));
  }

  lemma InputSubmittedShape(db: Db, command: Command)
    requires command.SubmitInput? && InputSubmitted(db, command).reply.Resource?
    ensures SameShape(db, InputSubmitted(db, command).db)
  {
    Unchanged(db);
    var id := db.inputs[command.requestId].runId;
    RunRewritten(db.runs, id, Resumed(db.runs[id], command.now));
    HandoffsSet(db.handoffs, id, Delivering);
    InputRewritten(db.inputs, command.requestId, command.answer, command.now);
  }

  lemma InputRewritten(inputs: map<Id, Input>, i: Id, answer: Option<string>, now: Time)
    requires i in inputs
    ensures SameInputs(inputs, inputs[i := Answered(inputs[i], answer, now)])
  {}

  lemma EmailHandoffCreatedKeepsWhole(db: Db, command: Command)
    requires Whole(db) && command.CreateEmailHandoff? && EmailHandoffCreated(db, command).reply.Resource?
    ensures Whole(EmailHandoffCreated(db, command).db)
  {
    var next := EmailHandoffCreated(db, command).db;
    var run := next.runs[command.runId];
    HandoffKeepsIssued(db, command);
    EmailRunAdded(db.messages, db.runs, command.runId, run);
    RunAdded(db, db.conversations, command.runId, run);
    forall h | h in db.handoffs ensures db.handoffs[h].runId != command.runId {
      assert HandoffFits(db.runs, db.handoffs[h]);
    }
    var withRun := db.(runs := next.runs);
    HandoffAdded(withRun, command.handoffId, next.handoffs[command.handoffId]);
    InputAdded(withRun.(handoffs := next.handoffs), command.handoffId, next.inputs[command.handoffId]);
  }

  lemma EffectsKeepWhole(db: Db, command: Command)
    requires Whole(db) && !Effect(db, command).reply.Refused?
    ensures Whole(Effect(db, command).db)
  {
    match command
    case CreateConversation(_, _, _, _) => ConversationCreatedKeepsWhole(db, command);
    case SubmitMessage(_, _, _, _, _, _, _, _) => MessageSubmittedKeepsWhole(db, command);
    case CancelRun(_, _, _, _, _) =>
      CancelAskedShape(db, command);
      ShapeKeepsWhole(db, CancelAsked(db, command).db);
    case SubmitInput(_, _, _, _, _, _) =>
      InputSubmittedShape(db, command);
      ShapeKeepsWhole(db, InputSubmitted(db, command).db);
    case CreateEmailHandoff(_, _, _, _, _, _, _, _, _) => EmailHandoffCreatedKeepsWhole(db, command);
  }

  /** A refused command leaves nothing behind. */
  lemma RefusedLeavesNothing(db: Db, command: Command)
    ensures KeyOf(command) in db.keys || Effect(db, command).reply.Refused? ==> Execute(db, command).db == db
  {}

  // ---------------------------------------------------------------- retention

  lemma RedactedShape(db: Db, cutoff: Time)
    ensures SameShape(db, Redacted(db, cutoff))
  {
    Unchanged(db);
  }

  lemma DeletedKeepsWhole(db: Db, c: Id)
    requires Whole(db)
    ensures Whole(DeletedConversation(db, c))
  {
    var next := DeletedConversation(db, c);
    NumbersAfterDelete(db.conversations, db.messages, next.messages, c);
    PairsAfterDelete(db.messages, db.runs, next.messages, next.runs, c);
    DeletedLinks(db, c);
    DeletedIssued(db, c);
  }

  lemma DeletedIssued(db: Db, c: Id)
    requires Issued(db)
    ensures Issued(DeletedConversation(db, c))
  {}

  lemma DeletedLinks(db: Db, c: Id)
    requires Linked(db.conversations, db.runs, db.handoffs, db.inputs)
    ensures var next := DeletedConversation(db, c); Linked(next.conversations, next.runs, next.handoffs, next.inputs)
  {
    var next := DeletedConversation(db, c);
    forall h | h in next.handoffs ensures HandoffFits(next.runs, next.handoffs[h]) {
      assert HandoffFits(db.runs, db.handoffs[h]);
    }
    forall i | i in next.inputs ensures InputFits(next.runs, next.inputs[i]) {
      assert InputFits(db.runs, db.inputs[i]);
    }
  }

  // ---------------------------------------------------------------- every run of the system

  lemma StepKeepsWhole(db: Db, step: Step, cfg: Config)
    requires Whole(db)
    ensures Whole(Apply(db, step, cfg))
  {
    match step
    case Materialize(run, event, now) =>
      if Materialized(db, run, event, now).Some? {
        EventsKeepWhole(db, run, event, now);
      }
    case WorkerCancel(run, now) =>
      CancelledShape(db, run, now);
      ShapeKeepsWhole(db, CancelledRun(db, run, now));
    case Fail(run, code, now) =>
      FailedShape(db, run, code, now);
      ShapeKeepsWhole(db, FailedRun(db, run, code, now));
    case Do(command) =>
      RefusedLeavesNothing(db, command);
      if Execute(db, command).db != db {
        EffectsKeepWhole(db, command);
      }
    case Redact(cutoff) =>
      RedactedShape(db, cutoff);
      ShapeKeepsWhole(db, Redacted(db, cutoff));
    case DeleteConversation(c) => DeletedKeepsWhole(db, c);
    case ForgetKeys(keys) =>
      Unchanged(db);
    case _ =>
      LeaseShape(db, step, cfg);
      ShapeKeepsWhole(db, Apply(db, step, cfg));
  }

  /** Under every interleaving: message numbers have no gap and no repeat, messages and runs stay
      paired, and every reference between rows holds. */
  lemma {:induction false} AlwaysWhole(db: Db, trace: seq<Step>, cfg: Config)
    requires Whole(db)
    ensures Whole(After(db, trace, cfg))
    decreases |trace|
  {
    if trace != [] {
      StepKeepsWhole(db, trace[0], cfg);
      AlwaysWhole(Apply(db, trace[0], cfg), trace[1..], cfg);
    }
  }

  /** Of everything that ever happened from the empty database: a conversation's message numbers
      are exactly 1 up to its next one, each held by one message. */
  lemma NumbersAreGapless(trace: seq<Step>, cfg: Config, c: Id)
    requires c in After(EMPTY_DB, trace, cfg).conversations
    ensures var db := After(EMPTY_DB, trace, cfg);
      && (forall k: nat :: 1 <= k < db.conversations[c].nextMessageSequence <==> HasNumber(db.messages, c, k))
      && (forall m <- db.messages, n <- db.messages :: SamePlace(db.messages[m], db.messages[n]) ==> m == n)
  {
    AlwaysWhole(EMPTY_DB, trace, cfg);
    var db := After(EMPTY_DB, trace, cfg);
    forall k: nat | HasNumber(db.messages, c, k) ensures 1 <= k < db.conversations[c].nextMessageSequence {
      var m :| m in db.messages && db.messages[m].conversationId == c && db.messages[m].sequence == k;
      assert Placed(db.conversations, db.messages[m]);
    }
  }

  predicate IsAnswerOf(messages: map<Id, Message>, runs: map<Id, Run>, m: Id, r: Id) {
    && m in messages && r in runs && runs[r].assistantMessageId == m
    && messages[m].conversationId == runs[r].conversationId
  }

  lemma AnswersAreUnique(messages: map<Id, Message>, runs: map<Id, Run>, m: Id) returns (r: Id)
    requires Paired(messages, runs) && m in messages && messages[m].role == Assistant
    ensures IsAnswerOf(messages, runs, m, r)
    ensures forall n, q :: IsAnswerOf(messages, runs, n, q) ==> (n == m <==> q == r)
  {
    assert AnswersRun(runs, m);
    r :| r in runs && runs[r].assistantMessageId == m;
    assert RunFits(messages, runs[r]);
  }

  /** A run has at most one assistant message over all its attempts, and each assistant message one run. */
  lemma OneAnswerPerRun(trace: seq<Step>, cfg: Config, m: Id) returns (r: Id)
    requires m in After(EMPTY_DB, trace, cfg).messages && After(EMPTY_DB, trace, cfg).messages[m].role == Assistant
    ensures var db := After(EMPTY_DB, trace, cfg);
      && IsAnswerOf(db.messages, db.runs, m, r)
      && forall n, q :: IsAnswerOf(db.messages, db.runs, n, q) ==> (n == m <==> q == r)
  {
    AlwaysWhole(EMPTY_DB, trace, cfg);
    r := AnswersAreUnique(After(EMPTY_DB, trace, cfg).messages, After(EMPTY_DB, trace, cfg).runs, m);
  }

  // ---------------------------------------------------------------- message keys

  predicate SubmittedWith(keys: map<CommandKey, KeyRow>, key: CommandKey, m: Id) {
    key in keys && key.operation.CreateMessageOp? && keys[key].resourceId == m.text
  }

  ghost predicate HasKey(keys: map<CommandKey, KeyRow>, m: Id) { exists key <- keys :: SubmittedWith(keys, key, m) }

  predicate KeyFits(messages: map<Id, Message>, key: CommandKey, row: KeyRow) {
    key.operation.CreateMessageOp? ==>
      var m := Id(row.resourceId);
      m in messages && messages[m].role == User && messages[m].conversationId == key.operation.conversationId
  }

  /** User messages and the keys they were submitted with in one-to-one correspondence. */
  ghost predicate Keyed(messages: map<Id, Message>, keys: map<CommandKey, KeyRow>) {
    && (forall key <- keys :: KeyFits(messages, key, keys[key]))
    && (forall m <- messages :: messages[m].role == User ==> HasKey(keys, m))
    && (forall a <- keys, b <- keys :: SameMessageKey(keys, a, b) ==> a == b)
  }

  predicate SameMessageKey(keys: map<CommandKey, KeyRow>, a: CommandKey, b: CommandKey)
    requires a in keys && b in keys
  {
    a.operation.CreateMessageOp? && b.operation.CreateMessageOp? && keys[a].resourceId == keys[b].resourceId
  }

  /** Messages stay, and what is new is not the user's. */
  predicate OnlyAnswersAdded(a: map<Id, Message>, b: map<Id, Message>) {
    && (forall m <- a :: m in b && a[m].role == b[m].role && a[m].conversationId == b[m].conversationId)
    && (forall m <- b :: m in a || b[m].role == Assistant)
  }

  lemma KeysOfSame(a: map<Id, Message>, b: map<Id, Message>, keys: map<CommandKey, KeyRow>)
    requires Keyed(a, keys) && OnlyAnswersAdded(a, b)
    ensures Keyed(b, keys)
  {
    forall key | key in keys ensures KeyFits(b, key, keys[key]) {
      assert KeyFits(a, key, keys[key]);
    }
  }

  lemma OtherKeyAdded(messages: map<Id, Message>, keys: map<CommandKey, KeyRow>, key: CommandKey, row: KeyRow)
    requires Keyed(messages, keys) && key !in keys && !key.operation.CreateMessageOp?
    ensures Keyed(messages, keys[key := row])
  {
    var keys' := keys[key := row];
    forall m | m in messages && messages[m].role == User ensures HasKey(keys', m) {
      assert HasKey(keys, m);
      var k :| k in keys && SubmittedWith(keys, k, m);
      assert SubmittedWith(keys', k, m);
    }
    forall a, b | a in keys' && b in keys' && SameMessageKey(keys', a, b) ensures a == b {
      assert SameMessageKey(keys, a, b);
    }
  }

  lemma MessageKeyAdded(messages: map<Id, Message>, keys: map<CommandKey, KeyRow>, key: CommandKey, row: KeyRow, m: Id, message: Message)
    requires Keyed(messages, keys) && key !in keys && key.operation == CreateMessageOp(message.conversationId)
    requires m !in messages && message.role == User && row.resourceId == m.text
    ensures Keyed(messages[m := message], keys[key := row])
  {
    var keys' := keys[key := row];
    var messages' := messages[m := message];
    assert SubmittedWith(keys', key, m);
    forall n | n in messages && messages[n].role == User ensures HasKey(keys', n) {
      assert HasKey(keys, n);
      var k :| k in keys && SubmittedWith(keys, k, n);
      assert SubmittedWith(keys', k, n);
    }
    forall k | k in keys' ensures KeyFits(messages', k, keys'[k]) {
      if k != key { assert KeyFits(messages, k, keys[k]); } else { assert Id(row.resourceId) == m; }
    }
    forall a | a in keys && a.operation.CreateMessageOp? ensures keys[a].resourceId != row.resourceId {
      assert KeyFits(messages, a, keys[a]);
    }
    forall a, b | a in keys' && b in keys' && SameMessageKey(keys', a, b) ensures a == b {
      assert a != key && b != key ==> SameMessageKey(keys, a, b);
    }
  }

  predicate IsRetention(step: Step) { step.DeleteConversation? || step.ForgetKeys? }

  lemma WorkersLeaveKeys(db: Db, step: Step, cfg: Config)
    requires !step.Do? && !step.Materialize? && !IsRetention(step)
    ensures OnlyAnswersAdded(db.messages, Apply(db, step, cfg).messages) && Apply(db, step, cfg).keys == db.keys
  {
    match step
    case WorkerCancel(run, now) => CancelledShape(db, run, now);
    case Fail(run, code, now) =>
    case Redact(_) =>
    case _ => LeaseShape(db, step, cfg);
  }

  lemma EventsAddOnlyAnswers(db: Db, id: Id, event: ConnectorEvent, now: Time)
    requires Materialized(db, id, event, now).Some?
    ensures OnlyAnswersAdded(db.messages, Materialized(db, id, event, now).value.messages)
  {}

  lemma EffectsKeepKeyed(db: Db, command: Command)
    requires Whole(db) && Keyed(db.messages, db.keys) && KeyOf(command) !in db.keys && !Effect(db, command).reply.Refused?
    ensures Keyed(Effect(db, command).db.messages, Effect(db, command).db.keys)
  {
    EffectRecordsItsKey(db, command);
    if command.SubmitMessage? {
      SubmitKeepsKeyed(db, command);
    } else {
      OtherKeyAdded(db.messages, db.keys, KeyOf(command), Effect(db, command).db.keys[KeyOf(command)]);
    }
  }

  lemma SubmitKeepsKeyed(db: Db, command: Command)
    requires Issued(db) && Keyed(db.messages, db.keys) && command.SubmitMessage? && KeyOf(command) !in db.keys
    requires MessageSubmitted(db, command).reply.Resource?
    ensures Keyed(MessageSubmitted(db, command).db.messages, MessageSubmitted(db, command).db.keys)
  {
    var next := MessageSubmitted(db, command).db;
    MessageKeyAdded(db.messages, db.keys, KeyOf(command), next.keys[KeyOf(command)], command.messageId, next.messages[command.messageId]);
  }

  lemma EffectRecordsItsKey(db: Db, command: Command)
    requires !Effect(db, command).reply.Refused?
    ensures var next := Effect(db, command).db;
      && KeyOf(command) in next.keys && next.keys == db.keys[KeyOf(command) := next.keys[KeyOf(command)]]
      && next.keys[KeyOf(command)].request == RequestOf(command)
      && (!command.SubmitMessage? ==> next.messages == db.messages)
  {}

  lemma StepKeepsKeyed(db: Db, step: Step, cfg: Config)
    requires Whole(db) && Keyed(db.messages, db.keys) && !IsRetention(step)
    ensures Keyed(Apply(db, step, cfg).messages, Apply(db, step, cfg).keys)
  {
    if step.Do? {
      RefusedLeavesNothing(db, step.command);
      if Execute(db, step.command).db != db {
        EffectsKeepKeyed(db, step.command);
      }
    } else if step.Materialize? {
      EventsLeaveRuns(db, step.run, step.event, step.now);
      if Materialized(db, step.run, step.event, step.now).Some? {
        EventsAddOnlyAnswers(db, step.run, step.event, step.now);
        KeysOfSame(db.messages, Apply(db, step, cfg).messages, db.keys);
      }
    } else {
      WorkersLeaveKeys(db, step, cfg);
      KeysOfSame(db.messages, Apply(db, step, cfg).messages, db.keys);
    }
  }

  /** Without retention, user messages, the runs they trigger and the keys they came with stay in bijection. */
  lemma {:induction false} AlwaysKeyed(db: Db, trace: seq<Step>, cfg: Config)
    requires Whole(db) && Keyed(db.messages, db.keys)
    requires forall step <- trace :: !IsRetention(step)
    ensures Whole(After(db, trace, cfg)) && Keyed(After(db, trace, cfg).messages, After(db, trace, cfg).keys)
    decreases |trace|
  {
    if trace != [] {
      StepKeepsWhole(db, trace[0], cfg);
      StepKeepsKeyed(db, trace[0], cfg);
      AlwaysKeyed(Apply(db, trace[0], cfg), trace[1..], cfg);
    }
  }
}
