/** The tables that runs, messages, inputs and commands live in, and every transaction on
    them as one atomic step. Identifiers the program generates come in as parameters;
    a transaction that would insert one twice fails on the primary key and changes nothing. */
module ChatDatabase {
  import opened Wrappers

  datatype Id = Id(text: string)
  type Time = int

  datatype Scope = Scope(tenantId: string, siteId: string, principalId: string)

  datatype Conversation = Conversation(scope: Scope, agentRef: string, nextMessageSequence: nat)

  datatype Role = User | Assistant
  datatype MessageStatus = Pending | Streaming | MessageCompleted | MessageFailed | MessageCancelled
  datatype Message = Message(conversationId: Id, sequence: nat, role: Role, status: MessageStatus, parts: string)

  datatype RunStatus = Queued | Running | WaitingForInput | Completed | Failed | CancelRequested | Cancelled
  datatype Trigger = MessageTrigger | EmailHandoffTrigger
  datatype Run = Run(
    conversationId: Id, triggerMessageId: Id, trigger: Trigger, assistantMessageId: Id,
    status: RunStatus, attempt: nat, createdAt: Time, availableAt: Time, claimedAt: Option<Time>,
    leaseExpiresAt: Option<Time>, errorCode: Option<string>, completedAt: Option<Time>)

  datatype HandoffKind = Human | AgentEmail
  datatype HandoffStatus = Requested | AwaitingContact | Delivering | HandoffCompleted | HandoffFailed
  datatype Handoff = Handoff(conversationId: Id, runId: Id, kind: HandoffKind, status: HandoffStatus)

  datatype InputStatus = InputPending | Submitted | Declined | Expired
  datatype Consent = Granted | Withheld
  datatype Input = Input(
    conversationId: Id, runId: Id, status: InputStatus, value: Option<string>,
    consent: Option<Consent>, consentRecordedAt: Option<Time>, updatedAt: Time)

  datatype Operation =
    | CreateConversationOp
    | CreateMessageOp(conversationId: Id)
    | CancelRunOp(conversationId: Id)
    | SubmitInputOp(conversationId: Id, requestId: Id)
    | CreateEmailHandoffOp(conversationId: Id)
  datatype CommandKey = CommandKey(scope: Scope, operation: Operation, key: string)

  /** The canonical request whose hash is stored with a key. */
  datatype Request = NoBody | Parts(parts: string) | Answer(value: Option<string>) | Email(email: string)
  datatype KeyRow = KeyRow(request: Request, resourceId: string)

  /** `issued`: every generated identifier so far; deleting a row does not free it. */
  datatype Db = Db(
    conversations: map<Id, Conversation>, messages: map<Id, Message>, runs: map<Id, Run>,
    handoffs: map<Id, Handoff>, inputs: map<Id, Input>, keys: map<CommandKey, KeyRow>, issued: set<Id>)

  const EMPTY_DB := Db(map[], map[], map[], map[], map[], map[], {})

  datatype Config = Config(leaseMs: nat, maxAttempts: nat)

  /** The next message number of a conversation is taken. */
  function Bumped(conversations: map<Id, Conversation>, c: Id): map<Id, Conversation>
    requires c in conversations
  {
    conversations[c := conversations[c].(nextMessageSequence := conversations[c].nextMessageSequence + 1)]
  }

  function WithRun(db: Db, id: Id, run: Run): Db { db.(runs := db.runs[id := run]) }

  // ---------------------------------------------------------------- worker transactions

  /** The WHERE clause of the claim. */
  predicate Claimable(run: Run, now: Time, cfg: Config) {
    && run.availableAt <= now && run.attempt < cfg.maxAttempts
    && (run.status == Queued || (run.status == Running && run.leaseExpiresAt.Some? && run.leaseExpiresAt.value <= now))
  }

  function Claimed(db: Db, id: Id, now: Time, cfg: Config): Db
    requires id in db.runs
  {
    var run := db.runs[id];
    WithRun(db, id, run.(status := Running, attempt := run.attempt + 1, claimedAt := Some(now),
                         leaseExpiresAt := Some(now + cfg.leaseMs)))
  }

  predicate Renewable(db: Db, id: Id, attempt: nat) {
    id in db.runs && db.runs[id].status == Running && db.runs[id].attempt == attempt
  }

  function Renewed(db: Db, id: Id, attempt: nat, now: Time, cfg: Config): Db {
    if Renewable(db, id, attempt) then WithRun(db, id, db.runs[id].(leaseExpiresAt := Some(now + cfg.leaseMs))) else db
  }

  function CompletedRun(db: Db, id: Id, now: Time): Db {
    if id !in db.runs then db
    else WithRun(db, id, db.runs[id].(status := Completed, completedAt := Some(now), leaseExpiresAt := None))
  }

  /** `None` where the program throws because the run is not running. */
  function Waiting(db: Db, id: Id): Option<Db> {
    if id !in db.runs || db.runs[id].status != Running then None
    else Some(WithRun(db, id, db.runs[id].(status := WaitingForInput, claimedAt := None, leaseExpiresAt := None)))
  }

  function CancelledMessage(m: Message): Message {
    if m.status == Pending || m.status == Streaming then m.(status := MessageCancelled) else m
  }

  function CancelledRun(db: Db, id: Id, now: Time): Db {
    if id !in db.runs then db
    else
      var run := db.runs[id];
      WithRun(db, id, run.(status := Cancelled, completedAt := Some(now), leaseExpiresAt := None))
      .(messages := WithCancelled(db.messages, run.assistantMessageId))
  }

  function WithCancelled(messages: map<Id, Message>, m: Id): map<Id, Message> {
    if m in messages then messages[m := CancelledMessage(messages[m])] else messages
  }

  function FailedHandoff(h: Handoff): Handoff {
    if h.status == HandoffCompleted || h.status == HandoffFailed then h else h.(status := HandoffFailed)
  }

  function FailedRun(db: Db, id: Id, code: string, now: Time): Db {
    if id !in db.runs then db
    else
      WithRun(db, id, db.runs[id].(status := Failed, errorCode := Some(code), completedAt := Some(now), leaseExpiresAt := None))
      .(handoffs := WithFailed(db.handoffs, id))
  }

  function WithFailed(handoffs: map<Id, Handoff>, runId: Id): map<Id, Handoff> {
    map h | h in handoffs :: if handoffs[h].runId == runId then FailedHandoff(handoffs[h]) else handoffs[h]
  }

  // ---------------------------------------------------------------- what connector events write

  datatype ConnectorEvent =
    | MessageStarted
    | MessageFinished(parts: string)
    | HandoffRequested(handoffId: Id)
    | ContactRequested(requestId: Id)
    | HandoffFinished(handoffId: Id)
    | RunCompleted
    | RunFailed(code: string)
    | Other

  /** `None` where the program throws; the transaction then leaves no trace. */
  function Materialized(db: Db, id: Id, event: ConnectorEvent, now: Time): Option<Db> {
    if event.RunCompleted? || event.RunFailed? || event.Other? then Some(db)
    else if id !in db.runs then None
    else match event
      case MessageStarted => Started(db, id)
      case MessageFinished(parts) => Finished(db, id, parts)
      case HandoffRequested(handoffId) => AskedForHandoff(db, id, handoffId)
      case ContactRequested(requestId) => AskedForContact(db, id, requestId, now)
      case HandoffFinished(handoffId) => FinishedHandoff(db, id, handoffId)
  }

  function Started(db: Db, id: Id): Option<Db>
    requires id in db.runs
  {
    var run := db.runs[id];
    if run.assistantMessageId in db.messages then Some(db)
    else if run.conversationId !in db.conversations then None
    else
      Some(db.(
        conversations := Bumped(db.conversations, run.conversationId),
        messages := db.messages[run.assistantMessageId := AnswerOf(run, db.conversations[run.conversationId])]))
  }

  function AnswerOf(run: Run, c: Conversation): Message {
    Message(run.conversationId, c.nextMessageSequence, Assistant, Streaming, "")
  }

  function Finished(db: Db, id: Id, parts: string): Option<Db>
    requires id in db.runs
  {
    var m := db.runs[id].assistantMessageId;
    if m !in db.messages then None
    else Some(db.(messages := db.messages[m := db.messages[m].(status := MessageCompleted, parts := parts)]))
  }

  predicate HasHandoff(db: Db, runId: Id) { exists h <- db.handoffs :: db.handoffs[h].runId == runId }

  /** A second handoff of one run breaks the unique constraint on its run. */
  function AskedForHandoff(db: Db, id: Id, handoffId: Id): Option<Db>
    requires id in db.runs
  {
    if handoffId in db.handoffs then
      if db.handoffs[handoffId].runId == id then Some(db) else None
    else if HasHandoff(db, id) then None
    else Some(db.(handoffs := db.handoffs[handoffId := Handoff(db.runs[id].conversationId, id, Human, Requested)]))
  }

  function AskedForContact(db: Db, id: Id, requestId: Id, now: Time): Option<Db>
    requires id in db.runs
  {
    if !HasHandoff(db, id) || (requestId in db.inputs && db.inputs[requestId].runId != id) then None
    else
      Some(db.(
        inputs := if requestId in db.inputs then db.inputs
                  else db.inputs[requestId := Input(db.runs[id].conversationId, id, InputPending, None, None, None, now)],
        handoffs := SetHandoffs(db.handoffs, id, AwaitingContact)))
  }

  function SetHandoffs(handoffs: map<Id, Handoff>, runId: Id, status: HandoffStatus): map<Id, Handoff> {
    map h | h in handoffs :: if handoffs[h].runId == runId then handoffs[h].(status := status) else handoffs[h]
  }

  function FinishedHandoff(db: Db, id: Id, handoffId: Id): Option<Db>
    requires id in db.runs
  {
    if handoffId !in db.handoffs || db.handoffs[handoffId].runId != id then None
    else Some(db.(handoffs := db.handoffs[handoffId := db.handoffs[handoffId].(status := HandoffCompleted)]))
  }

  // ---------------------------------------------------------------- commands

  datatype ApiError =
    | ConversationNotFound | RunNotFound | InputNotFound | InputAlreadyResolved
    | IdempotencyConflict | EmptyConversation | InvalidRequest | DuplicateKey

  datatype CancelStatus = RequestedCancel | AlreadyCancelled | AlreadyFinished

  datatype Reply = Resource(id: Id) | CancelOutcome(runId: Id, status: CancelStatus) | Refused(error: ApiError)

  datatype Tx = Tx(db: Db, reply: Reply)

  /** `picked` is the row that the query's ORDER BY puts first. */
  datatype Command =
    | CreateConversation(scope: Scope, key: string, agentRef: string, id: Id)
    | SubmitMessage(scope: Scope, key: string, conversationId: Id, parts: string, now: Time,
                    messageId: Id, runId: Id, assistantMessageId: Id)
    | CancelRun(scope: Scope, key: string, conversationId: Id, now: Time, picked: Id)
    | SubmitInput(scope: Scope, key: string, conversationId: Id, requestId: Id, answer: Option<string>, now: Time)
    | CreateEmailHandoff(scope: Scope, key: string, conversationId: Id, email: string, now: Time, picked: Id,
                         runId: Id, handoffId: Id, assistantMessageId: Id)

  function OperationOf(cmd: Command): Operation {
    match cmd
    case CreateConversation(_, _, _, _) => CreateConversationOp
    case SubmitMessage(_, _, c, _, _, _, _, _) => CreateMessageOp(c)
    case CancelRun(_, _, c, _, _) => CancelRunOp(c)
    case SubmitInput(_, _, c, r, _, _) => SubmitInputOp(c, r)
    case CreateEmailHandoff(_, _, c, _, _, _, _, _, _) => CreateEmailHandoffOp(c)
  }

  function KeyOf(cmd: Command): CommandKey { CommandKey(cmd.scope, OperationOf(cmd), cmd.key) }

  function RequestOf(cmd: Command): Request {
    match cmd
    case CreateConversation(_, _, _, _) => NoBody
    case SubmitMessage(_, _, _, parts, _, _, _, _) => Parts(parts)
    case CancelRun(_, _, _, _, _) => NoBody
    case SubmitInput(_, _, _, _, answer, _) => Answer(answer)
    case CreateEmailHandoff(_, _, _, email, _, _, _, _, _) => Email(email)
  }

  /** Lock, look the key up, and only when it is new perform the effect and record it. */
  function Execute(db: Db, cmd: Command): Tx {
    if KeyOf(cmd) in db.keys then Tx(db, Repeated(db.keys[KeyOf(cmd)], cmd)) else Effect(db, cmd)
  }

  /** The reply to a key that was used before. A cancellation does not compare requests. */
  function Repeated(row: KeyRow, cmd: Command): Reply {
    if cmd.CancelRun? then
      match DecodeOutcome(row.resourceId)
      case Some(outcome) => outcome
      case None => Refused(InvalidRequest)
    else if row.request != RequestOf(cmd) then Refused(IdempotencyConflict)
    else Resource(Id(row.resourceId))
  }

  function Effect(db: Db, cmd: Command): Tx {
    match cmd
    case CreateConversation(_, _, agentRef, id) => ConversationCreated(db, cmd)
    case SubmitMessage(_, _, _, _, _, _, _, _) => MessageSubmitted(db, cmd)
    case CancelRun(_, _, _, _, _) => CancelAsked(db, cmd)
    case SubmitInput(_, _, _, _, _, _) => InputSubmitted(db, cmd)
    case CreateEmailHandoff(_, _, _, _, _, _, _, _, _) => EmailHandoffCreated(db, cmd)
  }

  predicate Owns(db: Db, scope: Scope, conversationId: Id) {
    conversationId in db.conversations && db.conversations[conversationId].scope == scope
  }

  /** Success: the key is recorded with the resource in the same transaction. */
  function Recorded(db: Db, cmd: Command, resourceId: string): Db {
    db.(keys := db.keys[KeyOf(cmd) := KeyRow(RequestOf(cmd), resourceId)])
  }

  function ConversationCreated(db: Db, cmd: Command): Tx
    requires cmd.CreateConversation?
  {
    if cmd.id in db.issued then Tx(db, Refused(DuplicateKey))
    else
      var created := db.(conversations := db.conversations[cmd.id := Conversation(cmd.scope, cmd.agentRef, 1)],
                         issued := db.issued + {cmd.id});
      Tx(Recorded(created, cmd, cmd.id.text), Resource(cmd.id))
  }

  function NewRun(conversationId: Id, triggerMessageId: Id, trigger: Trigger, assistantMessageId: Id, now: Time): Run {
    Run(conversationId, triggerMessageId, trigger, assistantMessageId, Queued, 0, now, now, None, None, None, None)
  }

  predicate FreshIds(db: Db, a: Id, b: Id, c: Id) {
    a !in db.issued && b !in db.issued && c !in db.issued && a != b && a != c && b != c
  }

  function MessageSubmitted(db: Db, cmd: Command): Tx
    requires cmd.SubmitMessage?
  {
    if !Owns(db, cmd.scope, cmd.conversationId) then Tx(db, Refused(ConversationNotFound))
    else if !FreshIds(db, cmd.messageId, cmd.runId, cmd.assistantMessageId) then Tx(db, Refused(DuplicateKey))
    else
      var sequence := db.conversations[cmd.conversationId].nextMessageSequence;
      var submitted := db.(
        conversations := Bumped(db.conversations, cmd.conversationId),
        messages := db.messages[cmd.messageId := Message(cmd.conversationId, sequence, User, MessageCompleted, cmd.parts)],
        runs := db.runs[cmd.runId :=
          NewRun(cmd.conversationId, cmd.messageId, MessageTrigger, cmd.assistantMessageId, cmd.now)],
        issued := db.issued + {cmd.messageId, cmd.runId, cmd.assistantMessageId});
      Tx(Recorded(submitted, cmd, cmd.messageId.text), Resource(cmd.messageId))
  }

  predicate IsLatestRun(db: Db, conversationId: Id, picked: Id) {
    && picked in db.runs && db.runs[picked].conversationId == conversationId
    && forall r <- db.runs :: db.runs[r].conversationId == conversationId ==> db.runs[r].createdAt <= db.runs[picked].createdAt
  }

  function OutcomeFor(status: RunStatus): CancelStatus {
    match status
    case Queued => AlreadyCancelled
    case Running | CancelRequested => RequestedCancel
    case _ => AlreadyFinished
  }

  function CancelledByUser(run: Run, now: Time): Run {
    match run.status
    case Queued => run.(status := Cancelled, completedAt := Some(now))
    case Running => run.(status := CancelRequested)
    case _ => run
  }

  function CancelAsked(db: Db, cmd: Command): Tx
    requires cmd.CancelRun?
  {
    if !Owns(db, cmd.scope, cmd.conversationId) then Tx(db, Refused(ConversationNotFound))
    else if !IsLatestRun(db, cmd.conversationId, cmd.picked) then Tx(db, Refused(RunNotFound))
    else
      var status := OutcomeFor(db.runs[cmd.picked].status);
      Tx(Recorded(WithRun(db, cmd.picked, CancelledByUser(db.runs[cmd.picked], cmd.now)), cmd, EncodeOutcome(cmd.picked, status)),
         CancelOutcome(cmd.picked, status))
  }

  function InputSubmitted(db: Db, cmd: Command): Tx
    requires cmd.SubmitInput?
  {
    if cmd.answer == Some("") then Tx(db, Refused(InvalidRequest))
    else if !Owns(db, cmd.scope, cmd.conversationId) then Tx(db, Refused(ConversationNotFound))
    else if cmd.requestId !in db.inputs || db.inputs[cmd.requestId].conversationId != cmd.conversationId
      then Tx(db, Refused(InputNotFound))
    else
      var input := db.inputs[cmd.requestId];
      if input.status != InputPending || input.runId !in db.runs || db.runs[input.runId].status != WaitingForInput
      then Tx(db, Refused(InputAlreadyResolved))
      else
        var resolved := db.(
          inputs := db.inputs[cmd.requestId := Answered(input, cmd.answer, cmd.now)],
          runs := db.runs[input.runId := Resumed(db.runs[input.runId], cmd.now)],
          handoffs := if cmd.answer.Some? then SetHandoffs(db.handoffs, input.runId, Delivering) else db.handoffs);
        Tx(Recorded(resolved, cmd, cmd.requestId.text), Resource(cmd.requestId))
  }

  function Resumed(run: Run, now: Time): Run {
    run.(status := Queued, availableAt := now, claimedAt := None, leaseExpiresAt := None, errorCode := None, completedAt := None)
  }

  function Answered(input: Input, answer: Option<string>, now: Time): Input {
    match answer
    case Some(_) => input.(status := Submitted, value := answer, consent := Some(Granted), consentRecordedAt := Some(now), updatedAt := now)
    case None => input.(status := Declined, value := None, consent := Some(Withheld), consentRecordedAt := Some(now), updatedAt := now)
  }

  predicate IsLatestUserMessage(db: Db, conversationId: Id, picked: Id) {
    && picked in db.messages && IsTrigger(db.messages[picked], conversationId)
    && forall m <- db.messages :: IsTrigger(db.messages[m], conversationId) ==> db.messages[m].sequence <= db.messages[picked].sequence
  }

  predicate IsTrigger(m: Message, conversationId: Id) {
    m.conversationId == conversationId && m.role == User && m.status == MessageCompleted
  }

  function EmailHandoffCreated(db: Db, cmd: Command): Tx
    requires cmd.CreateEmailHandoff?
  {
    if cmd.email == "" then Tx(db, Refused(InvalidRequest))
    else if !Owns(db, cmd.scope, cmd.conversationId) then Tx(db, Refused(ConversationNotFound))
    else if !IsLatestUserMessage(db, cmd.conversationId, cmd.picked) then Tx(db, Refused(EmptyConversation))
    else if !FreshIds(db, cmd.runId, cmd.handoffId, cmd.assistantMessageId)
      || cmd.handoffId in db.handoffs || cmd.handoffId in db.inputs then Tx(db, Refused(DuplicateKey))
    else
      var created := db.(
        runs := db.runs[cmd.runId :=
          NewRun(cmd.conversationId, cmd.picked, EmailHandoffTrigger, cmd.assistantMessageId, cmd.now)],
        handoffs := db.handoffs[cmd.handoffId := Handoff(cmd.conversationId, cmd.runId, AgentEmail, Delivering)],
        inputs := db.inputs[cmd.handoffId :=
          Input(cmd.conversationId, cmd.runId, Submitted, Some(cmd.email), Some(Granted), Some(cmd.now), cmd.now)],
        issued := db.issued + {cmd.runId, cmd.handoffId, cmd.assistantMessageId});
      Tx(Recorded(created, cmd, cmd.handoffId.text), Resource(cmd.handoffId))
  }

  // ---------------------------------------------------------------- the stored cancellation outcome

  function StatusText(status: CancelStatus): string {
    match status
    case RequestedCancel => "cancel_requested"
    case AlreadyCancelled => "cancelled"
    case AlreadyFinished => "already_finished"
  }

  function EncodeOutcome(runId: Id, status: CancelStatus): string { runId.text + "|" + StatusText(status) }

  /** The last index of `c` in `s`, or -1. */
  function LastIndexOf(s: string, c: char): (i: int)
    ensures -1 <= i < |s|
    ensures i < 0 ==> c !in s
    ensures i >= 0 ==> s[i] == c && forall k :: i < k < |s| ==> s[k] != c
  {
    if s == "" then -1 else if s[|s| - 1] == c then |s| - 1 else LastIndexOf(s[..|s| - 1], c)
  }

  function DecodeOutcome(resourceId: string): Option<Reply> {
    var separator := LastIndexOf(resourceId, '|');
    var runId := if separator < 0 then resourceId[..if |resourceId| == 0 then 0 else |resourceId| - 1] else resourceId[..separator];
    var text := resourceId[separator + 1..];
    if runId == "" then None
    else if text == StatusText(RequestedCancel) then Some(CancelOutcome(Id(runId), RequestedCancel))
    else if text == StatusText(AlreadyCancelled) then Some(CancelOutcome(Id(runId), AlreadyCancelled))
    else if text == StatusText(AlreadyFinished) then Some(CancelOutcome(Id(runId), AlreadyFinished))
    else None
  }

  lemma StatusTexts(status: CancelStatus)
    ensures '|' !in StatusText(status)
    ensures StatusText(RequestedCancel) != StatusText(AlreadyCancelled)
    ensures StatusText(RequestedCancel) != StatusText(AlreadyFinished)
    ensures StatusText(AlreadyCancelled) != StatusText(AlreadyFinished)
  {
    assert |StatusText(RequestedCancel)| == 16 && |StatusText(AlreadyCancelled)| == 9 && |StatusText(AlreadyFinished)| == 16;
    assert StatusText(RequestedCancel)[0] == 'c' && StatusText(AlreadyFinished)[0] == 'a';
  }

  lemma {:induction false} LastSeparator(before: string, after: string)
    requires '|' !in after
    ensures LastIndexOf(before + "|" + after, '|') == |before|
    decreases |after|
  {
    var s := before + "|" + after;
    if after == "" {
      assert s[|s| - 1] == '|';
    } else {
      var shorter := after[..|after| - 1];
      assert s[..|s| - 1] == before + "|" + shorter;
      assert s[|s| - 1] == after[|after| - 1];
      LastSeparator(before, shorter);
    }
  }

  /** The stored outcome reads back, whatever characters the run's identifier has. */
  lemma OutcomeRoundTrip(runId: Id, status: CancelStatus)
    requires runId.text != ""
    ensures DecodeOutcome(EncodeOutcome(runId, status)) == Some(CancelOutcome(runId, status))
  {
    StatusTexts(status);
    LastSeparator(runId.text, StatusText(status));
    var s := EncodeOutcome(runId, status);
    assert s[..|runId.text|] == runId.text && s[|runId.text| + 1..] == StatusText(status);
  }

  // ---------------------------------------------------------------- retention

  /** Redaction of contact values: what was submitted expires. */
  function Redacted(db: Db, cutoff: Time): Db {
    db.(inputs := map i | i in db.inputs ::
      if db.inputs[i].value.Some? && db.inputs[i].updatedAt < cutoff
      then db.inputs[i].(value := None, status := Expired) else db.inputs[i])
  }

  function DeletedConversation(db: Db, c: Id): Db {
    db.(inputs := map i | i in db.inputs && db.inputs[i].conversationId != c :: db.inputs[i],
        handoffs := map h | h in db.handoffs && db.handoffs[h].conversationId != c :: db.handoffs[h],
        runs := map r | r in db.runs && db.runs[r].conversationId != c :: db.runs[r],
        messages := map m | m in db.messages && db.messages[m].conversationId != c :: db.messages[m],
        conversations := db.conversations - {c})
  }
}
