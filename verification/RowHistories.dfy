/** What each step does to each row, in full: the row it makes, the row it leaves, or no row. The
    conditions are those a caller could check before the step. */
module RowHistories {
  import opened Wrappers
  import opened ChatDatabase
  import opened RunLifecycle
  import opened ChatIntegrity
  import opened ChatInvariants

  // ---------------------------------------------------------------- which commands are accepted

  predicate IsNewKey(db: Db, c: Command) { KeyOf(c) !in db.keys }

  predicate Creates(db: Db, c: Command) { c.CreateConversation? && IsNewKey(db, c) && c.id !in db.issued }

  predicate Submits(db: Db, c: Command) {
    c.SubmitMessage? && IsNewKey(db, c) && Owns(db, c.scope, c.conversationId) && FreshIds(db, c.messageId, c.runId, c.assistantMessageId)
  }

  predicate Cancels(db: Db, c: Command) {
    c.CancelRun? && IsNewKey(db, c) && Owns(db, c.scope, c.conversationId) && IsLatestRun(db, c.conversationId, c.picked)
  }

  /** The input is open, and so is the run that waits for it. */
  predicate IsOpen(db: Db, conversationId: Id, i: Id) {
    && i in db.inputs && db.inputs[i].conversationId == conversationId && db.inputs[i].status == InputPending
    && db.inputs[i].runId in db.runs && db.runs[db.inputs[i].runId].status == WaitingForInput
  }

  predicate Answers(db: Db, c: Command) {
    && c.SubmitInput? && IsNewKey(db, c) && c.answer != Some("") && Owns(db, c.scope, c.conversationId)
    && IsOpen(db, c.conversationId, c.requestId)
  }

  predicate HandsOver(db: Db, c: Command) {
    && c.CreateEmailHandoff? && IsNewKey(db, c) && c.email != "" && Owns(db, c.scope, c.conversationId)
    && IsLatestUserMessage(db, c.conversationId, c.picked) && FreshIds(db, c.runId, c.handoffId, c.assistantMessageId)
    && c.handoffId !in db.handoffs && c.handoffId !in db.inputs
  }

  predicate Accepts(db: Db, c: Command) {
    Creates(db, c) || Submits(db, c) || Cancels(db, c) || Answers(db, c) || HandsOver(db, c)
  }

  /** What an accepted command is answered with. */
  function AnswerTo(db: Db, c: Command): Reply {
    match c
    case CreateConversation(_, _, _, id) => Resource(id)
    case SubmitMessage(_, _, _, _, _, messageId, _, _) => Resource(messageId)
    case CancelRun(_, _, _, _, picked) =>
      CancelOutcome(picked,
        if picked !in db.runs then AlreadyFinished
        else match db.runs[picked].status
             case Queued => AlreadyCancelled
             case Running => RequestedCancel
             case CancelRequested => RequestedCancel
             case _ => AlreadyFinished)
    case SubmitInput(_, _, _, requestId, _, _) => Resource(requestId)
    case CreateEmailHandoff(_, _, _, _, _, _, _, handoffId, _) => Resource(handoffId)
  }

  /** Why a command with a new key is refused; the checks come in this order. */
  function ErrorOf(db: Db, c: Command): ApiError {
    if c.CreateConversation? then DuplicateKey
    else if (c.SubmitInput? && c.answer == Some("")) || (c.CreateEmailHandoff? && c.email == "") then InvalidRequest
    else if !Owns(db, c.scope, c.conversationId) then ConversationNotFound
    else match c
      case CancelRun(_, _, _, _, _) => RunNotFound
      case SubmitInput(_, _, conversationId, requestId, _, _) =>
        if requestId in db.inputs && db.inputs[requestId].conversationId == conversationId then InputAlreadyResolved else InputNotFound
      case CreateEmailHandoff(_, _, conversationId, _, _, picked, _, _, _) =>
        if IsLatestUserMessage(db, conversationId, picked) then DuplicateKey else EmptyConversation
      case _ => DuplicateKey
  }

  /** A command with a new key is accepted exactly under these conditions, and otherwise changes nothing. */
  lemma AcceptedIff(db: Db, c: Command)
    requires IsNewKey(db, c)
    ensures Execute(db, c).reply == if Accepts(db, c) then AnswerTo(db, c) else Refused(ErrorOf(db, c))
    ensures !Accepts(db, c) ==> Execute(db, c).db == db
  {
    assert Execute(db, c) == Effect(db, c);
    match c
    case CreateConversation(_, _, _, _) =>
    case SubmitMessage(_, _, _, _, _, _, _, _) =>
    case CancelRun(_, _, _, _, _) =>
    case SubmitInput(_, _, _, _, _, _) =>
    case CreateEmailHandoff(_, _, _, _, _, _, _, _, _) =>
  }

  /** Nobody reaches a conversation that is not theirs. */
  lemma NotOwnedIsRefused(db: Db, c: Command)
    requires !c.CreateConversation? && IsNewKey(db, c)
    requires c.conversationId in db.conversations ==> db.conversations[c.conversationId].scope != c.scope
    ensures Execute(db, c).db == db && Execute(db, c).reply in {Refused(ConversationNotFound), Refused(InvalidRequest)}
  {
    AcceptedIff(db, c);
    hide Execute;
  }

  /** Which rows the commands without an address of their own work on: the newest run, and the last user message that
      can start one. */
  lemma PickedIsNewest(db: Db, c: Command)
    ensures Cancels(db, c) ==>
      && c.picked in db.runs && db.runs[c.picked].conversationId == c.conversationId
      && forall r <- db.runs :: db.runs[r].conversationId == c.conversationId ==> db.runs[r].createdAt <= db.runs[c.picked].createdAt
    ensures HandsOver(db, c) ==>
      && c.picked in db.messages && db.messages[c.picked].conversationId == c.conversationId
      && db.messages[c.picked].role == User && db.messages[c.picked].status == MessageCompleted
      && forall m <- db.messages ::
           db.messages[m].conversationId == c.conversationId && db.messages[m].role == User && db.messages[m].status == MessageCompleted
           ==> db.messages[m].sequence <= db.messages[c.picked].sequence
  {}

  /** Keys are scoped to the caller, to the kind of command and to what it addresses. */
  lemma SameKeyIff(a: Command, b: Command)
    ensures KeyOf(a) == KeyOf(b) <==>
      && a.scope == b.scope && a.key == b.key
      && match a
         case CreateConversation(_, _, _, _) => b.CreateConversation?
         case SubmitMessage(_, _, c, _, _, _, _, _) => b.SubmitMessage? && b.conversationId == c
         case CancelRun(_, _, c, _, _) => b.CancelRun? && b.conversationId == c
         case SubmitInput(_, _, c, i, _, _) => b.SubmitInput? && b.conversationId == c && b.requestId == i
         case CreateEmailHandoff(_, _, c, _, _, _, _, _, _) => b.CreateEmailHandoff? && b.conversationId == c
  {}

  /** A repeat asks for the same exactly if it says the same. */
  lemma SameRequestIff(a: Command, b: Command)
    requires KeyOf(a) == KeyOf(b)
    ensures RequestOf(a) == RequestOf(b) <==>
      match a
      case SubmitMessage(_, _, _, parts, _, _, _, _) => b.parts == parts
      case SubmitInput(_, _, _, _, answer, _) => b.answer == answer
      case CreateEmailHandoff(_, _, _, email, _, _, _, _, _) => b.email == email
      case _ => true
  {
    SameKeyIff(a, b);
  }

  /** A worker's write fails exactly when the rows it needs are not there or belong to another run, and its
      pause exactly when its run is not running. */
  lemma WriteFailsIff(db: Db, run: Id, event: ConnectorEvent, now: Time)
    ensures Materialized(db, run, event, now).None? <==>
      match event
      case MessageStarted =>
        run !in db.runs || (db.runs[run].assistantMessageId !in db.messages && db.runs[run].conversationId !in db.conversations)
      case MessageFinished(_) => run !in db.runs || db.runs[run].assistantMessageId !in db.messages
      case HandoffRequested(h) =>
        run !in db.runs || (if h in db.handoffs then db.handoffs[h].runId != run else HasHandoff(db, run))
      case ContactRequested(i) => run !in db.runs || !HasHandoff(db, run) || (i in db.inputs && db.inputs[i].runId != run)
      case HandoffFinished(h) => run !in db.runs || h !in db.handoffs || db.handoffs[h].runId != run
      case _ => false
    ensures Waiting(db, run).None? <==> run !in db.runs || db.runs[run].status != Running
  {}

  // ---------------------------------------------------------------- messages

  /** The worker reports the answer's text. */
  predicate Finishes(db: Db, step: Step, m: Id) {
    step.Materialize? && step.event.MessageFinished? && step.run in db.runs && db.runs[step.run].assistantMessageId == m
  }

  predicate Starts(db: Db, step: Step, m: Id) {
    && step.Materialize? && step.event.MessageStarted? && step.run in db.runs && db.runs[step.run].assistantMessageId == m
    && m !in db.messages && db.runs[step.run].conversationId in db.conversations
  }

  predicate CutsOff(db: Db, step: Step, m: Id) {
    && step.WorkerCancel? && step.run in db.runs && db.runs[step.run].assistantMessageId == m
    && m in db.messages && db.messages[m].status in {Pending, Streaming}
  }

  function MessageMade(db: Db, step: Step, m: Id): Option<Message> {
    if Starts(db, step, m) then
      var c := db.runs[step.run].conversationId;
      Some(Message(c, db.conversations[c].nextMessageSequence, Assistant, Streaming, ""))
    else if step.Do? && Submits(db, step.command) && step.command.messageId == m then
      var c := step.command.conversationId;
      Some(Message(c, db.conversations[c].nextMessageSequence, User, MessageCompleted, step.command.parts))
    else None
  }

  function MessageLeft(db: Db, step: Step, m: Id): Option<Message>
    requires m in db.messages
  {
    var row := db.messages[m];
    if step == DeleteConversation(row.conversationId) then None
    else if Finishes(db, step, m) then Some(row.(status := MessageCompleted, parts := step.event.parts))
    else if CutsOff(db, step, m) then Some(row.(status := MessageCancelled))
    else Some(row)
  }

  function MessageNext(db: Db, step: Step, m: Id): Option<Message> {
    if m in db.messages then MessageLeft(db, step, m) else MessageMade(db, step, m)
  }

  predicate RowIs<T(==)>(rows: map<Id, T>, id: Id, row: Option<T>) {
    match row
    case None => id !in rows
    case Some(value) => id in rows && rows[id] == value
  }

  lemma MessageAfterMessageStarted(db: Db, step: Step, m: Id)
    requires step.Materialize? && step.event.MessageStarted?
    ensures RowIs(OrSame(Materialized(db, step.run, step.event, step.now), db).messages, m, MessageNext(db, step, m))
  {
    if step.run in db.runs {
      assert Materialized(db, step.run, step.event, step.now) == Started(db, step.run);
      hide Materialized;
    }
  }

  lemma MessageAfterMessageFinished(db: Db, step: Step, m: Id)
    requires step.Materialize? && step.event.MessageFinished?
    ensures RowIs(OrSame(Materialized(db, step.run, step.event, step.now), db).messages, m, MessageNext(db, step, m))
  {
    if step.run in db.runs {
      assert Materialized(db, step.run, step.event, step.now) == Finished(db, step.run, step.event.parts);
      hide Materialized;
    }
  }

  lemma MessageAfterOthers(db: Db, step: Step, m: Id)
    requires step.Materialize? && !step.event.MessageStarted? && !step.event.MessageFinished?
    ensures RowIs(OrSame(Materialized(db, step.run, step.event, step.now), db).messages, m, MessageNext(db, step, m))
  {}

  lemma MessageAfterEvent(db: Db, step: Step, cfg: Config, m: Id)
    requires step.Materialize?
    ensures RowIs(Apply(db, step, cfg).messages, m, MessageNext(db, step, m))
  {
    hide RowIs, MessageNext, Materialized;
    match step.event
    case MessageStarted => MessageAfterMessageStarted(db, step, m);
    case MessageFinished(_) => MessageAfterMessageFinished(db, step, m);
    case _ => MessageAfterOthers(db, step, m);
  }

  lemma CommandsLeaveMessages(db: Db, c: Command)
    requires !c.SubmitMessage?
    ensures Execute(db, c).db.messages == db.messages
  {
    match c
    case CreateConversation(_, _, _, _) =>
    case CancelRun(_, _, _, _, _) =>
    case SubmitInput(_, _, _, _, _, _) =>
    case CreateEmailHandoff(_, _, _, _, _, _, _, _, _) =>
  }

  lemma MessageAfterSubmit(db: Db, c: Command, cfg: Config, m: Id)
    requires Issued(db) && c.SubmitMessage?
    ensures RowIs(Execute(db, c).db.messages, m, MessageNext(db, Do(c), m))
  {
    if IsNewKey(db, c) {
      assert Execute(db, c) == MessageSubmitted(db, c);
    }
  }

  /** Every message after every step. */
  lemma MessageAfterStep(db: Db, step: Step, cfg: Config, m: Id)
    requires Issued(db)
    ensures RowIs(Apply(db, step, cfg).messages, m, MessageNext(db, step, m))
  {
    match step
    case Materialize(_, _, _) => MessageAfterEvent(db, step, cfg, m);
    case Do(command) =>
      if command.SubmitMessage? {
        MessageAfterSubmit(db, command, cfg, m);
      } else {
        CommandsLeaveMessages(db, command);
      }
    case DeleteConversation(_) =>
    case WorkerCancel(_, _) =>
    case Fail(_, _, _) =>
    case Redact(_) =>
    case ForgetKeys(_) =>
    case _ => LeasesLeaveRest(db, step, cfg);
  }

  lemma LeasesLeaveRest(db: Db, step: Step, cfg: Config)
    requires step.Claim? || step.Renew? || step.WaitForInput? || step.Complete?
    ensures var next := Apply(db, step, cfg);
      next == db.(runs := next.runs)
  {}

  // ---------------------------------------------------------------- runs

  function RunMade(db: Db, step: Step, r: Id): Option<Run> {
    if !step.Do? then None
    else if Submits(db, step.command) && step.command.runId == r then
      var c := step.command;
      Some(Run(c.conversationId, c.messageId, MessageTrigger, c.assistantMessageId, Queued, 0, c.now, c.now, None, None, None, None))
    else if HandsOver(db, step.command) && step.command.runId == r then
      var c := step.command;
      Some(Run(c.conversationId, c.picked, EmailHandoffTrigger, c.assistantMessageId, Queued, 0, c.now, c.now, None, None, None, None))
    else None
  }

  function RunLeft(db: Db, step: Step, cfg: Config, r: Id): Option<Run>
    requires r in db.runs
  {
    var row := db.runs[r];
    match step
    case Claim(run, now) =>
      if run == r && row.availableAt <= now && row.attempt < cfg.maxAttempts
        && (row.status == Queued || (row.status == Running && row.leaseExpiresAt.Some? && row.leaseExpiresAt.value <= now))
      then Some(row.(status := Running, attempt := row.attempt + 1, claimedAt := Some(now), leaseExpiresAt := Some(now + cfg.leaseMs)))
      else Some(row)
    case Renew(run, attempt, now) =>
      if run == r && row.status == Running && row.attempt == attempt then Some(row.(leaseExpiresAt := Some(now + cfg.leaseMs))) else Some(row)
    case Complete(run, now) =>
      if run == r then Some(row.(status := Completed, completedAt := Some(now), leaseExpiresAt := None)) else Some(row)
    case WaitForInput(run) =>
      if run == r && row.status == Running then Some(row.(status := WaitingForInput, claimedAt := None, leaseExpiresAt := None)) else Some(row)
    case WorkerCancel(run, now) =>
      if run == r then Some(row.(status := Cancelled, completedAt := Some(now), leaseExpiresAt := None)) else Some(row)
    case Fail(run, code, now) =>
      if run == r then Some(row.(status := Failed, errorCode := Some(code), completedAt := Some(now), leaseExpiresAt := None)) else Some(row)
    case DeleteConversation(c) => if c == row.conversationId then None else Some(row)
    case Do(command) => Some(RunCommanded(db, command, r))
    case _ => Some(row)
  }

  function RunCommanded(db: Db, c: Command, r: Id): Run
    requires r in db.runs
  {
    var row := db.runs[r];
    if Cancels(db, c) && c.picked == r then
      if row.status == Queued then row.(status := Cancelled, completedAt := Some(c.now))
      else if row.status == Running then row.(status := CancelRequested)
      else row
    else if Answers(db, c) && db.inputs[c.requestId].runId == r then
      row.(status := Queued, availableAt := c.now, claimedAt := None, leaseExpiresAt := None, errorCode := None, completedAt := None)
    else row
  }

  function RunNext(db: Db, step: Step, cfg: Config, r: Id): Option<Run> {
    if r in db.runs then RunLeft(db, step, cfg, r) else RunMade(db, step, r)
  }

  lemma RunAfterSubmit(db: Db, c: Command, cfg: Config, r: Id)
    requires Issued(db) && c.SubmitMessage? && IsNewKey(db, c)
    ensures RowIs(Execute(db, c).db.runs, r, RunNext(db, Do(c), cfg, r))
  {
    assert Execute(db, c) == MessageSubmitted(db, c);
    hide Execute;
  }

  lemma RunAfterCancel(db: Db, c: Command, cfg: Config, r: Id)
    requires c.CancelRun? && IsNewKey(db, c)
    ensures RowIs(Execute(db, c).db.runs, r, RunNext(db, Do(c), cfg, r))
  {
    assert Execute(db, c) == CancelAsked(db, c);
    hide Execute;
  }

  lemma RunAfterAnswer(db: Db, c: Command, cfg: Config, r: Id)
    requires c.SubmitInput? && IsNewKey(db, c)
    ensures RowIs(Execute(db, c).db.runs, r, RunNext(db, Do(c), cfg, r))
  {
    assert Execute(db, c) == InputSubmitted(db, c);
    hide Execute;
  }

  lemma RunAfterEmail(db: Db, c: Command, cfg: Config, r: Id)
    requires Issued(db) && c.CreateEmailHandoff? && IsNewKey(db, c)
    ensures RowIs(Execute(db, c).db.runs, r, RunNext(db, Do(c), cfg, r))
  {
    assert Execute(db, c) == EmailHandoffCreated(db, c);
    hide Execute;
  }

  lemma RunOtherwise(db: Db, c: Command, cfg: Config, r: Id)
    requires c.CreateConversation? || !IsNewKey(db, c)
    ensures RowIs(Execute(db, c).db.runs, r, RunNext(db, Do(c), cfg, r))
  {}

  lemma RunAfterCommand(db: Db, c: Command, cfg: Config, r: Id)
    requires Issued(db)
    ensures RowIs(Execute(db, c).db.runs, r, RunNext(db, Do(c), cfg, r))
  {
    hide Execute, RunNext, RowIs;
    if !IsNewKey(db, c) {
      RunOtherwise(db, c, cfg, r);
    } else {
      match c
      case CreateConversation(_, _, _, _) => RunOtherwise(db, c, cfg, r);
      case SubmitMessage(_, _, _, _, _, _, _, _) => RunAfterSubmit(db, c, cfg, r);
      case CancelRun(_, _, _, _, _) => RunAfterCancel(db, c, cfg, r);
      case SubmitInput(_, _, _, _, _, _) => RunAfterAnswer(db, c, cfg, r);
      case CreateEmailHandoff(_, _, _, _, _, _, _, _, _) => RunAfterEmail(db, c, cfg, r);
    }
  }

  lemma RunAfterClaim(db: Db, step: Step, cfg: Config, r: Id)
    requires step.Claim?
    ensures RowIs(Apply(db, step, cfg).runs, r, RunNext(db, step, cfg, r))
  {
    assert Apply(db, step, cfg) == if Claims(db, step, cfg) then Claimed(db, step.run, step.now, cfg) else db;
    hide Apply;
  }

  lemma RunAfterRenew(db: Db, step: Step, cfg: Config, r: Id)
    requires step.Renew?
    ensures RowIs(Apply(db, step, cfg).runs, r, RunNext(db, step, cfg, r))
  {
    assert Apply(db, step, cfg) == Renewed(db, step.run, step.attempt, step.now, cfg);
    hide Apply;
  }

  lemma RunAfterWaitForInput(db: Db, step: Step, cfg: Config, r: Id)
    requires step.WaitForInput?
    ensures RowIs(Apply(db, step, cfg).runs, r, RunNext(db, step, cfg, r))
  {
    assert Apply(db, step, cfg) == OrSame(Waiting(db, step.run), db);
    hide Apply;
  }

  lemma RunAfterComplete(db: Db, step: Step, cfg: Config, r: Id)
    requires step.Complete?
    ensures RowIs(Apply(db, step, cfg).runs, r, RunNext(db, step, cfg, r))
  {
    assert Apply(db, step, cfg) == CompletedRun(db, step.run, step.now);
    hide Apply;
  }

  lemma RunAfterWorkerCancel(db: Db, step: Step, cfg: Config, r: Id)
    requires step.WorkerCancel?
    ensures RowIs(Apply(db, step, cfg).runs, r, RunNext(db, step, cfg, r))
  {
    assert Apply(db, step, cfg) == CancelledRun(db, step.run, step.now);
    hide Apply;
  }

  lemma RunAfterFail(db: Db, step: Step, cfg: Config, r: Id)
    requires step.Fail?
    ensures RowIs(Apply(db, step, cfg).runs, r, RunNext(db, step, cfg, r))
  {
    assert Apply(db, step, cfg) == FailedRun(db, step.run, step.code, step.now);
    hide Apply;
  }

  lemma RunAfterRetention(db: Db, step: Step, cfg: Config, r: Id)
    requires step.DeleteConversation? || step.Redact? || step.ForgetKeys?
    ensures RowIs(Apply(db, step, cfg).runs, r, RunNext(db, step, cfg, r))
  {}

  /** Every run after every step. */
  lemma RunAfterStep(db: Db, step: Step, cfg: Config, r: Id)
    requires Issued(db)
    ensures RowIs(Apply(db, step, cfg).runs, r, RunNext(db, step, cfg, r))
  {
    match step
    case Materialize(run, event, now) =>
      EventsLeaveRuns(db, run, event, now);
      hide Materialized;
    case Do(command) =>
      hide RowIs, Execute;
      RunAfterCommand(db, command, cfg, r);
    case _ =>
      hide RowIs, RunNext, Apply;
      match step
      case Claim(_, _) => RunAfterClaim(db, step, cfg, r);
      case Renew(_, _, _) => RunAfterRenew(db, step, cfg, r);
      case WaitForInput(_) => RunAfterWaitForInput(db, step, cfg, r);
      case Complete(_, _) => RunAfterComplete(db, step, cfg, r);
      case WorkerCancel(_, _) => RunAfterWorkerCancel(db, step, cfg, r);
      case Fail(_, _, _) => RunAfterFail(db, step, cfg, r);
      case _ => RunAfterRetention(db, step, cfg, r);
  }

  // ---------------------------------------------------------------- handoffs

  /** The worker asks for contact, under a request identifier that is new or its run's own. */
  predicate AsksContact(db: Db, step: Step, r: Id) {
    && step.Materialize? && step.run == r && step.event.ContactRequested? && r in db.runs
    && (step.event.requestId in db.inputs ==> db.inputs[step.event.requestId].runId == r)
  }

  function HandoffMade(db: Db, step: Step, h: Id): Option<Handoff> {
    if step.Materialize? && step.event == HandoffRequested(h) && step.run in db.runs && !HasHandoff(db, step.run) then
      Some(Handoff(db.runs[step.run].conversationId, step.run, Human, Requested))
    else if step.Do? && HandsOver(db, step.command) && step.command.handoffId == h then
      Some(Handoff(step.command.conversationId, step.command.runId, AgentEmail, Delivering))
    else None
  }

  function HandoffLeft(db: Db, step: Step, h: Id): Option<Handoff>
    requires h in db.handoffs
  {
    var row := db.handoffs[h];
    if step == DeleteConversation(row.conversationId) then None
    else if AsksContact(db, step, row.runId) then Some(row.(status := AwaitingContact))
    else if step.Materialize? && step.event == HandoffFinished(h) && step.run == row.runId && row.runId in db.runs then Some(row.(status := HandoffCompleted))
    else if step.Fail? && step.run == row.runId && row.runId in db.runs && row.status !in {HandoffCompleted, HandoffFailed} then Some(row.(status := HandoffFailed))
    else if step.Do? && Answers(db, step.command) && step.command.answer.Some? && db.inputs[step.command.requestId].runId == row.runId
      then Some(row.(status := Delivering))
    else Some(row)
  }

  function HandoffNext(db: Db, step: Step, h: Id): Option<Handoff> {
    if h in db.handoffs then HandoffLeft(db, step, h) else HandoffMade(db, step, h)
  }

  lemma HandoffAfterHandoffRequested(db: Db, step: Step, h: Id)
    requires step.Materialize? && step.event.HandoffRequested?
    ensures RowIs(OrSame(Materialized(db, step.run, step.event, step.now), db).handoffs, h, HandoffNext(db, step, h))
  {
    if step.run in db.runs {
      assert Materialized(db, step.run, step.event, step.now) == AskedForHandoff(db, step.run, step.event.handoffId);
      hide Materialized;
    }
  }

  lemma HandoffAfterContactRequested(db: Db, step: Step, h: Id)
    requires step.Materialize? && step.event.ContactRequested?
    ensures RowIs(OrSame(Materialized(db, step.run, step.event, step.now), db).handoffs, h, HandoffNext(db, step, h))
  {
    if h in db.handoffs { ContactFindsHandoff(db, step, h); }
    if step.run in db.runs {
      assert Materialized(db, step.run, step.event, step.now) == AskedForContact(db, step.run, step.event.requestId, step.now);
      hide Materialized;
    }
  }

  lemma HandoffAfterHandoffFinished(db: Db, step: Step, h: Id)
    requires step.Materialize? && step.event.HandoffFinished?
    ensures RowIs(OrSame(Materialized(db, step.run, step.event, step.now), db).handoffs, h, HandoffNext(db, step, h))
  {
    if step.run in db.runs {
      assert Materialized(db, step.run, step.event, step.now) == FinishedHandoff(db, step.run, step.event.handoffId);
      hide Materialized;
    }
  }

  lemma HandoffAfterOthers(db: Db, step: Step, h: Id)
    requires step.Materialize? && !step.event.HandoffRequested? && !step.event.ContactRequested? && !step.event.HandoffFinished?
    ensures RowIs(OrSame(Materialized(db, step.run, step.event, step.now), db).handoffs, h, HandoffNext(db, step, h))
  {}

  lemma HandoffAfterEvent(db: Db, step: Step, cfg: Config, h: Id)
    requires step.Materialize?
    ensures RowIs(Apply(db, step, cfg).handoffs, h, HandoffNext(db, step, h))
  {
    hide RowIs, HandoffNext, Materialized;
    match step.event
    case HandoffRequested(_) => HandoffAfterHandoffRequested(db, step, h);
    case ContactRequested(_) => HandoffAfterContactRequested(db, step, h);
    case HandoffFinished(_) => HandoffAfterHandoffFinished(db, step, h);
    case _ => HandoffAfterOthers(db, step, h);
  }

  lemma ContactFindsHandoff(db: Db, step: Step, h: Id)
    requires h in db.handoffs
    ensures HasHandoff(db, db.handoffs[h].runId)
  {}

  lemma HandoffAfterSubmitInput(db: Db, c: Command, h: Id)
    requires c.SubmitInput? && IsNewKey(db, c)
    ensures RowIs(Execute(db, c).db.handoffs, h, HandoffNext(db, Do(c), h))
  {
    assert Execute(db, c) == InputSubmitted(db, c);
    hide Execute;
  }

  lemma HandoffAfterCreateEmailHandoff(db: Db, c: Command, h: Id)
    requires c.CreateEmailHandoff? && IsNewKey(db, c)
    ensures RowIs(Execute(db, c).db.handoffs, h, HandoffNext(db, Do(c), h))
  {
    assert Execute(db, c) == EmailHandoffCreated(db, c);
    hide Execute;
  }

  lemma HandoffAfterOtherCommand(db: Db, c: Command, h: Id)
    requires !IsNewKey(db, c) || (!c.SubmitInput? && !c.CreateEmailHandoff?)
    ensures RowIs(Execute(db, c).db.handoffs, h, HandoffNext(db, Do(c), h))
  {}

  lemma HandoffAfterCommand(db: Db, c: Command, cfg: Config, h: Id)
    ensures RowIs(Execute(db, c).db.handoffs, h, HandoffNext(db, Do(c), h))
  {
    hide RowIs, HandoffNext, Execute;
    if !IsNewKey(db, c) {
      HandoffAfterOtherCommand(db, c, h);
    } else {
      match c
      case SubmitInput(_, _, _, _, _, _) => HandoffAfterSubmitInput(db, c, h);
      case CreateEmailHandoff(_, _, _, _, _, _, _, _, _) => HandoffAfterCreateEmailHandoff(db, c, h);
      case _ => HandoffAfterOtherCommand(db, c, h);
    }
  }

  /** Every handoff after every step. */
  lemma HandoffAfterStep(db: Db, step: Step, cfg: Config, h: Id)
    ensures RowIs(Apply(db, step, cfg).handoffs, h, HandoffNext(db, step, h))
  {
    match step
    case Materialize(_, _, _) => HandoffAfterEvent(db, step, cfg, h);
    case Do(command) => HandoffAfterCommand(db, command, cfg, h);
    case DeleteConversation(_) =>
    case WorkerCancel(_, _) =>
    case Fail(_, _, _) =>
    case Redact(_) =>
    case ForgetKeys(_) =>
    case _ => LeasesLeaveRest(db, step, cfg);
  }

  // ---------------------------------------------------------------- inputs

  function InputMade(db: Db, step: Step, i: Id): Option<Input> {
    if step.Materialize? && step.event == ContactRequested(i) && step.run in db.runs && HasHandoff(db, step.run) then
      Some(Input(db.runs[step.run].conversationId, step.run, InputPending, None, None, None, step.now))
    else if step.Do? && HandsOver(db, step.command) && step.command.handoffId == i then
      var c := step.command;
      Some(Input(c.conversationId, c.runId, Submitted, Some(c.email), Some(Granted), Some(c.now), c.now))
    else None
  }

  function InputLeft(db: Db, step: Step, i: Id): Option<Input>
    requires i in db.inputs
  {
    var row := db.inputs[i];
    match step
    case DeleteConversation(c) => if c == row.conversationId then None else Some(row)
    case Redact(cutoff) => if row.value.Some? && row.updatedAt < cutoff then Some(row.(value := None, status := Expired)) else Some(row)
    case Do(c) =>
      if !Answers(db, c) || c.requestId != i then Some(row)
      else if c.answer.Some? then
        Some(Input(row.conversationId, row.runId, Submitted, c.answer, Some(Granted), Some(c.now), c.now))
      else Some(Input(row.conversationId, row.runId, Declined, None, Some(Withheld), Some(c.now), c.now))
    case _ => Some(row)
  }

  function InputNext(db: Db, step: Step, i: Id): Option<Input> {
    if i in db.inputs then InputLeft(db, step, i) else InputMade(db, step, i)
  }

  lemma InputAfterContactRequested(db: Db, step: Step, i: Id)
    requires step.Materialize? && step.event.ContactRequested?
    ensures RowIs(OrSame(Materialized(db, step.run, step.event, step.now), db).inputs, i, InputNext(db, step, i))
  {
    if step.run in db.runs {
      assert Materialized(db, step.run, step.event, step.now) == AskedForContact(db, step.run, step.event.requestId, step.now);
      hide Materialized;
    }
  }

  lemma InputAfterOthers(db: Db, step: Step, i: Id)
    requires step.Materialize? && !step.event.ContactRequested?
    ensures RowIs(OrSame(Materialized(db, step.run, step.event, step.now), db).inputs, i, InputNext(db, step, i))
  {}

  lemma InputAfterEvents(db: Db, step: Step, cfg: Config, i: Id)
    requires step.Materialize?
    ensures RowIs(Apply(db, step, cfg).inputs, i, InputNext(db, step, i))
  {
    hide RowIs, InputNext, Materialized;
    match step.event
    case ContactRequested(_) => InputAfterContactRequested(db, step, i);
    case _ => InputAfterOthers(db, step, i);
  }

  lemma InputAfterSubmitInput(db: Db, c: Command, i: Id)
    requires c.SubmitInput? && IsNewKey(db, c)
    ensures RowIs(Execute(db, c).db.inputs, i, InputNext(db, Do(c), i))
  {
    assert Execute(db, c) == InputSubmitted(db, c);
    hide Execute;
  }

  lemma InputAfterCreateEmailHandoff(db: Db, c: Command, i: Id)
    requires c.CreateEmailHandoff? && IsNewKey(db, c)
    ensures RowIs(Execute(db, c).db.inputs, i, InputNext(db, Do(c), i))
  {
    assert Execute(db, c) == EmailHandoffCreated(db, c);
    hide Execute;
  }

  lemma InputAfterOtherCommand(db: Db, c: Command, i: Id)
    requires !IsNewKey(db, c) || (!c.SubmitInput? && !c.CreateEmailHandoff?)
    ensures RowIs(Execute(db, c).db.inputs, i, InputNext(db, Do(c), i))
  {}

  lemma InputAfterCommands(db: Db, c: Command, cfg: Config, i: Id)
    ensures RowIs(Execute(db, c).db.inputs, i, InputNext(db, Do(c), i))
  {
    hide RowIs, InputNext, Execute;
    if !IsNewKey(db, c) {
      InputAfterOtherCommand(db, c, i);
    } else {
      match c
      case SubmitInput(_, _, _, _, _, _) => InputAfterSubmitInput(db, c, i);
      case CreateEmailHandoff(_, _, _, _, _, _, _, _, _) => InputAfterCreateEmailHandoff(db, c, i);
      case _ => InputAfterOtherCommand(db, c, i);
    }
  }

  /** Every input after every step. */
  lemma InputAfterEveryStep(db: Db, step: Step, cfg: Config, i: Id)
    ensures RowIs(Apply(db, step, cfg).inputs, i, InputNext(db, step, i))
  {
    match step
    case Materialize(_, _, _) => InputAfterEvents(db, step, cfg, i);
    case Do(command) => InputAfterCommands(db, command, cfg, i);
    case DeleteConversation(_) =>
    case WorkerCancel(_, _) =>
    case Fail(_, _, _) =>
    case Redact(_) =>
    case ForgetKeys(_) =>
    case _ => LeasesLeaveRest(db, step, cfg);
  }

  // ---------------------------------------------------------------- conversations and keys

  /** The step gives out a message number of the conversation. */
  predicate TakesNumber(db: Db, step: Step, c: Id) {
    || (step.Do? && Submits(db, step.command) && step.command.conversationId == c)
    || (step.Materialize? && step.run in db.runs && db.runs[step.run].conversationId == c && Starts(db, step, db.runs[step.run].assistantMessageId))
  }

  function ConversationNext(db: Db, step: Step, c: Id): Option<Conversation> {
    if c in db.conversations then
      var row := db.conversations[c];
      if step == DeleteConversation(c) then None
      else if TakesNumber(db, step, c) then Some(row.(nextMessageSequence := row.nextMessageSequence + 1))
      else Some(row)
    else if step.Do? && Creates(db, step.command) && step.command.id == c then
      Some(Conversation(step.command.scope, step.command.agentRef, 1))
    else None
  }

  lemma ConversationAfterMessageStarted(db: Db, step: Step, c: Id)
    requires step.Materialize? && step.event.MessageStarted?
    ensures RowIs(OrSame(Materialized(db, step.run, step.event, step.now), db).conversations, c, ConversationNext(db, step, c))
  {
    if step.run in db.runs {
      assert Materialized(db, step.run, step.event, step.now) == Started(db, step.run);
      hide Materialized;
    }
  }

  lemma ConversationAfterOthers(db: Db, step: Step, c: Id)
    requires step.Materialize? && !step.event.MessageStarted?
    ensures RowIs(OrSame(Materialized(db, step.run, step.event, step.now), db).conversations, c, ConversationNext(db, step, c))
  {}

  lemma ConversationAfterEvent(db: Db, step: Step, cfg: Config, c: Id)
    requires step.Materialize?
    ensures RowIs(Apply(db, step, cfg).conversations, c, ConversationNext(db, step, c))
  {
    hide RowIs, ConversationNext, Materialized;
    match step.event
    case MessageStarted => ConversationAfterMessageStarted(db, step, c);
    case _ => ConversationAfterOthers(db, step, c);
  }

  lemma ConversationAfterCreateConversation(db: Db, command: Command, c: Id)
    requires Issued(db) && command.CreateConversation? && IsNewKey(db, command)
    ensures RowIs(Execute(db, command).db.conversations, c, ConversationNext(db, Do(command), c))
  {
    assert Execute(db, command) == ConversationCreated(db, command);
    hide Execute;
  }

  lemma ConversationAfterSubmitMessage(db: Db, command: Command, c: Id)
    requires Issued(db) && command.SubmitMessage? && IsNewKey(db, command)
    ensures RowIs(Execute(db, command).db.conversations, c, ConversationNext(db, Do(command), c))
  {
    assert Execute(db, command) == MessageSubmitted(db, command);
    hide Execute;
  }

  lemma ConversationAfterOtherCommand(db: Db, command: Command, c: Id)
    requires !IsNewKey(db, command) || (!command.CreateConversation? && !command.SubmitMessage?)
    ensures RowIs(Execute(db, command).db.conversations, c, ConversationNext(db, Do(command), c))
  {}

  lemma ConversationAfterCommand(db: Db, command: Command, cfg: Config, c: Id)
    requires Issued(db)
    ensures RowIs(Execute(db, command).db.conversations, c, ConversationNext(db, Do(command), c))
  {
    hide RowIs, ConversationNext, Execute;
    if !IsNewKey(db, command) {
      ConversationAfterOtherCommand(db, command, c);
    } else {
      match command
      case CreateConversation(_, _, _, _) => ConversationAfterCreateConversation(db, command, c);
      case SubmitMessage(_, _, _, _, _, _, _, _) => ConversationAfterSubmitMessage(db, command, c);
      case _ => ConversationAfterOtherCommand(db, command, c);
    }
  }

  /** Every conversation after every step: its owner and its agent never change. */
  lemma ConversationAfterStep(db: Db, step: Step, cfg: Config, c: Id)
    requires Issued(db)
    ensures RowIs(Apply(db, step, cfg).conversations, c, ConversationNext(db, step, c))
  {
    match step
    case Materialize(_, _, _) => ConversationAfterEvent(db, step, cfg, c);
    case Do(command) => ConversationAfterCommand(db, command, cfg, c);
    case DeleteConversation(_) =>
    case WorkerCancel(_, _) =>
    case Fail(_, _, _) =>
    case Redact(_) =>
    case ForgetKeys(_) =>
    case _ => LeasesLeaveRest(db, step, cfg);
  }

  function ResourceText(reply: Reply): string {
    match reply
    case Resource(id) => id.text
    case CancelOutcome(runId, status) => EncodeOutcome(runId, status)
    case Refused(_) => ""
  }

  /** Every key after every step: an accepted command records its request and its answer, and only the
      sweep forgets one. */
  lemma KeyAfterStep(db: Db, step: Step, cfg: Config, k: CommandKey)
    ensures var next := Apply(db, step, cfg).keys;
      if k in db.keys then
        if step.ForgetKeys? && k in step.keys then k !in next else k in next && next[k] == db.keys[k]
      else if step.Do? && KeyOf(step.command) == k && Accepts(db, step.command) then
        k in next && next[k] == KeyRow(RequestOf(step.command), ResourceText(AnswerTo(db, step.command)))
      else k !in next
  {
    match step
    case Materialize(run, event, now) => EventsLeaveRuns(db, run, event, now);
    case Do(command) => KeyAfterCommand(db, command, k);
    case DeleteConversation(_) =>
    case WorkerCancel(_, _) =>
    case Fail(_, _, _) =>
    case Redact(_) =>
    case ForgetKeys(_) =>
    case _ => LeasesLeaveRest(db, step, cfg);
  }

  predicate KeyIs(before: map<CommandKey, KeyRow>, next: map<CommandKey, KeyRow>, db: Db, c: Command, k: CommandKey) {
    if k in before then k in next && next[k] == before[k]
    else if KeyOf(c) == k && Accepts(db, c) then k in next && next[k] == KeyRow(RequestOf(c), ResourceText(AnswerTo(db, c)))
    else k !in next
  }

  lemma KeyAfterCreateConversation(db: Db, c: Command, k: CommandKey)
    requires c.CreateConversation? && IsNewKey(db, c)
    ensures KeyIs(db.keys, Execute(db, c).db.keys, db, c, k)
  {
    assert Execute(db, c) == ConversationCreated(db, c);
    hide Execute;
  }

  lemma KeyAfterSubmitMessage(db: Db, c: Command, k: CommandKey)
    requires c.SubmitMessage? && IsNewKey(db, c)
    ensures KeyIs(db.keys, Execute(db, c).db.keys, db, c, k)
  {
    assert Execute(db, c) == MessageSubmitted(db, c);
    hide Execute;
  }

  lemma KeyAfterCancelRun(db: Db, c: Command, k: CommandKey)
    requires c.CancelRun? && IsNewKey(db, c)
    ensures KeyIs(db.keys, Execute(db, c).db.keys, db, c, k)
  {
    assert Execute(db, c) == CancelAsked(db, c);
    hide Execute;
  }

  lemma KeyAfterSubmitInput(db: Db, c: Command, k: CommandKey)
    requires c.SubmitInput? && IsNewKey(db, c)
    ensures KeyIs(db.keys, Execute(db, c).db.keys, db, c, k)
  {
    assert Execute(db, c) == InputSubmitted(db, c);
    hide Execute;
  }

  lemma KeyAfterCreateEmailHandoff(db: Db, c: Command, k: CommandKey)
    requires c.CreateEmailHandoff? && IsNewKey(db, c)
    ensures KeyIs(db.keys, Execute(db, c).db.keys, db, c, k)
  {
    assert Execute(db, c) == EmailHandoffCreated(db, c);
    hide Execute;
  }

  lemma KeyAfterCommand(db: Db, c: Command, k: CommandKey)
    ensures KeyIs(db.keys, Execute(db, c).db.keys, db, c, k)
  {
    if IsNewKey(db, c) {
      hide KeyIs, Execute;
      match c
      case CreateConversation(_, _, _, _) => KeyAfterCreateConversation(db, c, k);
      case SubmitMessage(_, _, _, _, _, _, _, _) => KeyAfterSubmitMessage(db, c, k);
      case CancelRun(_, _, _, _, _) => KeyAfterCancelRun(db, c, k);
      case SubmitInput(_, _, _, _, _, _) => KeyAfterSubmitInput(db, c, k);
      case CreateEmailHandoff(_, _, _, _, _, _, _, _, _) => KeyAfterCreateEmailHandoff(db, c, k);
    }
  }
}
