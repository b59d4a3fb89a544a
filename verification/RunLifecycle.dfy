/** Runs under every interleaving of worker transactions, commands and retention. A worker
    step carries any run and any attempt, so workers whose lease is long gone are included. */
module RunLifecycle {
  import opened Wrappers
  import opened ChatDatabase

  datatype Step =
    | Claim(run: Id, now: Time)
    | Renew(run: Id, attempt: nat, now: Time)
    | Materialize(run: Id, event: ConnectorEvent, now: Time)
    | Complete(run: Id, now: Time)
    | WaitForInput(run: Id)
    | WorkerCancel(run: Id, now: Time)
    | Fail(run: Id, code: string, now: Time)
    | Do(command: Command)
    | Redact(cutoff: Time)
    | DeleteConversation(conversation: Id)
    | ForgetKeys(keys: set<CommandKey>)

  predicate Claims(db: Db, step: Step, cfg: Config) {
    step.Claim? && step.run in db.runs && Claimable(db.runs[step.run], step.now, cfg)
  }

  function OrSame(result: Option<Db>, db: Db): Db { if result.Some? then result.value else db }

  function Apply(db: Db, step: Step, cfg: Config): Db {
    match step
    case Claim(run, now) => if Claims(db, step, cfg) then Claimed(db, run, now, cfg) else db
    case Renew(run, attempt, now) => Renewed(db, run, attempt, now, cfg)
    case Materialize(run, event, now) => OrSame(Materialized(db, run, event, now), db)
    case Complete(run, now) => CompletedRun(db, run, now)
    case WaitForInput(run) => OrSame(Waiting(db, run), db)
    case WorkerCancel(run, now) => CancelledRun(db, run, now)
    case Fail(run, code, now) => FailedRun(db, run, code, now)
    case Do(command) => Execute(db, command).db
    case Redact(cutoff) => Redacted(db, cutoff)
    case DeleteConversation(c) => DeletedConversation(db, c)
    case ForgetKeys(keys) => db.(keys := db.keys - keys)
  }

  function After(db: Db, trace: seq<Step>, cfg: Config): Db
    decreases |trace|
  {
    if trace == [] then db else After(Apply(db, trace[0], cfg), trace[1..], cfg)
  }

  lemma {:induction false} AfterMore(db: Db, a: seq<Step>, b: seq<Step>, cfg: Config)
    ensures After(db, a + b, cfg) == After(After(db, a, cfg), b, cfg)
    decreases |a|
  {
    if a == [] {
      assert a + b == b;
    } else {
      assert (a + b)[1..] == a[1..] + b;
      AfterMore(Apply(db, a[0], cfg), a[1..], b, cfg);
    }
  }

  lemma AfterOne(db: Db, a: seq<Step>, step: Step, cfg: Config)
    ensures After(db, a + [step], cfg) == Apply(After(db, a, cfg), step, cfg)
  {
    AfterMore(db, a, [step], cfg);
    assert [step][1..] == [];
  }

  lemma AfterTwo(db: Db, first: Step, second: Step, cfg: Config)
    ensures After(db, [first, second], cfg) == Apply(Apply(db, first, cfg), second, cfg)
  {
    AfterOne(db, [], first, cfg);
    AfterOne(db, [first], second, cfg);
    assert [] + [first] == [first] && [first] + [second] == [first, second];
  }

  // ---------------------------------------------------------------- what one step does to one run

  predicate IsTerminal(status: RunStatus) { status == Completed || status == Failed || status == Cancelled }

  predicate IsDead(status: RunStatus) { status == CancelRequested || IsTerminal(status) }

  predicate SameOrigin(a: Run, b: Run) {
    && a.conversationId == b.conversationId && a.triggerMessageId == b.triggerMessageId && a.trigger == b.trigger
    && a.assistantMessageId == b.assistantMessageId && a.createdAt == b.createdAt
  }

  datatype Move = Stay | TakeUp | Extend | Settle(outcome: RunStatus) | DropQueued | Pause | AskToCancel | Resume

  predicate Moves(a: Run, b: Run, move: Move, cfg: Config) {
    && SameOrigin(a, b)
    && match move
       case Stay => b == a
       case TakeUp =>
         (a.status == Queued || a.status == Running) && a.attempt < cfg.maxAttempts && b.status == Running
         && b.attempt == a.attempt + 1 && b.leaseExpiresAt.Some? && b.completedAt == a.completedAt
       case Extend => a.status == Running && b.leaseExpiresAt.Some? && b == a.(leaseExpiresAt := b.leaseExpiresAt)
       case Settle(outcome) =>
         IsTerminal(outcome) && b.status == outcome && b.attempt == a.attempt && b.completedAt.Some? && b.leaseExpiresAt.None?
       case DropQueued => a.status == Queued && b.completedAt.Some? && b == a.(status := Cancelled, completedAt := b.completedAt)
       case Pause => a.status == Running && b == a.(status := WaitingForInput, claimedAt := None, leaseExpiresAt := None)
       case AskToCancel => a.status == Running && b == a.(status := CancelRequested)
       case Resume =>
         a.status == WaitingForInput && b.status == Queued && b.attempt == a.attempt
         && b.leaseExpiresAt.None? && b.completedAt.None?
  }

  /** The move that a step makes a run take. */
  function MoveOf(db: Db, step: Step, cfg: Config, r: Id): Move {
    match step
    case Claim(run, _) => if run == r && Claims(db, step, cfg) then TakeUp else Stay
    case Renew(run, attempt, _) => if run == r && Renewable(db, run, attempt) then Extend else Stay
    case Complete(run, _) => if run == r then Settle(Completed) else Stay
    case WaitForInput(run) => if run == r && Waiting(db, run).Some? then Pause else Stay
    case WorkerCancel(run, _) => if run == r then Settle(Cancelled) else Stay
    case Fail(run, _, _) => if run == r then Settle(Failed) else Stay
    case Do(command) => MoveOfCommand(db, command, r)
    case _ => Stay
  }

  function MoveOfCommand(db: Db, command: Command, r: Id): Move {
    if KeyOf(command) in db.keys || Effect(db, command).reply.Refused? then Stay
    else match command
      case CancelRun(_, _, _, _, picked) =>
        if picked == r && r in db.runs then UserMove(db.runs[r].status) else Stay
      case SubmitInput(_, _, _, requestId, _, _) =>
        if requestId in db.inputs && db.inputs[requestId].runId == r then Resume else Stay
      case _ => Stay
  }

  /** A run is created queued, with an identifier never issued before. */
  predicate IsNew(run: Run) {
    run.status == Queued && run.attempt == 0 && run.leaseExpiresAt.None? && run.completedAt.None?
  }

  /** Identifiers of rows were issued, so an insert never meets a row. */
  predicate Issued(db: Db) {
    && db.conversations.Keys <= db.issued && db.messages.Keys <= db.issued && db.runs.Keys <= db.issued
    && forall r <- db.runs :: db.runs[r].assistantMessageId in db.issued
  }

  lemma EventsLeaveRuns(db: Db, run: Id, event: ConnectorEvent, now: Time)
    ensures var next := OrSame(Materialized(db, run, event, now), db);
      next.runs == db.runs && next.issued == db.issued && next.keys == db.keys
  {}

  predicate RowMoves(before: Db, next: Db, r: Id, move: Move, cfg: Config) {
    if r in before.runs then r in next.runs && Moves(before.runs[r], next.runs[r], move, cfg)
    else r in next.runs ==> IsNew(next.runs[r]) && r !in before.issued && r in next.issued
  }

  /** A transaction that rewrites one run moves that run and no other. */
  lemma OneRowMoves(before: Db, next: Db, id: Id, row: Run, move: Move, cfg: Config, r: Id)
    requires id in before.runs && next.runs == before.runs[id := row] && Moves(before.runs[id], row, move, cfg)
    ensures RowMoves(before, next, r, if r == id then move else Stay, cfg)
  {}

  lemma InsertMoves(before: Db, next: Db, id: Id, row: Run, cfg: Config, r: Id)
    requires id !in before.runs && id !in before.issued && id in next.issued
    requires next.runs == before.runs[id := row] && IsNew(row)
    ensures RowMoves(before, next, r, Stay, cfg)
  {}

  lemma SubmitMoves(db: Db, command: Command, cfg: Config, r: Id)
    requires Issued(db) && command.SubmitMessage?
    ensures RowMoves(db, MessageSubmitted(db, command).db, r, Stay, cfg)
  {
    var next := MessageSubmitted(db, command);
    if next.reply.Resource? {
      InsertMoves(db, next.db, command.runId, next.db.runs[command.runId], cfg, r);
    }
  }

  lemma HandoffMoves(db: Db, command: Command, cfg: Config, r: Id)
    requires Issued(db) && command.CreateEmailHandoff?
    ensures RowMoves(db, EmailHandoffCreated(db, command).db, r, Stay, cfg)
  {
    var next := EmailHandoffCreated(db, command);
    if next.reply.Resource? {
      InsertMoves(db, next.db, command.runId, next.db.runs[command.runId], cfg, r);
    }
  }

  function UserMove(status: RunStatus): Move {
    match status
    case Queued => DropQueued
    case Running => AskToCancel
    case _ => Stay
  }

  lemma CancelMoves(db: Db, command: Command, cfg: Config, r: Id)
    requires command.CancelRun? && KeyOf(command) !in db.keys
    ensures RowMoves(db, CancelAsked(db, command).db, r, MoveOfCommand(db, command, r), cfg)
  {
    var next := CancelAsked(db, command);
    if next.reply.CancelOutcome? {
      var run := db.runs[command.picked];
      OneRowMoves(db, next.db, command.picked, CancelledByUser(run, command.now), UserMove(run.status), cfg, r);
    }
  }

  lemma InputMoves(db: Db, command: Command, cfg: Config, r: Id)
    requires command.SubmitInput? && KeyOf(command) !in db.keys
    ensures RowMoves(db, InputSubmitted(db, command).db, r, MoveOfCommand(db, command, r), cfg)
  {
    var next := InputSubmitted(db, command);
    if next.reply.Resource? {
      var id := db.inputs[command.requestId].runId;
      OneRowMoves(db, next.db, id, Resumed(db.runs[id], command.now), Resume, cfg, r);
    }
  }

  lemma CommandMoves(db: Db, command: Command, cfg: Config, r: Id)
    requires Issued(db)
    ensures RowMoves(db, Execute(db, command).db, r, MoveOfCommand(db, command, r), cfg)
  {
    if KeyOf(command) !in db.keys {
      match command
      case CreateConversation(_, _, _, _) =>
      case SubmitMessage(_, _, _, _, _, _, _, _) => SubmitMoves(db, command, cfg, r);
      case CancelRun(_, _, _, _, _) => CancelMoves(db, command, cfg, r);
      case SubmitInput(_, _, _, _, _, _) => InputMoves(db, command, cfg, r);
      case CreateEmailHandoff(_, _, _, _, _, _, _, _, _) => HandoffMoves(db, command, cfg, r);
    }
  }

  lemma LeaseMoves(db: Db, step: Step, cfg: Config, r: Id)
    requires step.Claim? || step.Renew? || step.WaitForInput?
    ensures RowMoves(db, Apply(db, step, cfg), r, MoveOf(db, step, cfg, r), cfg)
  {
    var move := MoveOf(db, step, cfg, step.run);
    if move != Stay {
      OneRowMoves(db, Apply(db, step, cfg), step.run, Apply(db, step, cfg).runs[step.run], move, cfg, r);
    }
  }

  /** The unfenced transactions: they look at no status and no attempt. */
  lemma SettleMoves(db: Db, next: Db, id: Id, outcome: RunStatus, cfg: Config, r: Id)
    requires id !in db.runs ==> next == db
    requires id in db.runs ==> id in next.runs && next.runs == db.runs[id := next.runs[id]] && Moves(db.runs[id], next.runs[id], Settle(outcome), cfg)
    ensures RowMoves(db, next, r, if id == r then Settle(outcome) else Stay, cfg)
  {}

  /** A step moves each run by its named move, makes new runs queued, and removes one only with its conversation. */
  lemma StepMoves(db: Db, step: Step, cfg: Config, r: Id)
    requires Issued(db)
    ensures RowMoves(db, Apply(db, step, cfg), r, MoveOf(db, step, cfg, r), cfg)
      || (r in db.runs && r !in Apply(db, step, cfg).runs && step == DeleteConversation(db.runs[r].conversationId))
  {
    match step
    case Materialize(run, event, now) => EventsLeaveRuns(db, run, event, now);
    case Do(command) => CommandMoves(db, command, cfg, r);
    case Redact(_) =>
    case DeleteConversation(_) =>
    case ForgetKeys(_) =>
    case Complete(run, now) => SettleMoves(db, CompletedRun(db, run, now), run, Completed, cfg, r);
    case WorkerCancel(run, now) => SettleMoves(db, CancelledRun(db, run, now), run, Cancelled, cfg, r);
    case Fail(run, code, now) => SettleMoves(db, FailedRun(db, run, code, now), run, Failed, cfg, r);
    case _ => LeaseMoves(db, step, cfg, r);
  }

  // ---------------------------------------------------------------- bookkeeping

  predicate Bookkept(run: Run, cfg: Config) {
    && (run.leaseExpiresAt.Some? <==> run.status == Running || run.status == CancelRequested)
    && (run.completedAt.Some? <==> IsTerminal(run.status))
    && run.attempt <= cfg.maxAttempts
  }

  predicate InOrder(db: Db, cfg: Config) {
    Issued(db) && forall r <- db.runs :: Bookkept(db.runs[r], cfg)
  }

  lemma MoveKeepsBooks(a: Run, b: Run, move: Move, cfg: Config)
    requires Bookkept(a, cfg) && Moves(a, b, move, cfg)
    ensures Bookkept(b, cfg) && a.attempt <= b.attempt
    ensures IsDead(a.status) ==> IsDead(b.status) && b.attempt == a.attempt
  {}

  lemma EventsKeepIssued(db: Db, run: Id, event: ConnectorEvent, now: Time)
    requires Issued(db)
    ensures Issued(OrSame(Materialized(db, run, event, now), db))
  {}

  lemma CommandsKeepIssued(db: Db, command: Command)
    requires Issued(db)
    ensures Issued(Execute(db, command).db) && db.issued <= Execute(db, command).db.issued
  {
    if KeyOf(command) !in db.keys {
      match command
      case CreateConversation(_, _, _, _) =>
      case SubmitMessage(_, _, _, _, _, _, _, _) => SubmitKeepsIssued(db, command);
      case CancelRun(_, _, _, _, _) => CancelKeepsIssued(db, command);
      case SubmitInput(_, _, _, _, _, _) => InputKeepsIssued(db, command);
      case CreateEmailHandoff(_, _, _, _, _, _, _, _, _) => HandoffKeepsIssued(db, command);
    }
  }

  lemma SubmitKeepsIssued(db: Db, command: Command)
    requires Issued(db) && command.SubmitMessage?
    ensures Issued(MessageSubmitted(db, command).db) && db.issued <= MessageSubmitted(db, command).db.issued
  {}

  lemma CancelKeepsIssued(db: Db, command: Command)
    requires Issued(db) && command.CancelRun?
    ensures Issued(CancelAsked(db, command).db) && db.issued <= CancelAsked(db, command).db.issued
  {}

  lemma InputKeepsIssued(db: Db, command: Command)
    requires Issued(db) && command.SubmitInput?
    ensures Issued(InputSubmitted(db, command).db) && db.issued <= InputSubmitted(db, command).db.issued
  {}

  lemma HandoffKeepsIssued(db: Db, command: Command)
    requires Issued(db) && command.CreateEmailHandoff?
    ensures Issued(EmailHandoffCreated(db, command).db) && db.issued <= EmailHandoffCreated(db, command).db.issued
  {}

  lemma CancelledKeepsIssued(db: Db, id: Id, now: Time)
    requires Issued(db)
    ensures Issued(CancelledRun(db, id, now)) && db.issued == CancelledRun(db, id, now).issued
  {}

  lemma FailedKeepsIssued(db: Db, id: Id, code: string, now: Time)
    requires Issued(db)
    ensures Issued(FailedRun(db, id, code, now)) && db.issued == FailedRun(db, id, code, now).issued
  {}

  lemma LeasesKeepIssued(db: Db, step: Step, cfg: Config)
    requires Issued(db) && (step.Claim? || step.Renew? || step.WaitForInput? || step.Complete?)
    ensures Issued(Apply(db, step, cfg)) && db.issued == Apply(db, step, cfg).issued
  {}

  lemma RetentionKeepsIssued(db: Db, step: Step, cfg: Config)
    requires Issued(db) && (step.Redact? || step.DeleteConversation? || step.ForgetKeys?)
    ensures Issued(Apply(db, step, cfg)) && db.issued == Apply(db, step, cfg).issued
  {}

  lemma IssuedKept(db: Db, step: Step, cfg: Config)
    requires Issued(db)
    ensures Issued(Apply(db, step, cfg)) && db.issued <= Apply(db, step, cfg).issued
  {
    match step
    case Materialize(run, event, now) => EventsKeepIssued(db, run, event, now); EventsLeaveRuns(db, run, event, now);
    case Do(command) => CommandsKeepIssued(db, command);
    case WorkerCancel(run, now) => CancelledKeepsIssued(db, run, now);
    case Fail(run, code, now) => FailedKeepsIssued(db, run, code, now);
    case Redact(_) => RetentionKeepsIssued(db, step, cfg);
    case DeleteConversation(_) => RetentionKeepsIssued(db, step, cfg);
    case ForgetKeys(_) => RetentionKeepsIssued(db, step, cfg);
    case _ => LeasesKeepIssued(db, step, cfg);
  }

  lemma StepKeepsOrder(db: Db, step: Step, cfg: Config)
    requires InOrder(db, cfg)
    ensures InOrder(Apply(db, step, cfg), cfg)
  {
    IssuedKept(db, step, cfg);
    var next := Apply(db, step, cfg);
    forall r | r in next.runs ensures Bookkept(next.runs[r], cfg) {
      StepMoves(db, step, cfg, r);
      if r in db.runs {
        MoveKeepsBooks(db.runs[r], next.runs[r], MoveOf(db, step, cfg, r), cfg);
      }
    }
  }

  /** In every reachable state the lease is set exactly while a worker may hold the run, the
      completion time exactly when the status is terminal, and attempts stay within the limit. */
  lemma {:induction false} Bookkeeping(db: Db, trace: seq<Step>, cfg: Config)
    requires InOrder(db, cfg)
    ensures InOrder(After(db, trace, cfg), cfg)
    decreases |trace|
  {
    if trace != [] {
      StepKeepsOrder(db, trace[0], cfg);
      Bookkeeping(Apply(db, trace[0], cfg), trace[1..], cfg);
    }
  }

  // ---------------------------------------------------------------- no resurrection

  /** What never stops holding of a run: deleted for good, or dead with its attempts spent as they were. */
  predicate Buried(db: Db, r: Id, attempt: nat) {
    r in db.issued && (r in db.runs ==> IsDead(db.runs[r].status) && db.runs[r].attempt == attempt)
  }

  lemma StepKeepsBuried(db: Db, step: Step, cfg: Config, r: Id, attempt: nat)
    requires InOrder(db, cfg) && Buried(db, r, attempt)
    ensures Buried(Apply(db, step, cfg), r, attempt)
    ensures step.Claim? && step.run == r ==> Apply(db, step, cfg) == db
  {
    IssuedKept(db, step, cfg);
    StepMoves(db, step, cfg, r);
    if r in db.runs && r in Apply(db, step, cfg).runs {
      MoveKeepsBooks(db.runs[r], Apply(db, step, cfg).runs[r], MoveOf(db, step, cfg, r), cfg);
    }
  }

  /** Once cancellation was requested or the run has finished, no interleaving brings it back:
      after every prefix of every run of the system it is dead or deleted, and a claim of it does nothing. */
  lemma {:induction false} NoResurrection(db: Db, trace: seq<Step>, cfg: Config, r: Id, now: Time)
    requires InOrder(db, cfg) && r in db.runs && IsDead(db.runs[r].status)
    ensures var after := After(db, trace, cfg);
      && (r in after.runs ==> IsDead(after.runs[r].status) && after.runs[r].attempt == db.runs[r].attempt)
      && Apply(after, Claim(r, now), cfg) == after
  {
    StaysBuried(db, trace, cfg, r, db.runs[r].attempt);
    Bookkeeping(db, trace, cfg);
    StepKeepsBuried(After(db, trace, cfg), Claim(r, now), cfg, r, db.runs[r].attempt);
  }

  lemma {:induction false} StaysBuried(db: Db, trace: seq<Step>, cfg: Config, r: Id, attempt: nat)
    requires InOrder(db, cfg) && Buried(db, r, attempt)
    ensures Buried(After(db, trace, cfg), r, attempt)
    decreases |trace|
  {
    if trace != [] {
      StepKeepsOrder(db, trace[0], cfg);
      StepKeepsBuried(db, trace[0], cfg, r, attempt);
      StaysBuried(Apply(db, trace[0], cfg), trace[1..], cfg, r, attempt);
    }
  }

  /** What a settling statement makes of its run, whatever the run is. */
  function OutcomeOf(step: Step): Option<RunStatus> {
    match step
    case Complete(_, _) => Some(RunStatus.Completed)
    case WorkerCancel(_, _) => Some(RunStatus.Cancelled)
    case Fail(_, _, _) => Some(RunStatus.Failed)
    case _ => None
  }

  /** Only the set of dead statuses is closed: a finished run gets another status exactly when a worker
      settles it once more with another outcome. */
  lemma TerminalStatusChangesIff(db: Db, step: Step, cfg: Config, r: Id)
    requires Issued(db) && r in db.runs && IsTerminal(db.runs[r].status) && r in Apply(db, step, cfg).runs
    ensures Apply(db, step, cfg).runs[r].status != db.runs[r].status <==>
      OutcomeOf(step).Some? && step.run == r && OutcomeOf(step) != Some(db.runs[r].status)
  {
    hide Apply, Issued;
    StepMoves(db, step, cfg, r);
    if OutcomeOf(step).Some? && step.run == r { SettlesAs(db, step, cfg, r); }
  }

  lemma SettlesAs(db: Db, step: Step, cfg: Config, r: Id)
    requires OutcomeOf(step).Some? && step.run == r && r in db.runs
    ensures r in Apply(db, step, cfg).runs && Some(Apply(db, step, cfg).runs[r].status) == OutcomeOf(step)
  {}

  /** What the settling transactions leave behind besides the run: no answer still pending or
      streaming, no handoff open, and the code of the failure. */
  lemma SettlingLeavesNothingOpen(db: Db, id: Id, code: string, now: Time)
    requires id in db.runs
    ensures var next := CancelledRun(db, id, now); var answer := db.runs[id].assistantMessageId;
      answer in next.messages ==> next.messages[answer].status != Pending && next.messages[answer].status != Streaming
    ensures var next := FailedRun(db, id, code, now);
      next.runs[id].errorCode == Some(code)
      && forall h <- next.handoffs :: next.handoffs[h].runId == id ==> next.handoffs[h].status in {HandoffCompleted, HandoffFailed}
    ensures forall h <- db.handoffs :: db.handoffs[h].runId != id || db.handoffs[h].status == HandoffCompleted ==>
      FailedRun(db, id, code, now).handoffs[h] == db.handoffs[h]
  {}

  /** The reply to a new request to cancel says what became of the run: cancelled on the spot exactly when
      it was queued, asked to cancel exactly while a worker holds it, left alone otherwise. */
  lemma CancelReplyIsTrue(db: Db, command: Command)
    requires command.CancelRun? && KeyOf(command) !in db.keys && Execute(db, command).reply.CancelOutcome?
    ensures var before := db.runs[command.picked]; var next := Execute(db, command);
      && next.reply.runId == command.picked && IsLatestRun(db, command.conversationId, command.picked)
      && (next.reply.status == AlreadyCancelled <==> before.status == Queued)
      && (next.reply.status == AlreadyCancelled ==> next.db.runs[command.picked].status == Cancelled)
      && (next.reply.status == RequestedCancel <==> next.db.runs[command.picked].status == CancelRequested)
      && (next.reply.status == AlreadyFinished ==> next.db.runs == db.runs)
  {
    assert Execute(db, command) == CancelAsked(db, command);
  }

  /** Submitting makes work: the new run can be claimed from then on, first attempt, any limit. */
  lemma SubmittedIsClaimable(db: Db, command: Command, cfg: Config, now: Time)
    requires command.SubmitMessage? && KeyOf(command) !in db.keys && !Execute(db, command).reply.Refused?
    requires cfg.maxAttempts >= 1 && now >= command.now
    ensures Claims(Execute(db, command).db, Claim(command.runId, now), cfg)
  {
    assert Execute(db, command) == MessageSubmitted(db, command);
  }

  // ---------------------------------------------------------------- the polling budget

  function Left(run: Run, cfg: Config): nat { if run.attempt <= cfg.maxAttempts then cfg.maxAttempts - run.attempt else 0 }

  ghost function Budget(runs: map<Id, Run>, cfg: Config): nat
    decreases |runs|
  {
    if runs == map[] then 0
    else
      var r :| r in runs;
      Left(runs[r], cfg) + Budget(runs - {r}, cfg)
  }

  lemma {:induction false} BudgetWithout(runs: map<Id, Run>, r: Id, cfg: Config)
    requires r in runs
    ensures Budget(runs, cfg) == Left(runs[r], cfg) + Budget(runs - {r}, cfg)
    decreases |runs|
  {
    var p :| p in runs && Budget(runs, cfg) == Left(runs[p], cfg) + Budget(runs - {p}, cfg);
    if p != r {
      BudgetWithout(runs - {p}, r, cfg);
      BudgetWithout(runs - {r}, p, cfg);
      assert runs - {p} - {r} == runs - {r} - {p};
    }
  }

  lemma BudgetOfUpdate(runs: map<Id, Run>, r: Id, run: Run, cfg: Config)
    ensures Budget(runs[r := run], cfg) + (if r in runs then Left(runs[r], cfg) else 0) == Budget(runs, cfg) + Left(run, cfg)
  {
    BudgetWithout(runs[r := run], r, cfg);
    if r in runs {
      BudgetWithout(runs, r, cfg);
      assert runs[r := run] - {r} == runs - {r};
    } else {
      assert runs[r := run] - {r} == runs;
    }
  }

  lemma {:induction false} BudgetShrinks(less: map<Id, Run>, more: map<Id, Run>, cfg: Config)
    requires forall r <- less :: r in more && Left(less[r], cfg) <= Left(more[r], cfg)
    ensures Budget(less, cfg) <= Budget(more, cfg)
    decreases |less|
  {
    if less != map[] {
      var r :| r in less;
      BudgetWithout(less, r, cfg);
      BudgetWithout(more, r, cfg);
      BudgetShrinks(less - {r}, more - {r}, cfg);
    }
  }

  /** The run a step adds. */
  function AddedRun(db: Db, step: Step): Option<Id> {
    if !step.Do? || KeyOf(step.command) in db.keys || Effect(db, step.command).reply.Refused? then None
    else match step.command
      case SubmitMessage(_, _, _, _, _, _, runId, _) => Some(runId)
      case CreateEmailHandoff(_, _, _, _, _, _, runId, _, _) => Some(runId)
      case _ => None
  }

  lemma AddedRunIsInserted(db: Db, step: Step, cfg: Config)
    requires Issued(db) && AddedRun(db, step).Some?
    ensures var id := AddedRun(db, step).value; var next := Apply(db, step, cfg);
      && id !in db.runs && id in next.runs && next.runs == db.runs[id := next.runs[id]] && next.runs[id].attempt == 0
  {}

  lemma NothingElseIsAdded(db: Db, step: Step, cfg: Config)
    requires Issued(db) && AddedRun(db, step).None?
    ensures Apply(db, step, cfg).runs.Keys <= db.runs.Keys
  {
    match step
    case Materialize(run, event, now) => EventsLeaveRuns(db, run, event, now);
    case Do(command) => CommandAddsNoRun(db, command);
    case _ =>
  }

  lemma CommandAddsNoRun(db: Db, command: Command)
    requires AddedRun(db, Do(command)).None?
    ensures Execute(db, command).db.runs.Keys == db.runs.Keys
  {}

  function Count(b: bool): nat { if b then 1 else 0 }

  lemma StepSpendsBudget(db: Db, step: Step, cfg: Config)
    requires InOrder(db, cfg)
    ensures Budget(Apply(db, step, cfg).runs, cfg) + Count(Claims(db, step, cfg))
      <= Budget(db.runs, cfg) + cfg.maxAttempts * Count(AddedRun(db, step).Some?)
  {
    var next := Apply(db, step, cfg);
    if Claims(db, step, cfg) {
      BudgetOfUpdate(db.runs, step.run, next.runs[step.run], cfg);
    } else if AddedRun(db, step).Some? {
      AddedRunIsInserted(db, step, cfg);
      var id := AddedRun(db, step).value;
      BudgetOfUpdate(db.runs, id, next.runs[id], cfg);
    } else {
      NothingElseIsAdded(db, step, cfg);
      forall r | r in next.runs ensures r in db.runs && Left(next.runs[r], cfg) <= Left(db.runs[r], cfg) {
        StepMoves(db, step, cfg, r);
        MoveKeepsBooks(db.runs[r], next.runs[r], MoveOf(db, step, cfg, r), cfg);
      }
      BudgetShrinks(next.runs, db.runs, cfg);
    }
  }

  function ClaimCount(db: Db, trace: seq<Step>, cfg: Config): nat
    decreases |trace|
  {
    if trace == [] then 0
    else Count(Claims(db, trace[0], cfg)) + ClaimCount(Apply(db, trace[0], cfg), trace[1..], cfg)
  }

  function AddedCount(db: Db, trace: seq<Step>, cfg: Config): nat
    decreases |trace|
  {
    if trace == [] then 0
    else Count(AddedRun(db, trace[0]).Some?) + AddedCount(Apply(db, trace[0], cfg), trace[1..], cfg)
  }

  lemma Distribute(m: nat, a: nat, b: nat)
    ensures m * (a + b) == m * a + m * b
  {}

  /** Polling ends: over any run of the system, successful claims are paid for by the attempts
      left at the start and by the runs added on the way. */
  lemma {:induction false} ClaimsAreBounded(db: Db, trace: seq<Step>, cfg: Config)
    requires InOrder(db, cfg)
    ensures ClaimCount(db, trace, cfg) + Budget(After(db, trace, cfg).runs, cfg)
      <= Budget(db.runs, cfg) + cfg.maxAttempts * AddedCount(db, trace, cfg)
    decreases |trace|
  {
    if trace != [] {
      StepSpendsBudget(db, trace[0], cfg);
      StepKeepsOrder(db, trace[0], cfg);
      ClaimsAreBounded(Apply(db, trace[0], cfg), trace[1..], cfg);
      Distribute(cfg.maxAttempts, Count(AddedRun(db, trace[0]).Some?), AddedCount(Apply(db, trace[0], cfg), trace[1..], cfg));
    }
  }
}
