/** Runs of the system, from empty tables on, in which a worker that has lost its lease, or a
    connector that asks twice, does what the invariants of well-behaved workers exclude. */
module StaleRuns {
  import opened Wrappers
  import opened ChatDatabase
  import opened RunLifecycle
  import opened InputLifecycle

  const USER := Scope("tenant", "site", "user")
  const CHAT := Id("chat")
  const MESSAGE := Id("message")
  const RUN := Id("run")
  const ANSWER := Id("answer")

  const CREATE := Do(CreateConversation(USER, "create", "agent", CHAT))
  const SUBMIT := Do(SubmitMessage(USER, "submit", CHAT, "hello", 0, MESSAGE, RUN, ANSWER))

  /** A run that a first worker has claimed at time 0. */
  predicate IsHeld(db: Db, row: Run, cfg: Config) {
    && db.runs == map[RUN := row] && db.handoffs == map[] && db.inputs == map[] && Owns(db, USER, CHAT)
    && row.status == Running && row.attempt == 1 && row.availableAt == 0 && row.leaseExpiresAt == Some(cfg.leaseMs)
    && row.conversationId == CHAT && forall key <- db.keys :: key.operation.CreateConversationOp? || key.operation.CreateMessageOp?
  }

  lemma MessageWaits(cfg: Config)
    ensures var db := After(EMPTY_DB, [CREATE, SUBMIT], cfg);
      && db.runs == map[RUN := NewRun(CHAT, MESSAGE, MessageTrigger, ANSWER, 0)] && db.handoffs == map[] && db.inputs == map[]
      && Owns(db, USER, CHAT) && forall key <- db.keys :: key.operation.CreateConversationOp? || key.operation.CreateMessageOp?
  {
    var created := Apply(EMPTY_DB, CREATE, cfg);
    AfterTwo(EMPTY_DB, CREATE, SUBMIT, cfg);
    assert created == ConversationCreated(EMPTY_DB, CREATE.command).db;
    assert created.issued == {CHAT} && Owns(created, USER, CHAT);
    Names();
    assert Apply(created, SUBMIT, cfg) == MessageSubmitted(created, SUBMIT.command).db;
  }

  lemma Names()
    ensures CHAT != MESSAGE && CHAT != RUN && CHAT != ANSWER && MESSAGE != RUN && MESSAGE != ANSWER && RUN != ANSWER
  {
    assert |"chat"| == 4 && |"message"| == 7 && |"run"| == 3 && |"answer"| == 6;
  }

  lemma Held(cfg: Config) returns (past: seq<Step>, row: Run)
    requires cfg.maxAttempts >= 2
    ensures IsHeld(After(EMPTY_DB, past, cfg), row, cfg)
  {
    past := [CREATE, SUBMIT];
    MessageWaits(cfg);
    var db := After(EMPTY_DB, past, cfg);
    AfterOne(EMPTY_DB, past, Claim(RUN, 0), cfg);
    past := past + [Claim(RUN, 0)];
    row := Claimed(db, RUN, 0, cfg).runs[RUN];
  }

  /** Two workers, one after the other's lease: a completed run becomes a failed one. */
  lemma CompletedRunFails(cfg: Config) returns (past: seq<Step>, late: Step)
    requires cfg.maxAttempts >= 2
    ensures var db := After(EMPTY_DB, past, cfg);
      && RUN in db.runs && db.runs[RUN].status == Completed
      && RUN in Apply(db, late, cfg).runs && Apply(db, late, cfg).runs[RUN].status == Failed
  {
    var row;
    past, row := Held(cfg);
    var db, now := After(EMPTY_DB, past, cfg), cfg.leaseMs;
    late := Fail(RUN, "CONNECTOR_EXECUTION_FAILED", now);
    hide After;
    AfterMore(EMPTY_DB, past, [Claim(RUN, now), Complete(RUN, now)], cfg);
    TakenOverAndCompleted(db, row, cfg);
    past := past + [Claim(RUN, now), Complete(RUN, now)];
    TerminalStatusChangesTo(After(EMPTY_DB, past, cfg), late, cfg);
  }

  lemma TakenOverAndCompleted(db: Db, row: Run, cfg: Config)
    requires cfg.maxAttempts >= 2 && IsHeld(db, row, cfg)
    ensures var next := After(db, [Claim(RUN, cfg.leaseMs), Complete(RUN, cfg.leaseMs)], cfg);
      RUN in next.runs && next.runs[RUN].status == Completed
  {
    var steps := [Claim(RUN, cfg.leaseMs), Complete(RUN, cfg.leaseMs)];
    assert Claims(db, steps[0], cfg);
    AfterTwo(db, steps[0], steps[1], cfg);
  }

  lemma TerminalStatusChangesTo(db: Db, late: Step, cfg: Config)
    requires RUN in db.runs && late.Fail? && late.run == RUN
    ensures RUN in Apply(db, late, cfg).runs && Apply(db, late, cfg).runs[RUN].status == Failed
  {}

  /** The first worker asks for a handoff and loses its lease, the second fails the run, which closes the
      handoff, and then the first asks for contact. */
  lemma FailedRunsHandoffReopens(cfg: Config, handoff: Id, request: Id) returns (past: seq<Step>, late: Step)
    requires cfg.maxAttempts >= 2
    ensures var db := After(EMPTY_DB, past, cfg); var next := Apply(db, late, cfg);
      && RUN in db.runs && db.runs[RUN].status == Failed && handoff in db.handoffs && db.handoffs[handoff].runId == RUN
      && db.handoffs[handoff].status == HandoffFailed
      && handoff in next.handoffs && next.handoffs[handoff].status == AwaitingContact && next.runs == db.runs
  {
    var row;
    past, row := Held(cfg);
    var db := After(EMPTY_DB, past, cfg);
    var more := [Materialize(RUN, HandoffRequested(handoff), 0), Claim(RUN, cfg.leaseMs), Fail(RUN, "lost", cfg.leaseMs)];
    late := Materialize(RUN, ContactRequested(request), cfg.leaseMs);
    hide After;
    AfterMore(EMPTY_DB, past, more, cfg);
    FailedWithHandoff(db, row, handoff, cfg);
    past := past + more;
    ContactReopens(After(EMPTY_DB, past, cfg), handoff, request, cfg);
  }

  lemma FailedWithHandoff(db: Db, row: Run, handoff: Id, cfg: Config)
    requires cfg.maxAttempts >= 2 && IsHeld(db, row, cfg)
    ensures var more := [Materialize(RUN, HandoffRequested(handoff), 0), Claim(RUN, cfg.leaseMs), Fail(RUN, "lost", cfg.leaseMs)];
      var next := After(db, more, cfg);
      && RUN in next.runs && next.runs[RUN].status == Failed && next.inputs == map[]
      && next.handoffs == map[handoff := Handoff(CHAT, RUN, Human, HandoffFailed)]
  {
    var more := [Materialize(RUN, HandoffRequested(handoff), 0), Claim(RUN, cfg.leaseMs), Fail(RUN, "lost", cfg.leaseMs)];
    var asked := Apply(db, more[0], cfg);
    assert asked == db.(handoffs := map[handoff := Handoff(CHAT, RUN, Human, Requested)]);
    assert Claims(asked, more[1], cfg);
    var taken := Apply(asked, more[1], cfg);
    assert more[1..][0] == more[1] && more[1..][1..] == [more[2]] && [more[2]][1..] == [];
    assert After(db, more, cfg) == After(taken, [more[2]], cfg);
    assert After(taken, [more[2]], cfg) == FailedRun(taken, RUN, "lost", cfg.leaseMs);
  }

  lemma ContactReopens(db: Db, handoff: Id, request: Id, cfg: Config)
    requires RUN in db.runs && db.inputs == map[] && db.handoffs == map[handoff := Handoff(CHAT, RUN, Human, HandoffFailed)]
    ensures var next := Apply(db, Materialize(RUN, ContactRequested(request), cfg.leaseMs), cfg);
      handoff in next.handoffs && next.handoffs[handoff].status == AwaitingContact && next.runs == db.runs
  {
    assert HasHandoff(db, RUN) by { assert db.handoffs[handoff].runId == RUN; }
  }

  // ---------------------------------------------------------------- asking the same again

  /** The run has asked for contact and been answered, and a worker has it again. */
  predicate IsAnswered(db: Db, handoff: Id, request: Id) {
    && RUN in db.runs && db.runs[RUN].status == Running
    && handoff in db.handoffs && db.handoffs[handoff].runId == RUN
    && db.inputs.Keys == {request} && db.inputs[request].runId == RUN && db.inputs[request].status == Submitted
  }

  /** A connector asks for contact, is answered, and asks under the same request identifier again: its run waits for ever. */
  lemma AskingAgainIsStuck(cfg: Config, handoff: Id, request: Id, email: string) returns (steps: seq<Step>)
    requires cfg.maxAttempts >= 2 && email != ""
    ensures IsStuck(After(EMPTY_DB, steps, cfg), RUN)
  {
    var past, row := Held(cfg);
    var db := After(EMPTY_DB, past, cfg);
    var asking, answering, again := Asking(handoff, request), Answering(request, email), AskingAgain(request);
    hide After;
    AsksAndWaits(db, row, handoff, request, cfg);
    AnsweredAndClaimed(After(db, asking, cfg), handoff, request, email, cfg);
    WaitsAgain(After(After(db, asking, cfg), answering, cfg), handoff, request, cfg);
    AfterMore(EMPTY_DB, past, asking, cfg);
    AfterMore(EMPTY_DB, past + asking, answering, cfg);
    AfterMore(EMPTY_DB, past + asking + answering, again, cfg);
    steps := past + asking + answering + again;
  }

  function Asking(handoff: Id, request: Id): seq<Step> {
    [Materialize(RUN, HandoffRequested(handoff), 0), Materialize(RUN, ContactRequested(request), 0), WaitForInput(RUN)]
  }

  function Answering(request: Id, email: string): seq<Step> {
    [Do(SubmitInput(USER, "answer", CHAT, request, Some(email), 1)), Claim(RUN, 1)]
  }

  function AskingAgain(request: Id): seq<Step> { [Materialize(RUN, ContactRequested(request), 1), WaitForInput(RUN)] }

  predicate IsWaiting(db: Db, handoff: Id, request: Id, cfg: Config) {
    && RUN in db.runs && db.runs[RUN].status == WaitingForInput && db.runs[RUN].attempt == 1 && Owns(db, USER, CHAT)
    && handoff in db.handoffs && db.handoffs[handoff].runId == RUN
    && db.inputs == map[request := Input(CHAT, RUN, InputPending, None, None, None, 0)]
    && forall key <- db.keys :: key.operation.CreateConversationOp? || key.operation.CreateMessageOp?
  }

  lemma AsksAndWaits(db: Db, row: Run, handoff: Id, request: Id, cfg: Config)
    requires IsHeld(db, row, cfg)
    ensures IsWaiting(After(db, Asking(handoff, request), cfg), handoff, request, cfg)
  {
    var steps := Asking(handoff, request);
    var asked := Apply(db, steps[0], cfg);
    assert asked == db.(handoffs := map[handoff := Handoff(CHAT, RUN, Human, Requested)]);
    assert HasHandoff(asked, RUN) by { assert asked.handoffs[handoff].runId == RUN; }
    var contacted := Apply(asked, steps[1], cfg);
    assert contacted == AskedForContact(asked, RUN, request, 0).value;
    var waiting := Apply(contacted, steps[2], cfg);
    assert steps[1..][0] == steps[1] && steps[1..][1..] == [steps[2]] && [steps[2]][1..] == [];
    assert After(db, steps, cfg) == After(contacted, [steps[2]], cfg) == waiting;
  }

  lemma AnsweredAndClaimed(db: Db, handoff: Id, request: Id, email: string, cfg: Config)
    requires cfg.maxAttempts >= 2 && email != "" && IsWaiting(db, handoff, request, cfg)
    ensures IsAnswered(After(db, Answering(request, email), cfg), handoff, request)
  {
    var steps := Answering(request, email);
    assert KeyOf(steps[0].command) !in db.keys;
    var answered := Apply(db, steps[0], cfg);
    assert answered == InputSubmitted(db, steps[0].command).db;
    assert Claims(answered, steps[1], cfg);
    var taken := Apply(answered, steps[1], cfg);
    AfterTwo(db, steps[0], steps[1], cfg);
  }

  lemma WaitsAgain(db: Db, handoff: Id, request: Id, cfg: Config)
    requires IsAnswered(db, handoff, request)
    ensures IsStuck(After(db, AskingAgain(request), cfg), RUN)
  {
    var steps := AskingAgain(request);
    assert HasHandoff(db, RUN) by { assert db.handoffs[handoff].runId == RUN; }
    assert !CanBeAnswered(db, RUN);
    PauseCanBeAnsweredIff(db, RUN, request, 1);
    var asked := AskedForContact(db, RUN, request, 1).value;
    assert Apply(db, steps[0], cfg) == asked && Apply(asked, steps[1], cfg) == Waiting(asked, RUN).value;
    AfterTwo(db, steps[0], steps[1], cfg);
  }
}
