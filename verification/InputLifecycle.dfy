/** Structured inputs: they are answered at most once, together with the run they hold up, and
    what a worker later loads always carries a consistent consent decision. */
module InputLifecycle {
  import opened Wrappers
  import opened ChatDatabase
  import opened RunLifecycle
  import opened ChatIntegrity

  // ---------------------------------------------------------------- what a step does to the inputs

  /** An answer given: the input it resolves. */
  predicate Resolves(db: Db, step: Step, i: Id) {
    && step.Do? && step.command.SubmitInput? && step.command.requestId == i
    && KeyOf(step.command) !in db.keys && InputSubmitted(db, step.command).reply.Resource?
  }

  predicate Asks(db: Db, step: Step, i: Id) {
    step.Materialize? && step.event == ContactRequested(i) && Materialized(db, step.run, step.event, step.now).Some?
  }

  function RedactedInput(input: Input, cutoff: Time): Input {
    if input.value.Some? && input.updatedAt < cutoff then input.(value := None, status := Expired) else input
  }

  predicate Adds(db: Db, step: Step, i: Id) {
    && step.Do? && step.command.CreateEmailHandoff? && step.command.handoffId == i
    && KeyOf(step.command) !in db.keys && EmailHandoffCreated(db, step.command).reply.Resource?
  }

  /** Where an input comes from and the only two ways it changes. */
  lemma InputAfterStep(db: Db, step: Step, cfg: Config, i: Id)
    ensures var next := Apply(db, step, cfg);
      if i in db.inputs then
        if Resolves(db, step, i) then i in next.inputs && next.inputs[i] == Answered(db.inputs[i], step.command.answer, step.command.now)
        else if step.Redact? then i in next.inputs && next.inputs[i] == RedactedInput(db.inputs[i], step.cutoff)
        else if step == DeleteConversation(db.inputs[i].conversationId) then i !in next.inputs
        else i in next.inputs && next.inputs[i] == db.inputs[i]
      else i in next.inputs ==>
        || (Asks(db, step, i) && next.inputs[i].status == InputPending && Resolution(next.inputs[i]))
        || (Adds(db, step, i) && Resolution(next.inputs[i]) && next.inputs[i].status == Submitted)
  {
    match step
    case Materialize(run, event, now) => InputAfterEvent(db, run, event, now, i);
    case Do(command) => InputAfterCommand(db, command, i);
    case Redact(_) =>
    case DeleteConversation(_) =>
    case ForgetKeys(_) =>
    case WorkerCancel(_, _) =>
    case Fail(_, _, _) =>
    case _ => LeasesLeaveInputs(db, step, cfg);
  }

  lemma LeasesLeaveInputs(db: Db, step: Step, cfg: Config)
    requires step.Claim? || step.Renew? || step.WaitForInput? || step.Complete?
    ensures Apply(db, step, cfg).inputs == db.inputs
  {}

  lemma InputAfterEvent(db: Db, run: Id, event: ConnectorEvent, now: Time, i: Id)
    ensures var next := OrSame(Materialized(db, run, event, now), db);
      if i in db.inputs then i in next.inputs && next.inputs[i] == db.inputs[i]
      else i in next.inputs ==>
        event == ContactRequested(i) && Materialized(db, run, event, now).Some?
        && next.inputs[i].status == InputPending && Resolution(next.inputs[i])
  {}

  lemma InputAfterCommand(db: Db, command: Command, i: Id)
    ensures var next := Execute(db, command).db;
      if i in db.inputs then
        i in next.inputs
        && next.inputs[i] == if Resolves(db, Do(command), i) then Answered(db.inputs[i], command.answer, command.now) else db.inputs[i]
      else i in next.inputs ==> Adds(db, Do(command), i) && Resolution(next.inputs[i]) && next.inputs[i].status == Submitted
  {
    if KeyOf(command) !in db.keys {
      match command
      case SubmitInput(_, _, _, _, _, _) => assert Effect(db, command) == InputSubmitted(db, command);
      case CreateEmailHandoff(_, _, _, _, _, _, _, _, _) => assert Effect(db, command) == EmailHandoffCreated(db, command);
      case CreateConversation(_, _, _, _) =>
      case SubmitMessage(_, _, _, _, _, _, _, _) =>
      case CancelRun(_, _, _, _, _) =>
    }
  }

  // ---------------------------------------------------------------- the resolution check

  lemma AnswerResolves(input: Input, answer: Option<string>, now: Time)
    requires answer != Some("")
    ensures Resolution(Answered(input, answer, now)) && Answered(input, answer, now).status in {Submitted, Declined}
  {}

  lemma StepKeepsResolutions(db: Db, step: Step, cfg: Config)
    requires Resolutions(db.inputs)
    ensures Resolutions(Apply(db, step, cfg).inputs)
  {
    forall i | i in Apply(db, step, cfg).inputs ensures Resolution(Apply(db, step, cfg).inputs[i]) {
      InputAfterStep(db, step, cfg, i);
      if i in db.inputs && Resolves(db, step, i) {
        AnswerResolves(db.inputs[i], step.command.answer, step.command.now);
      }
    }
  }

  lemma {:induction false} AlwaysResolutions(db: Db, trace: seq<Step>, cfg: Config)
    requires Resolutions(db.inputs)
    ensures Resolutions(After(db, trace, cfg).inputs)
    decreases |trace|
  {
    if trace != [] {
      StepKeepsResolutions(db, trace[0], cfg);
      AlwaysResolutions(Apply(db, trace[0], cfg), trace[1..], cfg);
    }
  }

  /** Whatever happened before, loading a run's resolved inputs meets neither consent error, and
      hands on exactly the values that were submitted. */
  lemma ResolvedInputsLoad(trace: seq<Step>, cfg: Config, i: Id)
    requires var inputs := After(EMPTY_DB, trace, cfg).inputs;
      i in inputs && (inputs[i].status == Submitted || inputs[i].status == Declined)
    ensures var input := After(EMPTY_DB, trace, cfg).inputs[i];
      && Load(input).Success? && Load(input).value.value == input.value
      && (input.value.Some? <==> input.status == Submitted)
  {
    AlwaysResolutions(EMPTY_DB, trace, cfg);
    assert Resolution(After(EMPTY_DB, trace, cfg).inputs[i]);
  }

  // ---------------------------------------------------------------- answered once, with the run

  predicate IsPending(db: Db, i: Id) { i in db.inputs && db.inputs[i].status == InputPending }

  /** An input leaves pending exactly by an accepted answer, and by nothing else. */
  lemma LeavesPendingByAnswer(db: Db, step: Step, cfg: Config, i: Id)
    requires Resolutions(db.inputs) && IsPending(db, i) && i in Apply(db, step, cfg).inputs
    ensures !IsPending(Apply(db, step, cfg), i) <==> Resolves(db, step, i)
  {
    InputAfterStep(db, step, cfg, i);
    assert Resolution(db.inputs[i]);
    if Resolves(db, step, i) {
      AnswerResolves(db.inputs[i], step.command.answer, step.command.now);
    }
  }

  lemma AnswerMovesRun(db: Db, step: Step, cfg: Config, i: Id)
    requires Resolves(db, step, i)
    ensures IsPending(db, i) && db.inputs[i].runId in db.runs && db.runs[db.inputs[i].runId].status == WaitingForInput
    ensures var r := db.inputs[i].runId; r in Apply(db, step, cfg).runs && Apply(db, step, cfg).runs[r].status == Queued
  {
    assert Apply(db, step, cfg) == InputSubmitted(db, step.command).db;
  }

  /** A waiting run is queued again in the very step that answers one of its pending inputs, and in no other. */
  lemma ResumedExactlyWhenAnswered(db: Db, step: Step, cfg: Config, r: Id)
    requires Issued(db) && r in db.runs && r in Apply(db, step, cfg).runs && db.runs[r].status == WaitingForInput
    ensures Apply(db, step, cfg).runs[r].status == Queued <==>
      exists i <- db.inputs :: IsPending(db, i) && db.inputs[i].runId == r && Resolves(db, step, i)
  {
    StepMoves(db, step, cfg, r);
    if Apply(db, step, cfg).runs[r].status == Queued {
      assert MoveOf(db, step, cfg, r) == Resume;
      assert Resolves(db, step, step.command.requestId);
    }
    forall i | i in db.inputs && Resolves(db, step, i) && db.inputs[i].runId == r
      ensures Apply(db, step, cfg).runs[r].status == Queued
    {
      AnswerMovesRun(db, step, cfg, i);
    }
  }

  /** An answer makes the run claimable again from then on, while it has attempts left. */
  lemma AnsweredIsClaimable(db: Db, step: Step, cfg: Config, i: Id, now: Time)
    requires Resolves(db, step, i) && now >= step.command.now && db.runs[db.inputs[i].runId].attempt < cfg.maxAttempts
    ensures Claims(Apply(db, step, cfg), Claim(db.inputs[i].runId, now), cfg)
  {
    assert Apply(db, step, cfg) == InputSubmitted(db, step.command).db;
  }

  /** An email handoff arrives answered: its run loads the address with the consent given, and starts
      from the user's latest message. */
  lemma EmailHandoffLoads(db: Db, command: Command)
    requires command.CreateEmailHandoff? && KeyOf(command) !in db.keys && Execute(db, command).reply.Resource?
    ensures var next := Execute(db, command).db;
      && command.handoffId in next.inputs && next.inputs[command.handoffId].runId == command.runId
      && Load(next.inputs[command.handoffId]) == Success(LoadedInput(Some(command.email), command.now))
      && command.runId in next.runs && IsLatestUserMessage(db, command.conversationId, next.runs[command.runId].triggerMessageId)
  {
    assert Execute(db, command) == EmailHandoffCreated(db, command);
  }

  /** After redaction no value older than the cutoff is left, and nothing else has changed. */
  lemma RedactionIsComplete(db: Db, cutoff: Time, i: Id)
    requires Resolutions(db.inputs) && i in db.inputs
    ensures var after := Redacted(db, cutoff).inputs[i];
      && (after.value.Some? <==> db.inputs[i].value.Some? && db.inputs[i].updatedAt >= cutoff)
      && (after != db.inputs[i] ==> db.inputs[i].updatedAt < cutoff && db.inputs[i].status != InputPending && after.status == Expired)
  {
    assert Resolution(db.inputs[i]);
  }

  function AnswerCount(db: Db, trace: seq<Step>, cfg: Config, i: Id): nat
    decreases |trace|
  {
    if trace == [] then 0
    else Count(Resolves(db, trace[0], i)) + AnswerCount(Apply(db, trace[0], cfg), trace[1..], cfg, i)
  }

  /** Once resolved an input is never pending again, so of all the answers in a run of the system
      at most one is accepted. Deleting a conversation frees its request identifiers, so it is left out. */
  lemma {:induction false} AnsweredAtMostOnce(db: Db, trace: seq<Step>, cfg: Config, i: Id)
    requires i in db.inputs && forall step <- trace :: !step.DeleteConversation?
    ensures i in After(db, trace, cfg).inputs
    ensures !IsPending(db, i) ==> !IsPending(After(db, trace, cfg), i)
    ensures AnswerCount(db, trace, cfg, i) <= Count(IsPending(db, i))
    decreases |trace|
  {
    if trace != [] {
      var next := Apply(db, trace[0], cfg);
      InputAfterStep(db, trace[0], cfg, i);
      if Resolves(db, trace[0], i) {
        AnswerMovesRun(db, trace[0], cfg, i);
        AnswerResolves(db.inputs[i], trace[0].command.answer, trace[0].command.now);
      }
      AnsweredAtMostOnce(next, trace[1..], cfg, i);
    }
  }

  // ---------------------------------------------------------------- waiting for an answer that cannot come

  predicate CanBeAnswered(db: Db, r: Id) { exists i <- db.inputs :: IsPending(db, i) && db.inputs[i].runId == r }

  /** When a worker asks for contact and pauses its run, there is something to answer if and only
      if the request identifier is new or the run had a pending input before. */
  lemma PauseCanBeAnsweredIff(db: Db, r: Id, requestId: Id, now: Time)
    requires r in db.runs && db.runs[r].status == Running && AskedForContact(db, r, requestId, now).Some?
    ensures var asked := AskedForContact(db, r, requestId, now).value;
      Waiting(asked, r).Some? && (CanBeAnswered(Waiting(asked, r).value, r) <==> requestId !in db.inputs || CanBeAnswered(db, r))
  {
    var asked := AskedForContact(db, r, requestId, now).value;
    var paused := Waiting(asked, r).value;
    assert paused.inputs == asked.inputs;
    if requestId !in db.inputs {
      assert IsPending(paused, requestId) && paused.inputs[requestId].runId == r;
    } else {
      assert paused.inputs == db.inputs;
      assert forall i :: IsPending(paused, i) <==> IsPending(db, i);
    }
  }

  predicate IsStuck(db: Db, r: Id) { r in db.runs && db.runs[r].status == WaitingForInput && !CanBeAnswered(db, r) }

  /** Steps that only a worker executing `r` takes, or retention. */
  predicate Touches(step: Step, r: Id) {
    || ((step.Materialize? || step.Complete? || step.WorkerCancel? || step.Fail?) && step.run == r)
    || step.DeleteConversation?
  }

  lemma StuckStep(db: Db, step: Step, cfg: Config, r: Id)
    requires Issued(db) && IsStuck(db, r) && !Touches(step, r)
    ensures r in Apply(db, step, cfg).runs && Apply(db, step, cfg).runs[r] == db.runs[r]
    ensures !CanBeAnswered(Apply(db, step, cfg), r)
  {
    var next := Apply(db, step, cfg);
    StepMoves(db, step, cfg, r);
    forall i | IsPending(next, i) ensures next.inputs[i].runId != r {
      InputAfterStep(db, step, cfg, i);
      if i !in db.inputs {
        assert Asks(db, step, i);
        AskedInputIsOwn(db, step, i);
      }
    }
  }

  lemma AskedInputIsOwn(db: Db, step: Step, i: Id)
    requires Asks(db, step, i) && i !in db.inputs
    ensures var next := Materialized(db, step.run, step.event, step.now).value; i in next.inputs && next.inputs[i].runId == step.run
  {}

  lemma CancelOfWaiting(db: Db, command: Command)
    requires command.CancelRun? && KeyOf(command) !in db.keys && Execute(db, command).reply.CancelOutcome?
    requires command.picked in db.runs && db.runs[command.picked].status == WaitingForInput
    ensures Execute(db, command).reply == CancelOutcome(command.picked, AlreadyFinished)
  {}

  /** Such a run waits forever: no command, no other worker and no redaction ever moves it. */
  lemma {:induction false} StuckRunStays(db: Db, trace: seq<Step>, cfg: Config, r: Id)
    requires Issued(db) && IsStuck(db, r) && forall step <- trace :: !Touches(step, r)
    ensures IsStuck(After(db, trace, cfg), r) && After(db, trace, cfg).runs[r] == db.runs[r]
    decreases |trace|
  {
    if trace != [] {
      StuckStep(db, trace[0], cfg, r);
      IssuedKept(db, trace[0], cfg);
      StuckRunStays(Apply(db, trace[0], cfg), trace[1..], cfg, r);
    }
  }

  /** And whenever its user asks to cancel it, the answer is that it had already finished. */
  lemma StuckRunCannotBeCancelled(db: Db, trace: seq<Step>, cfg: Config, r: Id, cancel: Command)
    requires Issued(db) && IsStuck(db, r) && forall step <- trace :: !Touches(step, r)
    requires cancel.CancelRun? && cancel.picked == r && KeyOf(cancel) !in After(db, trace, cfg).keys
    requires Execute(After(db, trace, cfg), cancel).reply.CancelOutcome?
    ensures Execute(After(db, trace, cfg), cancel).reply == CancelOutcome(r, AlreadyFinished)
  {
    StuckRunStays(db, trace, cfg, r);
    CancelOfWaiting(After(db, trace, cfg), cancel);
  }
}
