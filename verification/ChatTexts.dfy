/** What the rows hold after whole runs of the system: the texts that users submitted, the texts that
    connectors reported, and the answers to inputs. */
module ChatTexts {
  import opened Wrappers
  import opened ChatDatabase
  import opened RunLifecycle
  import opened ChatIntegrity
  import opened ChatInvariants
  import opened RowHistories

  lemma {:induction false} AlwaysIssued(trace: seq<Step>, cfg: Config)
    ensures Issued(After(EMPTY_DB, trace, cfg))
    decreases |trace|
  {
    if trace != [] {
      var last := |trace| - 1;
      AlwaysIssued(trace[..last], cfg);
      LastStep(EMPTY_DB, trace, cfg);
      hide After, Issued;
      IssuedKept(After(EMPTY_DB, trace[..last], cfg), trace[last], cfg);
    } else {
      assert After(EMPTY_DB, [], cfg) == EMPTY_DB;
    }
  }

  lemma LastStep(db: Db, trace: seq<Step>, cfg: Config)
    requires trace != []
    ensures var last := |trace| - 1; After(db, trace, cfg) == Apply(After(db, trace[..last], cfg), trace[last], cfg)
  {
    var last := |trace| - 1;
    assert trace == trace[..last] + [trace[last]];
    AfterOne(db, trace[..last], trace[last], cfg);
  }

  // ---------------------------------------------------------------- the text of a message

  /** A reported text is stored, in full and in no other place: the run's answer is completed with exactly it. */
  lemma ReportedTextIsStored(trace: seq<Step>, run: Id, parts: string, now: Time, cfg: Config)
    ensures var db, next := After(EMPTY_DB, trace, cfg), After(EMPTY_DB, trace + [Materialize(run, MessageFinished(parts), now)], cfg);
      if run in db.runs && db.runs[run].assistantMessageId in db.messages then
        var m := db.runs[run].assistantMessageId;
        next == db.(messages := db.messages[m := db.messages[m].(status := MessageCompleted, parts := parts)])
      else next == db
  {
    AfterOne(EMPTY_DB, trace, Materialize(run, MessageFinished(parts), now), cfg);
    hide After;
  }

  /** The text last told of a message since its row was made. */
  function TextTold(trace: seq<Step>, cfg: Config, m: Id): string
    decreases |trace|
  {
    if trace == [] then ""
    else
      var step, before := trace[|trace| - 1], trace[..|trace| - 1];
      var db := After(EMPTY_DB, before, cfg);
      if m !in db.messages then
        if step.Do? && step.command.SubmitMessage? && step.command.messageId == m then step.command.parts else ""
      else if step.Materialize? && step.event.MessageFinished? && step.run in db.runs && db.runs[step.run].assistantMessageId == m
        then step.event.parts
      else TextTold(before, cfg, m)
  }

  /** Every message holds the text last told of it: what its user submitted, or what the connector of its
      run reported last, or nothing yet. */
  lemma {:induction false} TextIsLastTold(trace: seq<Step>, cfg: Config, m: Id)
    requires m in After(EMPTY_DB, trace, cfg).messages
    ensures After(EMPTY_DB, trace, cfg).messages[m].parts == TextTold(trace, cfg, m)
    decreases |trace|
  {
    assert trace != [];
    var last := |trace| - 1;
    var db := After(EMPTY_DB, trace[..last], cfg);
    LastStep(EMPTY_DB, trace, cfg);
    AlwaysIssued(trace[..last], cfg);
    hide After, Issued, Apply;
    MessageAfterStep(db, trace[last], cfg, m);
    if m in db.messages { TextIsLastTold(trace[..last], cfg, m); }
  }

  // ---------------------------------------------------------------- what a submitted message leaves

  /** The rows of an accepted message: the next number and the text to the message, and the message and the
      time to its run. */
  lemma SubmittedRows(trace: seq<Step>, c: Command, cfg: Config)
    requires c.SubmitMessage? && KeyOf(c) !in After(EMPTY_DB, trace, cfg).keys && !Execute(After(EMPTY_DB, trace, cfg), c).reply.Refused?
    ensures var db, next := After(EMPTY_DB, trace, cfg), After(EMPTY_DB, trace + [Do(c)], cfg);
      && Execute(db, c).reply == Resource(c.messageId)
      && c.conversationId in db.conversations && c.messageId !in db.messages && c.runId !in db.runs
      && RowIs(next.messages, c.messageId,
           Some(Message(c.conversationId, db.conversations[c.conversationId].nextMessageSequence, User, MessageCompleted, c.parts)))
      && RowIs(next.runs, c.runId,
           Some(Run(c.conversationId, c.messageId, MessageTrigger, c.assistantMessageId, Queued, 0, c.now, c.now, None, None, None, None)))
  {
    var db := After(EMPTY_DB, trace, cfg);
    AfterOne(EMPTY_DB, trace, Do(c), cfg);
    AlwaysIssued(trace, cfg);
    hide After;
    AcceptedIff(db, c);
    MessageAfterStep(db, Do(c), cfg, c.messageId);
    RunAfterStep(db, Do(c), cfg, c.runId);
    hide Execute, Apply;
  }

  /** The place of a user's message: this row, or none for good. */
  predicate IsUsers(db: Db, m: Id, row: Message) {
    m in db.issued && (forall r <- db.runs :: db.runs[r].assistantMessageId != m) && (m in db.messages ==> db.messages[m] == row)
  }

  lemma StepKeepsUsers(db: Db, step: Step, cfg: Config, m: Id, row: Message)
    requires Issued(db) && IsUsers(db, m, row)
    ensures IsUsers(Apply(db, step, cfg), m, row)
  {
    IssuedKept(db, step, cfg);
    MessageAfterStep(db, step, cfg, m);
    hide Apply, Issued;
    var next := Apply(db, step, cfg);
    forall r | r in next.runs ensures next.runs[r].assistantMessageId != m { SameAnswerOf(db, step, cfg, r); }
  }

  lemma SameAnswerOf(db: Db, step: Step, cfg: Config, r: Id)
    requires Issued(db) && r in Apply(db, step, cfg).runs
    ensures var answer := Apply(db, step, cfg).runs[r].assistantMessageId;
      if r in db.runs then answer == db.runs[r].assistantMessageId else answer !in db.issued
  {
    RunAfterStep(db, step, cfg, r);
    hide Apply, Issued;
  }

  lemma {:induction false} UsersStay(db: Db, trace: seq<Step>, cfg: Config, m: Id, row: Message)
    requires Issued(db) && IsUsers(db, m, row)
    ensures IsUsers(After(db, trace, cfg), m, row)
    decreases |trace|
  {
    hide Apply, Issued;
    if trace != [] {
      IssuedKept(db, trace[0], cfg);
      StepKeepsUsers(db, trace[0], cfg, m, row);
      UsersStay(Apply(db, trace[0], cfg), trace[1..], cfg, m, row);
    }
  }

  /** A user's message is never changed: after any further steps it is as it was, or gone with its conversation. */
  lemma UserMessageStays(trace: seq<Step>, more: seq<Step>, cfg: Config, m: Id)
    requires m in After(EMPTY_DB, trace, cfg).messages && After(EMPTY_DB, trace, cfg).messages[m].role == User
    ensures var later := After(EMPTY_DB, trace + more, cfg).messages;
      m in later ==> later[m] == After(EMPTY_DB, trace, cfg).messages[m]
  {
    var db := After(EMPTY_DB, trace, cfg);
    AlwaysIssued(trace, cfg);
    AlwaysWhole(EMPTY_DB, trace, cfg);
    AfterMore(EMPTY_DB, trace, more, cfg);
    hide After;
    UsersPlace(db, m);
    UsersStay(db, more, cfg, m, db.messages[m]);
  }

  lemma UsersPlace(db: Db, m: Id)
    requires Whole(db) && m in db.messages && db.messages[m].role == User
    ensures IsUsers(db, m, db.messages[m])
  {
    forall r | r in db.runs ensures db.runs[r].assistantMessageId != m {
      assert RunFits(db.messages, db.runs[r]);
    }
  }

  // ---------------------------------------------------------------- the answer to an input

  predicate IsAnswered(db: Db, i: Id, row: Input) {
    i in db.inputs && (db.inputs[i] == row || (row.value.Some? && db.inputs[i] == row.(value := None, status := Expired)))
  }

  lemma StepKeepsAnswered(db: Db, step: Step, cfg: Config, i: Id, row: Input)
    requires IsAnswered(db, i, row) && row.status in {Submitted, Declined} && !step.DeleteConversation?
    ensures IsAnswered(Apply(db, step, cfg), i, row)
  {
    InputAfterEveryStep(db, step, cfg, i);
    hide Apply;
  }

  lemma {:induction false} AnsweredStays(db: Db, trace: seq<Step>, cfg: Config, i: Id, row: Input)
    requires IsAnswered(db, i, row) && row.status in {Submitted, Declined} && forall step <- trace :: !step.DeleteConversation?
    ensures IsAnswered(After(db, trace, cfg), i, row)
    decreases |trace|
  {
    hide Apply, IsAnswered;
    if trace != [] {
      StepKeepsAnswered(db, trace[0], cfg, i, row);
      AnsweredStays(Apply(db, trace[0], cfg), trace[1..], cfg, i, row);
    }
  }

  /** An accepted answer is what a worker loads from then on, with the time it was given, until it is redacted;
      nothing else becomes of it. */
  lemma GivenAnswerIsLoaded(db: Db, c: Command, more: seq<Step>, cfg: Config)
    requires c.SubmitInput? && KeyOf(c) !in db.keys && !Execute(db, c).reply.Refused?
    requires forall step <- more :: !step.DeleteConversation?
    ensures var later := After(Apply(db, Do(c), cfg), more, cfg).inputs;
      && c.requestId in later
      && (later[c.requestId].status != Expired ==>
            Load(later[c.requestId]) == Success(LoadedInput(c.answer, c.now))
            && later[c.requestId].status == if c.answer.Some? then Submitted else Declined)
  {
    AcceptedIff(db, c);
    InputAfterEveryStep(db, Do(c), cfg, c.requestId);
    var next := Apply(db, Do(c), cfg);
    hide Apply, Execute, After;
    AnsweredStays(next, more, cfg, c.requestId, next.inputs[c.requestId]);
  }
}
