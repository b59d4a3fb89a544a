/** Commands that are retried: a key that was used once makes every repeat a step that changes
    nothing and repeats the first answer. */
module CommandRetries {
  import opened Wrappers
  import opened ChatDatabase
  import opened RunLifecycle
  import opened ChatInvariants

  predicate Accepted(db: Db, step: Step) { step.Do? && !Execute(db, step.command).reply.Refused? }

  lemma StepKeepsKey(db: Db, step: Step, cfg: Config, key: CommandKey)
    requires key in db.keys && !step.ForgetKeys?
    ensures key in Apply(db, step, cfg).keys && Apply(db, step, cfg).keys[key] == db.keys[key]
  {
    match step
    case Materialize(run, event, now) => EventsLeaveRuns(db, run, event, now);
    case Do(command) =>
      RefusedLeavesNothing(db, command);
      if KeyOf(command) !in db.keys && !Effect(db, command).reply.Refused? {
        EffectRecordsItsKey(db, command);
      }
    case Redact(_) =>
    case DeleteConversation(_) =>
    case WorkerCancel(_, _) =>
    case Fail(_, _, _) =>
    case _ => LeaseShapeKeys(db, step, cfg);
  }

  lemma LeaseShapeKeys(db: Db, step: Step, cfg: Config)
    requires step.Claim? || step.Renew? || step.WaitForInput? || step.Complete?
    ensures Apply(db, step, cfg).keys == db.keys
  {}

  lemma {:induction false} KeyStays(db: Db, trace: seq<Step>, cfg: Config, key: CommandKey)
    requires key in db.keys && forall step <- trace :: !step.ForgetKeys?
    ensures key in After(db, trace, cfg).keys && After(db, trace, cfg).keys[key] == db.keys[key]
    decreases |trace|
  {
    if trace != [] {
      StepKeepsKey(db, trace[0], cfg, key);
      KeyStays(Apply(db, trace[0], cfg), trace[1..], cfg, key);
    }
  }

  lemma AcceptedIsRecorded(db: Db, command: Command)
    requires !Execute(db, command).reply.Refused?
    ensures KeyOf(command) in Execute(db, command).db.keys
  {
    if KeyOf(command) !in db.keys {
      EffectRecordsItsKey(db, command);
    }
  }

  /** The trace without the commands whose key an earlier command of it had already used with success. */
  function WithoutRepeats(db: Db, trace: seq<Step>, cfg: Config, used: set<CommandKey>): seq<Step>
    decreases |trace|
  {
    if trace == [] then []
    else if trace[0].Do? && KeyOf(trace[0].command) in used then WithoutRepeats(db, trace[1..], cfg, used)
    else
      var now := if Accepted(db, trace[0]) then used + {KeyOf(trace[0].command)} else used;
      [trace[0]] + WithoutRepeats(Apply(db, trace[0], cfg), trace[1..], cfg, now)
  }

  /** Retries are stuttering steps: between any worker steps and other commands, dropping every
      repeat of an accepted command leaves the same database in the end. */
  lemma {:induction false} RepeatsStutter(db: Db, trace: seq<Step>, cfg: Config, used: set<CommandKey>)
    requires used <= db.keys.Keys && forall step <- trace :: !step.ForgetKeys?
    ensures After(db, WithoutRepeats(db, trace, cfg, used), cfg) == After(db, trace, cfg)
    decreases |trace|
  {
    if trace != [] {
      var step, rest := trace[0], trace[1..];
      var next := Apply(db, step, cfg);
      if step.Do? && KeyOf(step.command) in used {
        assert next == db;
        RepeatsStutter(db, rest, cfg, used);
      } else {
        var now := if Accepted(db, step) then used + {KeyOf(step.command)} else used;
        UsedKeysStay(db, step, cfg, used);
        RepeatsStutter(next, rest, cfg, now);
        var shorter := WithoutRepeats(next, rest, cfg, now);
        assert ([step] + shorter)[1..] == shorter;
      }
    }
  }

  lemma UsedKeysStay(db: Db, step: Step, cfg: Config, used: set<CommandKey>)
    requires used <= db.keys.Keys && !step.ForgetKeys?
    ensures (if Accepted(db, step) then used + {KeyOf(step.command)} else used) <= Apply(db, step, cfg).keys.Keys
  {
    forall key | key in used ensures key in Apply(db, step, cfg).keys {
      StepKeepsKey(db, step, cfg, key);
    }
    if Accepted(db, step) {
      AcceptedIsRecorded(db, step.command);
    }
  }

  // ---------------------------------------------------------------- the repeated answer

  /** The identifiers a command brings in are not empty. */
  predicate NamesRun(command: Command) { command.CancelRun? ==> command.picked.text != "" }

  lemma RecordedReply(db: Db, command: Command, again: Command)
    requires KeyOf(command) !in db.keys && !Effect(db, command).reply.Refused? && NamesRun(command)
    requires KeyOf(again) == KeyOf(command)
    ensures var row := Effect(db, command).db.keys[KeyOf(command)];
      if RequestOf(again) == RequestOf(command) then Repeated(row, again) == Effect(db, command).reply
      else Repeated(row, again) == Refused(IdempotencyConflict)
  {
    assert again.CancelRun? <==> command.CancelRun?;
    EffectRecordsItsKey(db, command);
    if command.CancelRun? {
      OutcomeRoundTrip(command.picked, OutcomeFor(db.runs[command.picked].status));
    }
  }

  /** However long after and whatever happened meanwhile, a repeat changes nothing; it gets the first
      answer if and only if it asks for the same, and a conflict otherwise. */
  lemma RepeatGetsFirstAnswer(db: Db, command: Command, trace: seq<Step>, cfg: Config, again: Command)
    requires KeyOf(command) !in db.keys && !Execute(db, command).reply.Refused? && NamesRun(command)
    requires KeyOf(again) == KeyOf(command) && forall step <- trace :: !step.ForgetKeys?
    ensures var after := After(Execute(db, command).db, trace, cfg);
      Execute(after, again) == Tx(after,
        if RequestOf(again) == RequestOf(command) then Execute(db, command).reply else Refused(IdempotencyConflict))
  {
    AcceptedIsRecorded(db, command);
    KeyStays(Execute(db, command).db, trace, cfg, KeyOf(command));
    RecordedReply(db, command, again);
  }

  // ---------------------------------------------------------------- the stored operation names

  function OperationText(op: Operation): string {
    match op
    case CreateConversationOp => "conversation:create"
    case CreateMessageOp(c) => "message:create:" + c.text
    case CancelRunOp(c) => "run:cancel:" + c.text
    case SubmitInputOp(c, r) => "structured-input:submit:" + (c.text + ":" + r.text)
    case CreateEmailHandoffOp(c) => "email-handoff:create:" + c.text
  }

  lemma Headings(op: Operation)
    ensures |OperationText(op)| > 0
    ensures OperationText(op)[0] == match op
      case CreateConversationOp => 'c' case CreateMessageOp(_) => 'm' case CancelRunOp(_) => 'r'
      case SubmitInputOp(_, _) => 's' case CreateEmailHandoffOp(_) => 'e'
  {}

  /** Different operations never share a stored name, so long as conversation identifiers have no colon. */
  lemma OperationNamesAreDistinct(a: Operation, b: Operation)
    requires a.SubmitInputOp? ==> ':' !in a.conversationId.text
    requires b.SubmitInputOp? ==> ':' !in b.conversationId.text
    requires OperationText(a) == OperationText(b)
    ensures a == b
  {
    Headings(a);
    Headings(b);
    match a
    case CreateConversationOp =>
    case CreateMessageOp(c) => SameRest("message:create:", c.text, b.conversationId.text);
    case CancelRunOp(c) => SameRest("run:cancel:", c.text, b.conversationId.text);
    case CreateEmailHandoffOp(c) => SameRest("email-handoff:create:", c.text, b.conversationId.text);
    case SubmitInputOp(c, r) =>
      SameRest("structured-input:submit:", c.text + ":" + r.text, b.conversationId.text + ":" + b.requestId.text);
      SamePair(c.text, r.text, b.conversationId.text, b.requestId.text);
  }

  lemma SameRest(heading: string, x: string, y: string)
    requires heading + x == heading + y
    ensures x == y
  {
    assert (heading + x)[|heading|..] == x && (heading + y)[|heading|..] == y;
  }

  lemma SamePair(a: string, b: string, c: string, d: string)
    requires ':' !in a && ':' !in c && a + ":" + b == c + ":" + d
    ensures a == c && b == d
  {
    var s := a + ":" + b;
    assert s[|a|] == ':' && s[|c|] == ':';
    assert forall k :: 0 <= k < |a| ==> s[k] in a;
    assert forall k :: 0 <= k < |c| ==> s[k] in c;
    assert s[..|a|] == a && s[..|c|] == c;
    assert s[|a| + 1..] == b && s[|c| + 1..] == d;
  }

  /** With a colon they can: wherever a text with two colons is split. */
  lemma ColonConfusesNames(a: string, b: string, c: string)
    ensures var one, other := SubmitInputOp(Id(a + ":" + b), Id(c)), SubmitInputOp(Id(a), Id(b + ":" + c));
      one != other && OperationText(one) == OperationText(other)
  {
    assert |a + ":" + b| > |a|;
    assert (a + ":" + b) + ":" + c == a + ":" + (b + ":" + c);
  }
}
