/** What every reachable state of the tables keeps: gapless message numbers, the pairing of
    messages, runs and keys, and the references between rows. */
module ChatIntegrity {
  import opened Wrappers
  import opened ChatDatabase
  import opened RunLifecycle

  // ---------------------------------------------------------------- message numbers

  ghost predicate HasNumber(messages: map<Id, Message>, c: Id, k: nat) {
    exists m <- messages :: messages[m].conversationId == c && messages[m].sequence == k
  }

  predicate Placed(conversations: map<Id, Conversation>, m: Message) {
    m.conversationId in conversations && 1 <= m.sequence < conversations[m.conversationId].nextMessageSequence
  }

  predicate SamePlace(a: Message, b: Message) { a.conversationId == b.conversationId && a.sequence == b.sequence }

  /** Each conversation holds each of the numbers 1 up to its next one exactly once. */
  ghost predicate Numbered(conversations: map<Id, Conversation>, messages: map<Id, Message>) {
    && (forall m <- messages :: Placed(conversations, messages[m]))
    && (forall m <- messages, n <- messages :: SamePlace(messages[m], messages[n]) ==> m == n)
    && (forall c <- conversations, k: nat :: 1 <= k < conversations[c].nextMessageSequence ==> HasNumber(messages, c, k))
    && (forall c <- conversations :: conversations[c].nextMessageSequence >= 1)
  }

  predicate SameMessages(a: map<Id, Message>, b: map<Id, Message>) {
    a.Keys == b.Keys && forall m <- a :: SamePlace(a[m], b[m]) && a[m].role == b[m].role
  }

  lemma NumbersOfSame(conversations: map<Id, Conversation>, a: map<Id, Message>, b: map<Id, Message>)
    requires Numbered(conversations, a) && SameMessages(a, b)
    ensures Numbered(conversations, b)
  {
    forall c, k: nat | c in conversations && 1 <= k < conversations[c].nextMessageSequence ensures HasNumber(b, c, k) {
      assert HasNumber(a, c, k);
      var m :| m in a && a[m].conversationId == c && a[m].sequence == k;
      assert SamePlace(a[m], b[m]);
    }
  }

  lemma NumberTaken(conversations: map<Id, Conversation>, messages: map<Id, Message>, m: Id, message: Message)
    requires Numbered(conversations, messages) && m !in messages && message.conversationId in conversations
    requires message.sequence == conversations[message.conversationId].nextMessageSequence
    ensures Numbered(Bumped(conversations, message.conversationId), messages[m := message])
  {
    var c' := message.conversationId;
    var after := messages[m := message];
    var bumped := Bumped(conversations, c');
    forall c, k: nat | c in bumped && 1 <= k < bumped[c].nextMessageSequence ensures HasNumber(after, c, k) {
      if c == c' && k == message.sequence {
        assert after[m] == message;
      } else {
        assert HasNumber(messages, c, k);
        var n :| n in messages && messages[n].conversationId == c && messages[n].sequence == k;
        assert after[n] == messages[n];
      }
    }
    forall n | n in messages ensures Placed(bumped, messages[n]) && !SamePlace(messages[n], message) {
      assert Placed(conversations, messages[n]);
    }
  }

  lemma NumbersOfNewConversation(conversations: map<Id, Conversation>, messages: map<Id, Message>, c: Id, conversation: Conversation)
    requires Numbered(conversations, messages) && c !in conversations && conversation.nextMessageSequence == 1
    ensures Numbered(conversations[c := conversation], messages)
  {
    forall m | m in messages ensures Placed(conversations[c := conversation], messages[m]) {
      assert Placed(conversations, messages[m]);
    }
  }

  lemma NumbersAfterDelete(conversations: map<Id, Conversation>, messages: map<Id, Message>, kept: map<Id, Message>, c: Id)
    requires Numbered(conversations, messages)
    requires kept == map m | m in messages && messages[m].conversationId != c :: messages[m]
    ensures Numbered(conversations - {c}, kept)
  {
    forall m | m in kept ensures Placed(conversations - {c}, kept[m]) {
      assert Placed(conversations, messages[m]);
    }
    forall d, k: nat | d in conversations - {c} && 1 <= k < conversations[d].nextMessageSequence ensures HasNumber(kept, d, k) {
      assert HasNumber(messages, d, k);
      var m :| m in messages && messages[m].conversationId == d && messages[m].sequence == k;
      assert m in kept && kept[m] == messages[m];
    }
  }

  // ---------------------------------------------------------------- messages and runs in pairs

  ghost predicate TriggersRun(runs: map<Id, Run>, m: Id) {
    exists r <- runs :: runs[r].trigger == MessageTrigger && runs[r].triggerMessageId == m
  }

  ghost predicate AnswersRun(runs: map<Id, Run>, m: Id) {
    exists r <- runs :: runs[r].assistantMessageId == m
  }

  predicate RunFits(messages: map<Id, Message>, run: Run) {
    && run.triggerMessageId in messages && messages[run.triggerMessageId].role == User
    && messages[run.triggerMessageId].conversationId == run.conversationId
    && (run.assistantMessageId in messages ==>
          messages[run.assistantMessageId].role == Assistant
          && messages[run.assistantMessageId].conversationId == run.conversationId)
  }

  predicate SameTrigger(a: Run, b: Run) {
    a.trigger == MessageTrigger && b.trigger == MessageTrigger && a.triggerMessageId == b.triggerMessageId
  }

  /** User messages and message-triggered runs in one-to-one correspondence, and every assistant
      message the answer of one run, which has no other. */
  ghost predicate Paired(messages: map<Id, Message>, runs: map<Id, Run>) {
    && (forall r <- runs :: RunFits(messages, runs[r]))
    && (forall m <- messages :: HasRun(runs, m, messages[m].role))
    && Distinct(runs)
  }

  ghost predicate HasRun(runs: map<Id, Run>, m: Id, role: Role) {
    if role == User then TriggersRun(runs, m) else AnswersRun(runs, m)
  }

  predicate Distinct(runs: map<Id, Run>) {
    && (forall r <- runs, q <- runs :: SameTrigger(runs[r], runs[q]) ==> r == q)
    && (forall r <- runs, q <- runs :: runs[r].assistantMessageId == runs[q].assistantMessageId ==> r == q)
  }

  lemma DistinctAdded(runs: map<Id, Run>, r: Id, run: Run)
    requires Distinct(runs) && r !in runs
    requires forall q <- runs :: runs[q].assistantMessageId != run.assistantMessageId && !SameTrigger(runs[q], run)
    ensures Distinct(runs[r := run])
  {}

  predicate SameRuns(a: map<Id, Run>, b: map<Id, Run>) {
    a.Keys == b.Keys && forall r <- a :: SameOrigin(a[r], b[r])
  }

  lemma PairsOfSame(messages: map<Id, Message>, runs: map<Id, Run>, messages': map<Id, Message>, runs': map<Id, Run>)
    requires Paired(messages, runs) && SameMessages(messages, messages') && SameRuns(runs, runs')
    ensures Paired(messages', runs')
  {
    forall m | m in messages'
      ensures HasRun(runs', m, messages'[m].role)
    {
      if messages[m].role == User {
        assert TriggersRun(runs, m);
        var r :| r in runs && runs[r].trigger == MessageTrigger && runs[r].triggerMessageId == m;
        assert SameOrigin(runs[r], runs'[r]);
      } else {
        assert AnswersRun(runs, m);
        var r :| r in runs && runs[r].assistantMessageId == m;
        assert SameOrigin(runs[r], runs'[r]);
      }
    }
    forall r | r in runs' ensures RunFits(messages', runs'[r]) {
      assert RunFits(messages, runs[r]);
    }
    DistinctOfSame(runs, runs');
  }

  lemma DistinctOfSame(runs: map<Id, Run>, runs': map<Id, Run>)
    requires Distinct(runs) && SameRuns(runs, runs')
    ensures Distinct(runs')
  {
    forall r, q | r in runs' && q in runs' && SameTrigger(runs'[r], runs'[q]) ensures r == q {
      assert SameTrigger(runs[r], runs[q]);
    }
    forall r, q | r in runs' && q in runs' && runs'[r].assistantMessageId == runs'[q].assistantMessageId ensures r == q {
      assert runs[r].assistantMessageId == runs[q].assistantMessageId;
    }
  }

  lemma StillHasRun(runs: map<Id, Run>, m: Id, role: Role, r: Id, run: Run)
    requires r !in runs && HasRun(runs, m, role)
    ensures HasRun(runs[r := run], m, role)
  {
    if role == User {
      var q :| q in runs && runs[q].trigger == MessageTrigger && runs[q].triggerMessageId == m;
      assert runs[r := run][q] == runs[q];
    } else {
      var q :| q in runs && runs[q].assistantMessageId == m;
      assert runs[r := run][q] == runs[q];
    }
  }

  lemma PairAdded(messages: map<Id, Message>, runs: map<Id, Run>, m: Id, message: Message, r: Id, run: Run)
    requires Paired(messages, runs) && m !in messages && r !in runs
    requires message.role == User && run.trigger == MessageTrigger && run.triggerMessageId == m
    requires run.conversationId == message.conversationId && run.assistantMessageId !in messages && run.assistantMessageId != m
    requires forall q <- runs :: runs[q].assistantMessageId != run.assistantMessageId && runs[q].assistantMessageId != m
    ensures Paired(messages[m := message], runs[r := run])
  {
    var runs' := runs[r := run];
    var messages' := messages[m := message];
    assert runs'[r] == run;
    assert TriggersRun(runs', m);
    assert Distinct(runs') by {
      forall q | q in runs ensures !SameTrigger(runs[q], run) {
        assert RunFits(messages, runs[q]);
      }
      DistinctAdded(runs, r, run);
    }
    forall n | n in messages
      ensures HasRun(runs', n, messages'[n].role)
    {
      assert n != m;
      StillHasRun(runs, n, messages[n].role, r, run);
    }
    forall q | q in runs' ensures RunFits(messages', runs'[q]) {
      if q != r { assert RunFits(messages, runs[q]); }
    }
  }

  lemma AnswerAdded(messages: map<Id, Message>, runs: map<Id, Run>, r: Id, message: Message)
    requires Paired(messages, runs) && r in runs && runs[r].assistantMessageId !in messages
    requires message.role == Assistant && message.conversationId == runs[r].conversationId
    ensures Paired(messages[runs[r].assistantMessageId := message], runs)
  {
    assert AnswersRun(runs, runs[r].assistantMessageId);
    forall q | q in runs ensures RunFits(messages[runs[r].assistantMessageId := message], runs[q]) {
      assert RunFits(messages, runs[q]);
    }
  }

  lemma EmailRunAdded(messages: map<Id, Message>, runs: map<Id, Run>, r: Id, run: Run)
    requires Paired(messages, runs) && r !in runs && run.trigger == EmailHandoffTrigger
    requires RunFits(messages, run) && run.assistantMessageId !in messages
    requires forall q <- runs :: runs[q].assistantMessageId != run.assistantMessageId
    ensures Paired(messages, runs[r := run])
  {
    DistinctAdded(runs, r, run);
    forall m | m in messages
      ensures HasRun(runs[r := run], m, messages[m].role)
    {
      StillHasRun(runs, m, messages[m].role, r, run);
    }
  }

  lemma PairsAfterDelete(messages: map<Id, Message>, runs: map<Id, Run>, messages': map<Id, Message>, runs': map<Id, Run>, c: Id)
    requires Paired(messages, runs)
    requires messages' == map m | m in messages && messages[m].conversationId != c :: messages[m]
    requires runs' == map r | r in runs && runs[r].conversationId != c :: runs[r]
    ensures Paired(messages', runs')
  {
    forall m | m in messages'
      ensures HasRun(runs', m, messages'[m].role)
    {
      if messages[m].role == User {
        assert TriggersRun(runs, m);
        var r :| r in runs && runs[r].trigger == MessageTrigger && runs[r].triggerMessageId == m;
        assert RunFits(messages, runs[r]);
        assert r in runs' && runs'[r] == runs[r];
      } else {
        assert AnswersRun(runs, m);
        var r :| r in runs && runs[r].assistantMessageId == m;
        assert RunFits(messages, runs[r]);
        assert r in runs' && runs'[r] == runs[r];
      }
    }
    forall r | r in runs' ensures RunFits(messages', runs'[r]) {
      assert RunFits(messages, runs[r]);
    }
  }

  // ---------------------------------------------------------------- references between rows

  predicate HandoffFits(runs: map<Id, Run>, h: Handoff) {
    h.runId in runs && runs[h.runId].conversationId == h.conversationId
  }

  predicate InputFits(runs: map<Id, Run>, i: Input) {
    i.runId in runs && runs[i.runId].conversationId == i.conversationId
  }

  /** Every foreign key, and the unique constraint on the run of a handoff. */
  predicate Linked(conversations: map<Id, Conversation>, runs: map<Id, Run>, handoffs: map<Id, Handoff>, inputs: map<Id, Input>) {
    && (forall r <- runs :: runs[r].conversationId in conversations)
    && (forall h <- handoffs :: HandoffFits(runs, handoffs[h]))
    && (forall h <- handoffs, g <- handoffs :: handoffs[h].runId == handoffs[g].runId ==> h == g)
    && (forall i <- inputs :: InputFits(runs, inputs[i]))
  }

  predicate SameHandoffs(a: map<Id, Handoff>, b: map<Id, Handoff>) {
    a.Keys == b.Keys && forall h <- a :: a[h].runId == b[h].runId && a[h].conversationId == b[h].conversationId
  }

  predicate SameInputs(a: map<Id, Input>, b: map<Id, Input>) {
    a.Keys == b.Keys && forall i <- a :: a[i].runId == b[i].runId && a[i].conversationId == b[i].conversationId
  }

  // ---------------------------------------------------------------- the resolution check

  /** The check constraint on inputs, and that a submitted value is never empty. */
  predicate Resolution(i: Input) {
    match i.status
    case InputPending => i.value.None? && i.consent.None? && i.consentRecordedAt.None?
    case Submitted => i.value.Some? && i.value != Some("") && i.consent == Some(Granted) && i.consentRecordedAt.Some?
    case Declined => i.value.None? && i.consent == Some(Withheld) && i.consentRecordedAt.Some?
    case Expired => true
  }

  predicate Resolutions(inputs: map<Id, Input>) { forall i <- inputs :: Resolution(inputs[i]) }

  /** What loading a run's context makes of a resolved input; `Failure` where the program throws. */
  datatype LoadedInput = LoadedInput(value: Option<string>, recordedAt: Time)

  function Load(i: Input): Result<LoadedInput, string> {
    if i.consentRecordedAt.None? || i.consent.None? then Failure("Resolved input is missing its consent decision.")
    else if i.status == Submitted && i.value.Some? && i.value.value != "" && i.consent.value == Granted
      then Success(LoadedInput(i.value, i.consentRecordedAt.value))
    else if i.status == Declined && i.consent.value == Withheld then Success(LoadedInput(None, i.consentRecordedAt.value))
    else Failure("Resolved input has an inconsistent consent decision.")
  }
}
