/** The worker as it is written: statements that change table rows one after the other, and a
    loop over a connector's events during which everybody else keeps working. */
module RunWorkers {
  import opened Wrappers
  import opened ChatDatabase
  import opened RunLifecycle
  import opened ChatStores
  import opened ChatIntegrity
  import opened ChatInvariants
  import opened WorkerConduct

  predicate NoLater(a: Run, b: Run) { a.availableAt < b.availableAt || (a.availableAt == b.availableAt && a.createdAt <= b.createdAt) }

  predicate FirstInLine(runs: map<Id, Run>, r: Id, now: Time, cfg: Config) {
    && r in runs && Claimable(runs[r], now, cfg)
    && forall q <- runs :: Claimable(runs[q], now, cfg) ==> NoLater(runs[r], runs[q])
  }

  datatype Handled = Continue | AtEnd | Caught

  datatype Look = GoOn | RowGone | CancelledIt

  datatype Outcome = Idle | Worked(run: Id) | Rejected(run: Id)

  predicate AtRest(db: Db, r: Id) {
    r in db.runs ==> db.runs[r].status in {Completed, WaitingForInput, Failed, Cancelled}
  }

  lemma SettledRests(db: Db, run: Id, code: string, now: Time)
    ensures AtRest(CompletedRun(db, run, now), run) && AtRest(CancelledRun(db, run, now), run) && AtRest(FailedRun(db, run, code, now), run)
  {}

  lemma WaitingRests(db: Db, run: Id)
    ensures Waiting(db, run).Some? ==> AtRest(Waiting(db, run).value, run)
  {}

  predicate OneHandoffPerRun(handoffs: map<Id, Handoff>) {
    forall a <- handoffs, b <- handoffs :: handoffs[a].runId == handoffs[b].runId ==> a == b
  }

  /** The account tells how the tables came about, and which batches of the supply were used up. */
  ghost predicate Tells(a: Account, tables: Db, others: seq<Batch>, supply: seq<Batch>) {
    Whole(tables) && tables == After(a.start, StepsOf(a.entries), a.cfg) && BatchesOf(a.entries) + others == supply
  }

  lemma TellsStart(a: Account, others: seq<Batch>)
    requires a.entries == [] && Whole(a.start)
    ensures Tells(a, a.start, others, others) && Statements(a) == 0 && !Stopped(a.entries)
  {
    assert BatchesOf([]) + others == others;
  }

  lemma TellsWait(a: Account, tables: Db, others: seq<Batch>, supply: seq<Batch>)
    requires Tells(a, tables, others, supply) && others != []
    ensures var b := Grown(a, [Waited(others[0])]);
      && Tells(b, After(tables, others[0].steps, a.cfg), others[1..], supply) && Statements(b) == Statements(a)
      && Stopped(b.entries) == (Stopped(a.entries) || others[0].aborts)
  {
    hide Whole, After, Statements, Stopped;
    WaitedNow(a, others[0]);
    AlwaysWhole(tables, others[0].steps, a.cfg);
    AfterMore(a.start, StepsOf(a.entries), others[0].steps, a.cfg);
    assert BatchesOf(a.entries) + others == BatchesOf(a.entries) + [others[0]] + others[1..];
  }

  lemma TellsStep(a: Account, tables: Db, others: seq<Batch>, supply: seq<Batch>, step: Step, next: Db)
    requires Tells(a, tables, others, supply) && next == Apply(tables, step, a.cfg)
    ensures var b := Grown(a, [Did(step)]);
      && Tells(b, next, others, supply) && Statements(b) == Statements(a) + 1 && Stopped(b.entries) == Stopped(a.entries)
      && DoesAt(b, |a.entries|, Statements(a), step) && TablesAt(b, |a.entries|) == tables && Does(b, Statements(a), step)
  {
    DidNow(a, step);
    StepKeepsWhole(tables, step, a.cfg);
    hide Whole, After, Statements, Stopped, DoesAt, TablesAt, Apply;
    AfterOne(a.start, StepsOf(a.entries), step, a.cfg);
    assert DoesAt(Grown(a, [Did(step)]), |a.entries|, Statements(a), step);
  }

  lemma TellsWrite(a: Account, tables: Db, others: seq<Batch>, supply: seq<Batch>, event: ConnectorEvent)
    requires Tells(a, tables, others, supply)
    ensures var step := Materialize(a.run, event, a.now); var b := Grown(a, [Did(step)]);
      && Tells(b, OrSame(Materialized(tables, a.run, event, a.now), tables), others, supply)
      && Statements(b) == Statements(a) + 1 && Stopped(b.entries) == Stopped(a.entries)
      && Writes(b, Statements(a), event, Materialized(tables, a.run, event, a.now).Some?)
  {
    var step := Materialize(a.run, event, a.now);
    hide Tells, Statements, DoesAt, TablesAt, Materialized, Stopped, Does, Writes;
    TellsStep(a, tables, others, supply, step, OrSame(Materialized(tables, a.run, event, a.now), tables));
    WroteThen(Grown(a, [Did(step)]), |a.entries|, Statements(a), event, tables);
  }

  lemma TellsPause(a: Account, tables: Db, others: seq<Batch>, supply: seq<Batch>)
    requires Tells(a, tables, others, supply)
    ensures var step := WaitForInput(a.run); var b := Grown(a, [Did(step)]);
      && Tells(b, OrSame(Waiting(tables, a.run), tables), others, supply)
      && Statements(b) == Statements(a) + 1 && Stopped(b.entries) == Stopped(a.entries)
      && Pauses(b, Statements(a), Waiting(tables, a.run).Some?)
  {
    var step := WaitForInput(a.run);
    hide Tells, Statements, DoesAt, TablesAt, Waiting, Stopped, Does, Pauses;
    TellsStep(a, tables, others, supply, step, OrSame(Waiting(tables, a.run), tables));
    PausedThen(Grown(a, [Did(step)]), |a.entries|, Statements(a), tables);
  }

  class RunWorker {
    const store: ChatStore
    const cfg: Config
    /** What others do, one batch for each time this worker waits. */
    var others: seq<Batch>
    /** The signal that stops the connector. */
    var aborted: bool
    /** This worker's waits and statements since its last claim. */
    ghost var journal: seq<Entry>

    constructor (store: ChatStore, cfg: Config, others: seq<Batch>)
      ensures this.store == store && this.cfg == cfg && this.others == others && !aborted && journal == []
    {
      this.store, this.cfg, this.others, aborted, journal := store, cfg, others, false, [];
    }

    // -------------------------------------------------------------- claim and lease

    /** Order by `available_at`, then `created_at`, and take the first. */
    method SelectCandidate(now: Time) returns (candidate: Option<Id>)
      ensures candidate.None? ==> forall r <- store.runs :: !Claimable(store.runs[r], now, cfg)
      ensures candidate.Some? ==> FirstInLine(store.runs, candidate.value, now, cfg)
    {
      candidate := None;
      var rest := store.runs.Keys;
      while rest != {}
        invariant rest <= store.runs.Keys
        invariant candidate.None? ==> forall q <- store.runs :: q in rest || !Claimable(store.runs[q], now, cfg)
        invariant candidate.Some? ==> candidate.value in store.runs && Claimable(store.runs[candidate.value], now, cfg)
        invariant candidate.Some? ==> forall q <- store.runs ::
          q in rest || (Claimable(store.runs[q], now, cfg) ==> NoLater(store.runs[candidate.value], store.runs[q]))
        decreases |rest|
      {
        var r :| r in rest;
        rest := rest - {r};
        if Claimable(store.runs[r], now, cfg) {
          if candidate.None? || !NoLater(store.runs[candidate.value], store.runs[r]) {
            candidate := Some(r);
          }
        }
      }
    }

    method Claim(now: Time) returns (claimed: Option<Id>)
      modifies store, this`journal
      ensures claimed.None? ==>
        && store.Tables() == old(store.Tables()) && journal == old(journal)
        && forall r <- store.runs :: !Claimable(store.runs[r], now, cfg)
      ensures claimed.Some? ==>
        && FirstInLine(old(store.runs), claimed.value, now, cfg)
        && store.Tables() == Claimed(old(store.Tables()), claimed.value, now, cfg)
        && journal == old(journal) + [Did(Step.Claim(claimed.value, now))]
    {
      claimed := SelectCandidate(now);
      if claimed.Some? {
        var run := store.runs[claimed.value];
        store.runs := store.runs[claimed.value := run.(status := Running, attempt := run.attempt + 1, claimedAt := Some(now),
                                                       leaseExpiresAt := Some(now + cfg.leaseMs))];
        journal := journal + [Did(Step.Claim(claimed.value, now))];
      }
    }

    method RenewLease(run: Id, attempt: nat, now: Time) returns (renewed: bool)
      modifies store, this`journal
      ensures renewed == Renewable(old(store.Tables()), run, attempt)
      ensures store.Tables() == Renewed(old(store.Tables()), run, attempt, now, cfg)
      ensures journal == old(journal) + [Did(Renew(run, attempt, now))]
    {
      renewed := run in store.runs && store.runs[run].status == Running && store.runs[run].attempt == attempt;
      if renewed {
        store.runs := store.runs[run := store.runs[run].(leaseExpiresAt := Some(now + cfg.leaseMs))];
      }
      journal := journal + [Did(Renew(run, attempt, now))];
    }

    // -------------------------------------------------------------- settling a run

    method Complete(run: Id, now: Time)
      modifies store, this`journal
      ensures store.Tables() == CompletedRun(old(store.Tables()), run, now)
      ensures journal == old(journal) + [Did(Step.Complete(run, now))]
    {
      if run in store.runs {
        store.runs := store.runs[run := store.runs[run].(status := Completed, completedAt := Some(now), leaseExpiresAt := None)];
      }
      journal := journal + [Did(Step.Complete(run, now))];
    }

    method WaitForInput(run: Id) returns (ok: bool)
      modifies store, this`journal
      ensures ok == Waiting(old(store.Tables()), run).Some?
      ensures store.Tables() == OrSame(Waiting(old(store.Tables()), run), old(store.Tables()))
      ensures journal == old(journal) + [Did(Step.WaitForInput(run))]
    {
      ok := run in store.runs && store.runs[run].status == Running;
      if ok {
        store.runs := store.runs[run := store.runs[run].(status := WaitingForInput, claimedAt := None, leaseExpiresAt := None)];
      }
      journal := journal + [Did(Step.WaitForInput(run))];
    }

    method Cancel(run: Id, now: Time)
      modifies store, this`journal
      ensures store.Tables() == CancelledRun(old(store.Tables()), run, now)
      ensures journal == old(journal) + [Did(WorkerCancel(run, now))]
    {
      if run in store.runs {
        store.runs := store.runs[run := store.runs[run].(status := Cancelled, completedAt := Some(now), leaseExpiresAt := None)];
        var answer := store.runs[run].assistantMessageId;
        if answer in store.messages && store.messages[answer].status in {Pending, Streaming} {
          store.messages := store.messages[answer := store.messages[answer].(status := MessageCancelled)];
        }
      }
      journal := journal + [Did(WorkerCancel(run, now))];
    }

    method Fail(run: Id, code: string, now: Time)
      modifies store, this`journal
      ensures store.Tables() == FailedRun(old(store.Tables()), run, code, now)
      ensures journal == old(journal) + [Did(Step.Fail(run, code, now))]
    {
      if run in store.runs {
        store.runs := store.runs[run := store.runs[run].(status := Failed, errorCode := Some(code), completedAt := Some(now), leaseExpiresAt := None)];
        store.handoffs := map h | h in store.handoffs ::
          if store.handoffs[h].runId == run && store.handoffs[h].status !in {HandoffCompleted, HandoffFailed}
          then store.handoffs[h].(status := HandoffFailed) else store.handoffs[h];
      }
      journal := journal + [Did(Step.Fail(run, code, now))];
    }

    // -------------------------------------------------------------- materializing events

    method Materialize(run: Id, event: ConnectorEvent, now: Time) returns (ok: bool)
      requires OneHandoffPerRun(store.handoffs)
      modifies store, this`journal
      ensures ok == Materialized(old(store.Tables()), run, event, now).Some?
      ensures store.Tables() == OrSame(Materialized(old(store.Tables()), run, event, now), old(store.Tables()))
      ensures journal == old(journal) + [Did(Step.Materialize(run, event, now))]
    {
      var saved := store.Tables();
      ok := Write(run, event, now);
      if !ok {
        store.Rollback(saved);
      }
      journal := journal + [Did(Step.Materialize(run, event, now))];
    }

    /** A run whose row is gone has lost its conversation, and every write for it fails. */
    method Write(run: Id, event: ConnectorEvent, now: Time) returns (ok: bool)
      requires OneHandoffPerRun(store.handoffs)
      modifies store
      ensures ok == Materialized(old(store.Tables()), run, event, now).Some?
      ensures ok ==> store.Tables() == Materialized(old(store.Tables()), run, event, now).value
    {
      if event.RunCompleted? || event.RunFailed? || event.Other? {
        return true;
      }
      if run !in store.runs {
        return false;
      }
      match event
      case MessageStarted => ok := StartMessage(run);
      case MessageFinished(parts) => ok := FinishMessage(run, parts);
      case HandoffRequested(handoffId) => ok := RequestHandoff(run, handoffId);
      case ContactRequested(requestId) => ok := RequestContact(run, requestId, now);
      case HandoffFinished(handoffId) => ok := FinishHandoff(run, handoffId);
    }

    method StartMessage(run: Id) returns (ok: bool)
      requires run in store.runs
      modifies store
      ensures ok == Started(old(store.Tables()), run).Some? && (ok ==> store.Tables() == Started(old(store.Tables()), run).value)
    {
      var row := store.runs[run];
      if row.assistantMessageId in store.messages {
        return true;
      }
      if row.conversationId !in store.conversations {
        return false;
      }
      var conversation := store.conversations[row.conversationId];
      var next := conversation.nextMessageSequence + 1;
      store.conversations := store.conversations[row.conversationId := conversation.(nextMessageSequence := next)];
      store.messages := store.messages[row.assistantMessageId := Message(row.conversationId, next - 1, Assistant, Streaming, "")];
      return true;
    }

    method FinishMessage(run: Id, parts: string) returns (ok: bool)
      requires run in store.runs
      modifies store
      ensures ok == Finished(old(store.Tables()), run, parts).Some? && (ok ==> store.Tables() == Finished(old(store.Tables()), run, parts).value)
    {
      var m := store.runs[run].assistantMessageId;
      ok := m in store.messages;
      if ok {
        store.messages := store.messages[m := store.messages[m].(status := MessageCompleted, parts := parts)];
      }
    }

    method RequestHandoff(run: Id, handoffId: Id) returns (ok: bool)
      requires run in store.runs
      modifies store
      ensures ok == AskedForHandoff(old(store.Tables()), run, handoffId).Some?
      ensures ok ==> store.Tables() == AskedForHandoff(old(store.Tables()), run, handoffId).value
    {
      if handoffId !in store.handoffs {
        var other := FindHandoff(run);
        if other.Some? {
          return false;
        }
        store.handoffs := store.handoffs[handoffId := Handoff(store.runs[run].conversationId, run, Human, Requested)];
      }
      ok := store.handoffs[handoffId].runId == run;
    }

    method RequestContact(run: Id, requestId: Id, now: Time) returns (ok: bool)
      requires run in store.runs && OneHandoffPerRun(store.handoffs)
      modifies store
      ensures ok == AskedForContact(old(store.Tables()), run, requestId, now).Some?
      ensures ok ==> store.Tables() == AskedForContact(old(store.Tables()), run, requestId, now).value
    {
      var handoff := FindHandoff(run);
      if handoff.None? {
        return false;
      }
      if requestId !in store.inputs {
        store.inputs := store.inputs[requestId := Input(store.runs[run].conversationId, run, InputPending, None, None, None, now)];
      }
      if store.inputs[requestId].runId != run {
        return false;
      }
      OneHandoff(store.handoffs, run, handoff.value, AwaitingContact);
      store.handoffs := store.handoffs[handoff.value := store.handoffs[handoff.value].(status := AwaitingContact)];
      return true;
    }

    method FindHandoff(run: Id) returns (handoff: Option<Id>)
      ensures handoff.None? ==> !HasHandoff(store.Tables(), run)
      ensures handoff.Some? ==> handoff.value in store.handoffs && store.handoffs[handoff.value].runId == run && HasHandoff(store.Tables(), run)
    {
      if h :| h in store.handoffs && store.handoffs[h].runId == run {
        handoff := Some(h);
      } else {
        handoff := None;
      }
    }

    method FinishHandoff(run: Id, handoffId: Id) returns (ok: bool)
      requires run in store.runs
      modifies store
      ensures ok == FinishedHandoff(old(store.Tables()), run, handoffId).Some?
      ensures ok ==> store.Tables() == FinishedHandoff(old(store.Tables()), run, handoffId).value
    {
      ok := handoffId in store.handoffs && store.handoffs[handoffId].runId == run;
      if ok {
        store.handoffs := store.handoffs[handoffId := store.handoffs[handoffId].(status := HandoffCompleted)];
      }
    }

    // -------------------------------------------------------------- one run from claim to rest

    /** `a` is the account of the run so far. */
    ghost predicate Along(a: Account, supply: seq<Batch>)
      reads this`journal, this`others, store
    {
      a.entries == journal && a.cfg == cfg && Tells(a, store.Tables(), others, supply)
    }

    /** The signal is up exactly if a batch has raised it. */
    ghost predicate Signalled()
      reads this`journal, this`aborted
    {
      aborted == Stopped(journal)
    }

    /** Everybody else goes on. */
    method Await(ghost a: Account, ghost supply: seq<Batch>) returns (ghost b: Account)
      requires Along(a, supply)
      modifies this`others, this`aborted, this`journal, store
      ensures Along(b, supply) && (old(aborted) ==> aborted)
      ensures Later(a, b) && Statements(b) == Statements(a)
      ensures old(Signalled()) ==> Signalled()
    {
      hide Tells, After, Statements, Stopped;
      if others == [] {
        b := a;
        assert a.entries + [] == a.entries;
      } else {
        b := Grown(a, [Waited(others[0])]);
        TellsWait(a, store.Tables(), others, supply);
        store.Rollback(After(store.Tables(), others[0].steps, cfg));
        journal := journal + [Waited(others[0])];
        aborted := aborted || others[0].aborts;
        others := others[1..];
      }
    }

    /** `None` where the program throws: there is no row. */
    method IsCancellationRequested(ghost a: Account, ghost supply: seq<Batch>, run: Id) returns (requested: Option<bool>, ghost b: Account)
      requires Along(a, supply) && a.run == run
      modifies this`others, this`aborted, this`journal, store
      ensures Along(b, supply) && (old(aborted) ==> aborted)
      ensures Later(a, b) && Statements(b) == Statements(a)
      ensures old(Signalled()) ==> Signalled()
      ensures requested.None? ==> run !in store.runs
      ensures match requested
        case None => GoneAt(b, |b.entries|, Statements(b))
        case Some(asked) => if asked then AskedAt(b, |b.entries|, Statements(b)) else UnaskedAt(b, |b.entries|, Statements(b))
    {
      b := Await(a, supply);
      requested := if run in store.runs then Some(IsAsked(store.runs[run].status)) else None;
      Present(b);
    }

    method ClaimNow(now: Time) returns (claimed: Option<Id>, ghost a: Account)
      requires Whole(store.Tables())
      modifies store, this`journal
      ensures claimed.None? ==> store.Tables() == old(store.Tables()) && forall r <- store.runs :: !Claimable(store.runs[r], now, cfg)
      ensures claimed.Some? ==> FirstInLine(old(store.runs), claimed.value, now, cfg)
      ensures claimed.Some? ==> store.Tables() == Claimed(old(store.Tables()), claimed.value, now, cfg)
      ensures claimed.Some? ==> a == Account(store.Tables(), [], claimed.value, now, cfg) && Along(a, others) && Statements(a) == 0
      ensures claimed.Some? ==> !Stopped(a.entries)
    {
      ghost var tables := store.Tables();
      claimed := Claim(now);
      journal := [];
      a := Account(store.Tables(), [], if claimed.Some? then claimed.value else Id(""), now, cfg);
      if claimed.Some? {
        StepKeepsWhole(tables, Step.Claim(claimed.value, now), cfg);
        TellsStart(a, others);
      }
    }

    method MaterializeNow(ghost a: Account, ghost supply: seq<Batch>, run: Id, event: ConnectorEvent, now: Time)
      returns (ok: bool, ghost b: Account)
      requires Along(a, supply) && a.run == run && a.now == now
      modifies store, this`journal
      ensures Along(b, supply) && b == Grown(a, [Did(Step.Materialize(run, event, now))]) && Statements(b) == Statements(a) + 1
      ensures Writes(b, Statements(a), event, ok)
      ensures old(Signalled()) ==> Signalled()
    {
      TellsWrite(a, store.Tables(), others, supply, event);
      assert OneHandoffPerRun(store.handoffs);
      hide Tells, Statements, Writes, Materialized, Stopped;
      ok := Materialize(run, event, now);
      b := Grown(a, [Did(Step.Materialize(run, event, now))]);
    }

    method WaitNow(ghost a: Account, ghost supply: seq<Batch>, run: Id) returns (ok: bool, ghost b: Account)
      requires Along(a, supply) && a.run == run
      modifies store, this`journal
      ensures Along(b, supply) && b == Grown(a, [Did(Step.WaitForInput(run))]) && Statements(b) == Statements(a) + 1
      ensures Pauses(b, Statements(a), ok) && (ok ==> AtRest(store.Tables(), run))
      ensures old(Signalled()) ==> Signalled()
    {
      TellsPause(a, store.Tables(), others, supply);
      WaitingRests(store.Tables(), run);
      hide Tells, Statements, Pauses, Waiting, Stopped, AtRest;
      ok := WaitForInput(run);
      b := Grown(a, [Did(Step.WaitForInput(run))]);
    }

    method CompleteNow(ghost a: Account, ghost supply: seq<Batch>, run: Id, now: Time) returns (ghost b: Account)
      requires Along(a, supply) && a.run == run && a.now == now
      modifies store, this`journal
      ensures Along(b, supply) && AtRest(store.Tables(), run) && b == Grown(a, [Did(Step.Complete(run, now))])
      ensures Statements(b) == Statements(a) + 1 && Does(b, Statements(a), Step.Complete(run, now))
    {
      ghost var tables := store.Tables();
      SettledRests(tables, run, "", now);
      assert CompletedRun(tables, run, now) == Apply(tables, Step.Complete(run, now), cfg);
      hide Tells, Statements, Does, DoesAt, TablesAt, Stopped, AtRest, Apply, CompletedRun;
      TellsStep(a, tables, others, supply, Step.Complete(run, now), CompletedRun(tables, run, now));
      Complete(run, now);
      b := Grown(a, [Did(Step.Complete(run, now))]);
    }

    method FailNow(ghost a: Account, ghost supply: seq<Batch>, run: Id, code: string, now: Time) returns (ghost b: Account)
      requires Along(a, supply) && a.run == run && a.now == now
      modifies store, this`journal
      ensures Along(b, supply) && AtRest(store.Tables(), run) && b == Grown(a, [Did(Step.Fail(run, code, now))])
      ensures Statements(b) == Statements(a) + 1 && Does(b, Statements(a), Step.Fail(run, code, now))
    {
      ghost var tables := store.Tables();
      SettledRests(tables, run, code, now);
      TellsStep(a, tables, others, supply, Step.Fail(run, code, now), FailedRun(tables, run, code, now));
      hide Tells, Statements, Does, DoesAt, TablesAt, Stopped, AtRest, Apply, After, FailedRun;
      Fail(run, code, now);
      b := Grown(a, [Did(Step.Fail(run, code, now))]);
    }

    method CancelNow(ghost a: Account, ghost supply: seq<Batch>, run: Id, now: Time) returns (ghost b: Account)
      requires Along(a, supply) && a.run == run && a.now == now
      modifies store, this`journal
      ensures Along(b, supply) && AtRest(store.Tables(), run) && b == Grown(a, [Did(WorkerCancel(run, now))])
      ensures Statements(b) == Statements(a) + 1 && Does(b, Statements(a), WorkerCancel(run, now))
    {
      ghost var tables := store.Tables();
      SettledRests(tables, run, "", now);
      assert CancelledRun(tables, run, now) == Apply(tables, WorkerCancel(run, now), cfg);
      hide Tells, Statements, Does, DoesAt, TablesAt, Stopped, AtRest, Apply, CancelledRun;
      TellsStep(a, tables, others, supply, WorkerCancel(run, now), CancelledRun(tables, run, now));
      Cancel(run, now);
      b := Grown(a, [Did(WorkerCancel(run, now))]);
    }

    /** One event: check it, write it, log it, and settle the run if it says so. */
    method Handle(ghost a: Account, ghost supply: seq<Batch>, run: Id, item: Item, now: Time) returns (handled: Handled, ghost b: Account)
      requires Along(a, supply) && a.run == run && a.now == now && item.Yielded? && Going(a, Statements(a))
      modifies this`others, this`aborted, this`journal, store
      ensures Along(b, supply) && Later(a, b) && (old(Signalled()) && handled != AtEnd ==> Signalled())
      ensures handled == AtEnd ==> AtRest(store.Tables(), run)
      ensures if handled == Continue then WentOn(b, item, Statements(a)) && Statements(b) == Statements(a) + 1
        else ItemEnds(b, item, Statements(a), Statements(b), handled == AtEnd)
    {
      hide Tells, Statements, AtRest, Going, Writes, Pauses, Does, Stopped;
      ghost var k := Statements(a);
      b := Await(a, supply);
      if !item.isValid {
        b := FailNow(b, supply, run, "INVALID_CONNECTOR_EVENT", now);
        GoingStays(a, b, k);
        return AtEnd, b;
      }
      var written;
      written, b := MaterializeNow(b, supply, run, item.event, now);
      GoingStays(a, b, k);
      if !written || !item.isLogged {
        return Caught, b;
      }
      ghost var wrote := b;
      b := Await(b, supply);
      handled, b := Conclude(b, supply, run, item.event, now);
      WritesStays(wrote, b, k, item.event, true);
      GoingStays(wrote, b, k);
    }

    /** What an event calls for once it is written and logged. */
    method Conclude(ghost a: Account, ghost supply: seq<Batch>, run: Id, event: ConnectorEvent, now: Time)
      returns (handled: Handled, ghost b: Account)
      requires Along(a, supply) && a.run == run && a.now == now
      modifies this`journal, store
      ensures Along(b, supply) && Later(a, b) && (old(Signalled()) && handled != AtEnd ==> Signalled())
      ensures handled == AtEnd ==> AtRest(store.Tables(), run)
      ensures if handled == Continue then b == a && !event.ContactRequested? && !event.RunCompleted? && !event.RunFailed?
        else Statements(b) == Statements(a) + 1 && Concludes(b, event, Statements(a), handled == AtEnd)
    {
      hide Tells, Statements, AtRest, Pauses, Does, Stopped;
      match event
      case ContactRequested(_) =>
        var paused;
        paused, b := WaitNow(a, supply, run);
        handled := if paused then AtEnd else Caught;
      case RunCompleted =>
        b := CompleteNow(a, supply, run, now);
        handled := AtEnd;
      case RunFailed(code) =>
        b := FailNow(a, supply, run, code, now);
        handled := AtEnd;
      case _ =>
        handled, b := Continue, a;
    }

    /** The check before each event, and the cancellation if it was asked for. */
    method MayGoOn(ghost a: Account, ghost supply: seq<Batch>, run: Id, now: Time) returns (look: Look, ghost b: Account)
      requires Along(a, supply) && a.run == run && a.now == now && Signalled()
      modifies this`others, this`aborted, this`journal, store
      ensures Along(b, supply) && Later(a, b) && (look != CancelledIt ==> Signalled() && Statements(b) == Statements(a))
      ensures look == GoOn ==> Going(b, Statements(b))
      ensures look == RowGone ==> Gone(b, Statements(b))
      ensures look == CancelledIt ==> Statements(b) == Statements(a) + 1 && AtRest(store.Tables(), run)
      ensures look == CancelledIt ==> Asked(b, Statements(a)) && Does(b, Statements(a), WorkerCancel(run, now))
    {
      hide Tells, Statements, AtRest, Stopped, Does, Asked, Going, Gone, UnaskedAt, GoneAt;
      var requested;
      requested, b := IsCancellationRequested(a, supply, run);
      ghost var looked := b;
      SignalNow(b);
      Present(b);
      LookedThen(b, |b.entries|, Statements(b));
      if requested.None? {
        return RowGone, b;
      }
      if aborted || requested.value {
        aborted := true;
        b := Await(b, supply);
        b := CancelNow(b, supply, run, now);
        AskedStays(looked, b, Statements(looked));
        return CancelledIt, b;
      }
      return GoOn, b;
    }

    /** After the last item. */
    method RunOut(ghost loaded: Account, ghost a: Account, ghost supply: seq<Batch>, run: Id, items: seq<Item>, now: Time)
      returns (done: bool, ghost b: Account)
      requires Along(a, supply) && a.run == run && a.now == now && Signalled() && Later(loaded, a) && Loads(loaded, true)
      requires Statements(a) == |items| && forall i :: 0 <= i < |items| ==> WentOn(a, items[i], i)
      modifies this`others, this`aborted, this`journal, store
      ensures Along(b, supply) && Later(a, b) && (done ==> AtRest(store.Tables(), run)) && (!done ==> Signalled())
      ensures Tries(b, items, Statements(b), done)
    {
      hide Tells, Statements, AtRest, Stopped, Does, Asked, Gone, WentOn, Ends, Loads, Tries, UnaskedAt, GoneAt, UnstoppedAt, AskedAt;
      SignalNow(a);
      LookedThen(a, |a.entries|, |items|);
      b := a;
      var cancelled := aborted;
      if !aborted {
        var requested;
        requested, b := IsCancellationRequested(a, supply, run);
        LookedThen(b, |b.entries|, |items|);
        if requested.None? {
          AllStay(a, b, items, |items|);
          StoppedEnds(b, items, |items|, false);
          Tried(loaded, b, items, |items|, |items|, false);
          return false, b;
        }
        cancelled := requested.value;
      }
      ghost var looked := b;
      b := Await(b, supply);
      if cancelled {
        b := CancelNow(b, supply, run, now);
        AskedStays(looked, b, |items|);
        StoppedEnds(b, items, |items|, true);
      } else {
        b := FailNow(b, supply, run, "CONNECTOR_INCOMPLETE", now);
        SignalStays(a, b, |a.entries|, |items|);
        SignalStays(looked, b, |looked.entries|, |items|);
        IncompleteEnds(b, items, |looked.entries|, |a.entries|, |items|);
      }
      AllStay(a, b, items, |items|);
      Tried(loaded, b, items, |items|, |items| + 1, true);
      return true, b;
    }

    method LoadContext(ghost a: Account, ghost supply: seq<Batch>, run: Id) returns (loads: bool, ghost b: Account)
      requires Along(a, supply) && a.run == run && Statements(a) == 0 && Signalled()
      modifies this`others, this`aborted, this`journal, store
      ensures Along(b, supply) && Later(a, b) && Statements(b) == 0 && Signalled() && Loads(b, loads)
    {
      b := Await(a, supply);
      loads := ContextLoads(store.Tables(), run);
      LoadedNow(b);
    }

    /** One turn of the loop over the connector's items. */
    method ServeNext(ghost loaded: Account, ghost a: Account, ghost supply: seq<Batch>, run: Id, items: seq<Item>, k: nat, now: Time)
      returns (handled: Handled, ghost b: Account)
      requires Along(a, supply) && a.run == run && a.now == now && Signalled() && Later(loaded, a) && Loads(loaded, true)
      requires k < |items| && Statements(a) == k && forall i :: 0 <= i < k ==> WentOn(a, items[i], i)
      modifies this`others, this`aborted, this`journal, store
      ensures Along(b, supply) && Later(a, b) && (handled != AtEnd ==> Signalled())
      ensures handled == Continue ==> Statements(b) == k + 1 && forall i :: 0 <= i < k + 1 ==> WentOn(b, items[i], i)
      ensures handled != Continue ==> Tries(b, items, Statements(b), handled == AtEnd)
      ensures handled == AtEnd ==> AtRest(store.Tables(), run)
    {
      hide Tells, Statements, AtRest, Going, Stopped, Ends, Asked, Gone, WentOn, ItemEnds, Does, Loads, Tries;
      if items[k].Thrown? {
        ItemEndsIt(a, items, k, k, false);
        Tried(loaded, a, items, k, k, false);
        return Caught, a;
      }
      var look;
      look, b := MayGoOn(a, supply, run, now);
      AllStay(a, b, items, k);
      if look != GoOn {
        StoppedEnds(b, items, k, look == CancelledIt);
        Tried(loaded, b, items, k, Statements(b), look == CancelledIt);
        return if look == CancelledIt then AtEnd else Caught, b;
      }
      ghost var before := b;
      handled, b := Handle(b, supply, run, items[k], now);
      AllStay(before, b, items, k);
      if handled != Continue {
        ItemEndsIt(b, items, k, Statements(b), handled == AtEnd);
        Tried(loaded, b, items, k, Statements(b), handled == AtEnd);
      }
    }

    /** The loop over the connector's items. */
    method ServeAll(ghost loaded: Account, ghost supply: seq<Batch>, run: Id, items: seq<Item>, now: Time) returns (done: bool, ghost b: Account)
      requires Along(loaded, supply) && loaded.run == run && loaded.now == now && Statements(loaded) == 0 && Signalled() && Loads(loaded, true)
      modifies this`others, this`aborted, this`journal, store
      ensures Along(b, supply) && Later(loaded, b) && (done ==> AtRest(store.Tables(), run)) && (!done ==> Signalled())
      ensures Tries(b, items, Statements(b), done)
    {
      hide Tells, Statements, AtRest, Stopped, WentOn, Loads, Tries;
      b := loaded;
      for k := 0 to |items|
        invariant Along(b, supply) && Later(loaded, b) && Statements(b) == k && Signalled()
        invariant forall i :: 0 <= i < k ==> WentOn(b, items[i], i)
      {
        var handled;
        handled, b := ServeNext(loaded, b, supply, run, items, k, now);
        if handled != Continue {
          return handled == AtEnd, b;
        }
      }
      done, b := RunOut(loaded, b, supply, run, items, now);
    }

    /** The body of the try block: `done` when it returns, not `done` when it throws. */
    method Serve(ghost a: Account, ghost supply: seq<Batch>, run: Id, items: seq<Item>, now: Time) returns (done: bool, ghost b: Account)
      requires Along(a, supply) && a.run == run && a.now == now && Statements(a) == 0 && Signalled()
      modifies this`others, this`aborted, this`journal, store
      ensures Along(b, supply) && Later(a, b) && (done ==> AtRest(store.Tables(), run)) && (!done ==> Signalled())
      ensures Tries(b, items, Statements(b), done)
    {
      hide Tells, Statements, AtRest, Stopped, Loads, Tries;
      var loads;
      loads, b := LoadContext(a, supply, run);
      if !loads {
        UnloadedEnds(b, items);
        return false, b;
      }
      done, b := ServeAll(b, supply, run, items, now);
    }

    /** The exception handler; it throws itself when the row is gone. */
    method Recover(ghost a: Account, ghost supply: seq<Batch>, run: Id, now: Time) returns (recovered: bool, ghost b: Account)
      requires Along(a, supply) && a.run == run && a.now == now && Signalled()
      modifies this`others, this`aborted, this`journal, store
      ensures Along(b, supply) && Later(a, b)
      ensures recovered ==> Statements(b) == Statements(a) + 1 && AtRest(store.Tables(), run) && Recovers(b, |a.entries|, Statements(a))
      ensures !recovered ==> run !in store.runs && Statements(b) == Statements(a) && GoneAt(b, |b.entries|, Statements(b))
    {
      hide Tells, Statements, AtRest, Stopped, Does, Recovers, UnaskedAt, GoneAt, UnstoppedAt, AskedAt;
      ghost var n := Statements(a);
      SignalNow(a);
      b := a;
      var cancelled := aborted;
      if !aborted {
        var requested;
        requested, b := IsCancellationRequested(a, supply, run);
        if requested.None? {
          return false, b;
        }
        cancelled := requested.value;
      }
      ghost var looked := b;
      b := Await(b, supply);
      if cancelled {
        b := CancelNow(b, supply, run, now);
        SignalStays(looked, b, |looked.entries|, n);
        CancelRecovers(b, |a.entries|, |looked.entries|, n);
      } else {
        b := FailNow(b, supply, run, "CONNECTOR_EXECUTION_FAILED", now);
        SignalStays(a, b, |a.entries|, n);
        SignalStays(looked, b, |looked.entries|, n);
        FailRecovers(b, |a.entries|, |a.entries|, |looked.entries|, n);
      }
      return true, b;
    }

    /** The try block and, when it throws, the handler. */
    method TryToServe(ghost a: Account, ghost supply: seq<Batch>, run: Id, items: seq<Item>, now: Time) returns (outcome: Outcome, ghost b: Account)
      requires Along(a, supply) && a.run == run && a.now == now && Statements(a) == 0 && Signalled()
      modifies this`others, this`aborted, this`journal, store
      ensures Along(b, supply) && Later(a, b) && !outcome.Idle? && outcome.run == run
      ensures outcome.Worked? ==> AtRest(store.Tables(), run) && Works(b, Some(items))
      ensures outcome.Rejected? ==> run !in store.runs && GivesUp(b, Some(items))
    {
      hide Tells, Statements, AtRest, Stopped, Recovers, Tries, Works, GivesUp, GoneAt;
      var done;
      done, b := Serve(a, supply, run, items, now);
      if done {
        WorksIf(b, Some(items));
        return Worked(run), b;
      }
      ghost var thrown := b;
      var recovered;
      recovered, b := Recover(b, supply, run, now);
      if !recovered {
        ThrewTwice(thrown, b, items);
        return Rejected(run), b;
      }
      ThrewThen(thrown, b, items);
      return Worked(run), b;
    }

    method Work(ghost a: Account, ghost supply: seq<Batch>, run: Id, now: Time, connector: Option<seq<Item>>)
      returns (outcome: Outcome, ghost b: Account)
      requires Along(a, supply) && a.run == run && a.now == now && Statements(a) == 0 && !Stopped(a.entries)
      modifies this`others, this`aborted, this`journal, store
      ensures Along(b, supply) && Later(a, b) && !outcome.Idle? && outcome.run == run
      ensures outcome.Worked? ==> AtRest(store.Tables(), run) && Works(b, connector)
      ensures outcome.Rejected? ==> run !in store.runs && GivesUp(b, connector)
    {
      hide Tells, Statements, AtRest, Stopped, Does, Tries, Works, GivesUp;
      aborted := false;
      if connector.None? {
        b := FailNow(a, supply, run, "CONNECTOR_NOT_FOUND", now);
        WorksIf(b, connector);
        return Worked(run), b;
      }
      outcome, b := TryToServe(a, supply, run, connector.value, now);
    }

    /** Claim the next run, execute it, and leave it at rest whatever the connector, the log and
        everybody else do; only a run whose row is deleted meanwhile makes the call throw. The account
        tells all that happened to the tables from the claim on. */
    method ProcessNext(now: Time, connector: Option<seq<Item>>) returns (outcome: Outcome, ghost account: Account)
      requires Whole(store.Tables())
      modifies this, store
      ensures outcome.Idle? ==> store.Tables() == old(store.Tables()) && forall r <- store.runs :: !Claimable(store.runs[r], now, cfg)
      ensures !outcome.Idle? ==> FirstInLine(old(store.runs), outcome.run, now, cfg)
      ensures !outcome.Idle? ==> account.start == Claimed(old(store.Tables()), outcome.run, now, cfg)
      ensures !outcome.Idle? ==> account.run == outcome.run && account.now == now && Along(account, old(others))
      ensures outcome.Worked? ==> AtRest(store.Tables(), outcome.run) && Works(account, connector)
      ensures outcome.Rejected? ==> outcome.run !in store.runs && GivesUp(account, connector)
    {
      var claimed;
      claimed, account := ClaimNow(now);
      if claimed.None? {
        return Idle, account;
      }
      hide Tells, Statements, AtRest, Works, GivesUp, Stopped;
      outcome, account := Work(account, others, claimed.value, now, connector);
    }
  }

  /** With one handoff per run, updating it by its identifier updates all of the run's. */
  lemma OneHandoff(handoffs: map<Id, Handoff>, run: Id, h: Id, status: HandoffStatus)
    requires h in handoffs && handoffs[h].runId == run
    requires OneHandoffPerRun(handoffs)
    ensures SetHandoffs(handoffs, run, status) == handoffs[h := handoffs[h].(status := status)]
  {}
}
