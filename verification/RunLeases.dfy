/** Workers that respect their leases: after the end of its own last claim or renewal a worker
    takes no more steps. Clocks agree, and a statement may use a time that is already past. */
module RunLeases {
  import opened Wrappers
  import opened ChatDatabase
  import opened RunLifecycle

  datatype Worker = Worker(run: Id, attempt: nat, leaseUntil: Time)

  datatype Cluster = Cluster(db: Db, clock: Time, workers: map<nat, Worker>)

  datatype Action =
    | Tick(elapsed: nat)
    | ClaimBy(worker: nat, run: Id, now: Time)
    | Act(worker: nat, step: Step)
    | Stop(worker: nat)
    | Outside(step: Step)

  predicate IsLive(worker: Worker, clock: Time) { clock < worker.leaseUntil }

  predicate IsWorkersOwn(step: Step, worker: Worker, clock: Time) {
    || (step.Renew? && step.run == worker.run && step.attempt == worker.attempt && step.now <= clock)
    || ((step.Materialize? || step.Complete? || step.WaitForInput? || step.WorkerCancel? || step.Fail?) && step.run == worker.run)
  }

  predicate IsOutside(step: Step) { step.Do? || step.Redact? || step.DeleteConversation? || step.ForgetKeys? }

  predicate Allowed(c: Cluster, action: Action) {
    match action
    case Tick(_) => true
    case ClaimBy(w, _, now) => w !in c.workers && now <= c.clock
    case Act(w, step) => w in c.workers && IsLive(c.workers[w], c.clock) && IsWorkersOwn(step, c.workers[w], c.clock)
    case Stop(w) => true
    case Outside(step) => IsOutside(step)
  }

  /** The statement that ends a worker's hold on its run. */
  predicate Settles(db: Db, step: Step) {
    step.Complete? || step.WorkerCancel? || step.Fail? || (step.WaitForInput? && Waiting(db, step.run).Some?)
  }

  function WorkersAfter(workers: map<nat, Worker>, w: nat, db: Db, step: Step, cfg: Config): map<nat, Worker>
    requires w in workers
  {
    if Settles(db, step) then workers - {w}
    else if step.Renew? && Renewable(db, step.run, step.attempt)
      then workers[w := workers[w].(leaseUntil := step.now + cfg.leaseMs)]
    else workers
  }

  function Next(c: Cluster, action: Action, cfg: Config): Cluster
    requires Allowed(c, action)
  {
    match action
    case Tick(elapsed) => c.(clock := c.clock + elapsed)
    case ClaimBy(w, run, now) =>
      if !Claims(c.db, Claim(run, now), cfg) then c
      else c.(db := Claimed(c.db, run, now, cfg),
              workers := c.workers[w := Worker(run, c.db.runs[run].attempt + 1, now + cfg.leaseMs)])
    case Act(w, step) => c.(db := Apply(c.db, step, cfg), workers := WorkersAfter(c.workers, w, c.db, step, cfg))
    case Stop(w) => c.(workers := c.workers - {w})
    case Outside(step) => c.(db := Apply(c.db, step, cfg))
  }

  // ---------------------------------------------------------------- the invariant

  /** What a live worker may count on. */
  predicate Holds(runs: map<Id, Run>, worker: Worker) {
    worker.run in runs ==>
      var run := runs[worker.run];
      && run.attempt == worker.attempt && (run.status == Running || run.status == CancelRequested)
      && run.leaseExpiresAt == Some(worker.leaseUntil)
  }

  predicate HandoffClosed(runs: map<Id, Run>, h: Handoff) {
    h.runId in runs && runs[h.runId].status == Failed ==> h.status == HandoffCompleted || h.status == HandoffFailed
  }

  predicate AllHold(runs: map<Id, Run>, workers: map<nat, Worker>, clock: Time) {
    forall w <- workers :: IsLive(workers[w], clock) ==> Holds(runs, workers[w])
  }

  predicate Exclusive(workers: map<nat, Worker>, clock: Time) {
    forall v <- workers, w <- workers :: SameRun(workers[v], workers[w], clock) ==> v == w
  }

  predicate SameRun(a: Worker, b: Worker, clock: Time) { IsLive(a, clock) && IsLive(b, clock) && a.run == b.run }

  predicate Inv(c: Cluster) {
    && Issued(c.db) && (forall w <- c.workers :: c.workers[w].run in c.db.issued)
    && AllHold(c.db.runs, c.workers, c.clock) && Exclusive(c.workers, c.clock)
  }

  // ---------------------------------------------------------------- each action keeps it

  lemma TickKeeps(c: Cluster, elapsed: nat)
    requires Inv(c)
    ensures Inv(c.(clock := c.clock + elapsed))
  {
    forall v, w | v in c.workers && w in c.workers && SameRun(c.workers[v], c.workers[w], c.clock + elapsed) ensures v == w {
      assert SameRun(c.workers[v], c.workers[w], c.clock);
    }
  }

  /** A claim meets no live worker on its run: it was queued, or its lease had run out. */
  lemma ClaimFindsNobody(c: Cluster, run: Id, now: Time, cfg: Config, w: nat)
    requires Inv(c) && now <= c.clock && Claims(c.db, Claim(run, now), cfg) && w in c.workers && c.workers[w].run == run
    ensures !IsLive(c.workers[w], c.clock)
  {
    assert IsLive(c.workers[w], c.clock) ==> Holds(c.db.runs, c.workers[w]);
  }

  lemma ClaimKeeps(c: Cluster, w: nat, run: Id, now: Time, cfg: Config)
    requires Inv(c) && w !in c.workers && now <= c.clock && Claims(c.db, Claim(run, now), cfg)
    ensures Inv(Next(c, ClaimBy(w, run, now), cfg))
  {
    var next := Next(c, ClaimBy(w, run, now), cfg);
    LeasesKeepIssued(c.db, Claim(run, now), cfg);
    forall v | v in c.workers && IsLive(c.workers[v], c.clock) ensures c.workers[v].run != run && Holds(next.db.runs, c.workers[v]) {
      if c.workers[v].run == run {
        ClaimFindsNobody(c, run, now, cfg, v);
      }
      assert Holds(c.db.runs, c.workers[v]);
    }
  }

  lemma OutsideRow(db: Db, step: Step, cfg: Config, worker: Worker)
    requires Issued(db) && IsOutside(step) && Holds(db.runs, worker) && worker.run in db.issued
    ensures Holds(Apply(db, step, cfg).runs, worker)
  {
    StepMoves(db, step, cfg, worker.run);
  }

  lemma OutsideKeeps(c: Cluster, step: Step, cfg: Config)
    requires Inv(c) && IsOutside(step)
    ensures Inv(c.(db := Apply(c.db, step, cfg)))
  {
    IssuedKept(c.db, step, cfg);
    forall w | w in c.workers && IsLive(c.workers[w], c.clock) ensures Holds(Apply(c.db, step, cfg).runs, c.workers[w]) {
      OutsideRow(c.db, step, cfg, c.workers[w]);
    }
  }

  /** What a worker does leaves every other run alone. */
  lemma OwnStepLeavesOthers(db: Db, step: Step, cfg: Config, worker: Worker, clock: Time, r: Id)
    requires Issued(db) && IsWorkersOwn(step, worker, clock) && r != worker.run
    ensures r in db.runs ==> r in Apply(db, step, cfg).runs && Apply(db, step, cfg).runs[r] == db.runs[r]
    ensures r in db.issued && r in Apply(db, step, cfg).runs ==> r in db.runs
  {
    StepMoves(db, step, cfg, r);
    assert MoveOf(db, step, cfg, r) == Stay;
  }

  /** And unless it settles its run, the worker still holds it. */
  lemma OwnStepHolds(db: Db, step: Step, cfg: Config, worker: Worker, clock: Time)
    requires Issued(db) && IsWorkersOwn(step, worker, clock) && Holds(db.runs, worker) && worker.run in db.issued && !Settles(db, step)
    ensures Holds(Apply(db, step, cfg).runs,
      if step.Renew? && Renewable(db, step.run, step.attempt) then worker.(leaseUntil := step.now + cfg.leaseMs) else worker)
  {
    if step.Materialize? {
      EventsLeaveRuns(db, step.run, step.event, step.now);
    }
  }

  lemma ActKeeps(c: Cluster, w: nat, step: Step, cfg: Config)
    requires Inv(c) && Allowed(c, Act(w, step))
    ensures Inv(Next(c, Act(w, step), cfg))
  {
    var next := Next(c, Act(w, step), cfg);
    IssuedKept(c.db, step, cfg);
    assert Holds(c.db.runs, c.workers[w]);
    forall v | v in next.workers && IsLive(next.workers[v], c.clock) ensures Holds(next.db.runs, next.workers[v]) {
      if v == w {
        OwnStepHolds(c.db, step, cfg, c.workers[w], c.clock);
      } else {
        assert !SameRun(c.workers[v], c.workers[w], c.clock);
        OwnStepLeavesOthers(c.db, step, cfg, c.workers[w], c.clock, c.workers[v].run);
      }
    }
    forall u, v | u in next.workers && v in next.workers && SameRun(next.workers[u], next.workers[v], c.clock) ensures u == v {
      assert SameRun(c.workers[u], c.workers[v], c.clock);
    }
  }

  lemma StopKeeps(c: Cluster, w: nat)
    requires Inv(c)
    ensures Inv(c.(workers := c.workers - {w}))
  {
    var workers := c.workers - {w};
    forall u, v | u in workers && v in workers && SameRun(workers[u], workers[v], c.clock) ensures u == v {
      assert SameRun(c.workers[u], c.workers[v], c.clock);
    }
  }

  lemma NextKeeps(c: Cluster, action: Action, cfg: Config)
    requires Inv(c) && Allowed(c, action)
    ensures Inv(Next(c, action, cfg))
  {
    match action
    case Tick(elapsed) => TickKeeps(c, elapsed);
    case ClaimBy(w, run, now) =>
      if Claims(c.db, Claim(run, now), cfg) {
        ClaimKeeps(c, w, run, now, cfg);
      }
    case Act(w, step) => ActKeeps(c, w, step, cfg);
    case Stop(w) => StopKeeps(c, w);
    case Outside(step) => OutsideKeeps(c, step, cfg);
  }

  // ---------------------------------------------------------------- finished runs stay as they are

  lemma TerminalRowStays(c: Cluster, action: Action, cfg: Config, r: Id)
    requires Inv(c) && Allowed(c, action) && r in c.db.runs && IsTerminal(c.db.runs[r].status)
    requires r in Next(c, action, cfg).db.runs
    ensures Next(c, action, cfg).db.runs[r] == c.db.runs[r]
  {
    match action
    case Act(w, step) =>
      assert Holds(c.db.runs, c.workers[w]);
      OwnStepLeavesOthers(c.db, step, cfg, c.workers[w], c.clock, r);
    case Outside(step) => StepMoves(c.db, step, cfg, r);
    case _ =>
  }

  lemma GoneStaysGone(c: Cluster, action: Action, cfg: Config, r: Id)
    requires Inv(c) && Allowed(c, action) && r in c.db.issued && r !in c.db.runs
    ensures r in Next(c, action, cfg).db.issued && r !in Next(c, action, cfg).db.runs
  {
    match action
    case Act(w, step) => StepMoves(c.db, step, cfg, r); IssuedKept(c.db, step, cfg);
    case Outside(step) => StepMoves(c.db, step, cfg, r); IssuedKept(c.db, step, cfg);
    case _ =>
  }

  // ---------------------------------------------------------------- handoffs of failed runs

  predicate AllClosed(runs: map<Id, Run>, handoffs: map<Id, Handoff>) { forall h <- handoffs :: HandoffClosed(runs, handoffs[h]) }

  /** A step that touches handoffs touches those of one run, which is not a failed one. */
  predicate OnlyHandoffsOf(a: map<Id, Handoff>, b: map<Id, Handoff>, r: Id) {
    forall h <- b :: b[h].runId == r || (h in a && a[h] == b[h])
  }

  lemma EventHandoffs(db: Db, r: Id, event: ConnectorEvent, now: Time)
    ensures OnlyHandoffsOf(db.handoffs, OrSame(Materialized(db, r, event, now), db).handoffs, r)
  {}

  lemma FailedCloses(db: Db, r: Id, code: string, now: Time)
    requires AllClosed(db.runs, db.handoffs)
    ensures AllClosed(FailedRun(db, r, code, now).runs, FailedRun(db, r, code, now).handoffs)
  {
    var next := FailedRun(db, r, code, now);
    forall h | h in next.handoffs ensures HandoffClosed(next.runs, next.handoffs[h]) {
      assert HandoffClosed(db.runs, db.handoffs[h]);
    }
  }

  lemma RowsKeepClosed(runs: map<Id, Run>, runs': map<Id, Run>, handoffs: map<Id, Handoff>, handoffs': map<Id, Handoff>, r: Id)
    requires AllClosed(runs, handoffs) && OnlyHandoffsOf(handoffs, handoffs', r)
    requires forall q <- runs' :: runs'[q].status == Failed ==> q != r && q in runs && runs[q].status == Failed
    ensures AllClosed(runs', handoffs')
  {
    forall h | h in handoffs' ensures HandoffClosed(runs', handoffs'[h]) {
      if handoffs'[h].runId != r {
        assert HandoffClosed(runs, handoffs[h]);
      }
    }
  }

  /** No step but a failing one makes a run fail. */
  lemma NoOtherFailure(db: Db, step: Step, cfg: Config, q: Id)
    requires Issued(db) && !step.Fail? && q in Apply(db, step, cfg).runs && Apply(db, step, cfg).runs[q].status == Failed
    ensures q in db.runs && (db.runs[q].status == Failed || (step.WorkerCancel? || step.Complete?))
  {
    StepMoves(db, step, cfg, q);
  }

  lemma SettlingIsNoFailure(db: Db, step: Step, cfg: Config, q: Id)
    requires (step.Complete? || step.WorkerCancel?) && q in Apply(db, step, cfg).runs && Apply(db, step, cfg).runs[q].status == Failed
    ensures q in db.runs && db.runs[q].status == Failed
  {}

  lemma WorkerKeepsClosed(db: Db, step: Step, cfg: Config, worker: Worker, clock: Time)
    requires Issued(db) && AllClosed(db.runs, db.handoffs) && IsWorkersOwn(step, worker, clock) && Holds(db.runs, worker)
    ensures AllClosed(Apply(db, step, cfg).runs, Apply(db, step, cfg).handoffs)
  {
    if step.Fail? {
      FailedCloses(db, step.run, step.code, step.now);
    } else if step.Materialize? {
      EventHandoffs(db, step.run, step.event, step.now);
      EventsLeaveRuns(db, step.run, step.event, step.now);
      RowsKeepClosed(db.runs, Apply(db, step, cfg).runs, db.handoffs, Apply(db, step, cfg).handoffs, step.run);
    } else {
      forall q | q in Apply(db, step, cfg).runs && Apply(db, step, cfg).runs[q].status == Failed
        ensures q != step.run && q in db.runs && db.runs[q].status == Failed
      {
        NoOtherFailure(db, step, cfg, q);
        if step.Complete? || step.WorkerCancel? { SettlingIsNoFailure(db, step, cfg, q); }
        SettledDiffers(db, step, cfg);
      }
      HandoffsUntouched(db, step, cfg);
      RowsKeepClosed(db.runs, Apply(db, step, cfg).runs, db.handoffs, Apply(db, step, cfg).handoffs, step.run);
    }
  }

  lemma HandoffsUntouched(db: Db, step: Step, cfg: Config)
    requires step.Renew? || step.Complete? || step.WaitForInput? || step.WorkerCancel? || step.Claim?
    ensures Apply(db, step, cfg).handoffs == db.handoffs
  {}

  lemma SettledDiffers(db: Db, step: Step, cfg: Config)
    requires step.Renew? || step.Complete? || step.WaitForInput? || step.WorkerCancel?
    requires step.run in db.runs ==> db.runs[step.run].status != Failed
    ensures step.run in Apply(db, step, cfg).runs ==> Apply(db, step, cfg).runs[step.run].status != Failed
  {}

  /** A command that touches a handoff leaves its run queued. */
  lemma CommandHandoff(db: Db, command: Command, h: Id)
    requires h in Execute(db, command).db.handoffs
    ensures var next := Execute(db, command).db; var handoff := next.handoffs[h];
      (h in db.handoffs && db.handoffs[h] == handoff) || (handoff.runId in next.runs && next.runs[handoff.runId].status == Queued)
  {}

  lemma OutsideKeepsClosed(db: Db, step: Step, cfg: Config)
    requires Issued(db) && AllClosed(db.runs, db.handoffs) && IsOutside(step)
    ensures AllClosed(Apply(db, step, cfg).runs, Apply(db, step, cfg).handoffs)
  {
    var next := Apply(db, step, cfg);
    forall h | h in next.handoffs ensures HandoffClosed(next.runs, next.handoffs[h]) {
      if step.Do? {
        CommandHandoff(db, step.command, h);
      }
      if h in db.handoffs && db.handoffs[h] == next.handoffs[h] {
        assert HandoffClosed(db.runs, db.handoffs[h]);
        var q := next.handoffs[h].runId;
        if q in next.runs && next.runs[q].status == Failed {
          NoOtherFailure(db, step, cfg, q);
        }
      }
    }
  }

  lemma NextKeepsClosed(c: Cluster, action: Action, cfg: Config)
    requires Inv(c) && AllClosed(c.db.runs, c.db.handoffs) && Allowed(c, action)
    ensures AllClosed(Next(c, action, cfg).db.runs, Next(c, action, cfg).db.handoffs)
  {
    match action
    case ClaimBy(w, run, now) =>
      if Claims(c.db, Claim(run, now), cfg) {
        RowsKeepClosed(c.db.runs, Next(c, action, cfg).db.runs, c.db.handoffs, c.db.handoffs, run);
      }
    case Act(w, step) => WorkerKeepsClosed(c.db, step, cfg, c.workers[w], c.clock);
    case Outside(step) => OutsideKeepsClosed(c.db, step, cfg);
    case _ =>
  }

  // ---------------------------------------------------------------- whole runs

  predicate AllAllowed(c: Cluster, actions: seq<Action>, cfg: Config)
    decreases |actions|
  {
    actions != [] ==> Allowed(c, actions[0]) && AllAllowed(Next(c, actions[0], cfg), actions[1..], cfg)
  }

  function Run(c: Cluster, actions: seq<Action>, cfg: Config): Cluster
    requires AllAllowed(c, actions, cfg)
    decreases |actions|
  {
    if actions == [] then c else Run(Next(c, actions[0], cfg), actions[1..], cfg)
  }

  predicate Good(c: Cluster) { Inv(c) && AllClosed(c.db.runs, c.db.handoffs) }

  lemma {:induction false} RunKeeps(c: Cluster, actions: seq<Action>, cfg: Config)
    requires Good(c) && AllAllowed(c, actions, cfg)
    ensures Good(Run(c, actions, cfg))
    decreases |actions|
  {
    if actions != [] {
      NextKeeps(c, actions[0], cfg);
      NextKeepsClosed(c, actions[0], cfg);
      RunKeeps(Next(c, actions[0], cfg), actions[1..], cfg);
    }
  }

  /** In every run that respects the leases, at most one live worker executes a run; while it does,
      the row is running or asked to cancel, at the worker's attempt and under the worker's lease. */
  lemma OneWorkerPerRun(clock: Time, actions: seq<Action>, cfg: Config, v: nat, w: nat)
    requires AllAllowed(Cluster(EMPTY_DB, clock, map[]), actions, cfg)
    requires var c := Run(Cluster(EMPTY_DB, clock, map[]), actions, cfg);
      v in c.workers && w in c.workers && IsLive(c.workers[v], c.clock) && IsLive(c.workers[w], c.clock)
    ensures var c := Run(Cluster(EMPTY_DB, clock, map[]), actions, cfg);
      Holds(c.db.runs, c.workers[v]) && (c.workers[v].run == c.workers[w].run ==> v == w)
  {
    RunKeeps(Cluster(EMPTY_DB, clock, map[]), actions, cfg);
    var c := Run(Cluster(EMPTY_DB, clock, map[]), actions, cfg);
    assert c.workers[v].run == c.workers[w].run ==> SameRun(c.workers[v], c.workers[w], c.clock);
  }

  /** And no handoff of a failed run is left open. */
  lemma FailedRunsHaveNoOpenHandoff(clock: Time, actions: seq<Action>, cfg: Config, h: Id)
    requires AllAllowed(Cluster(EMPTY_DB, clock, map[]), actions, cfg)
    requires h in Run(Cluster(EMPTY_DB, clock, map[]), actions, cfg).db.handoffs
    ensures var db := Run(Cluster(EMPTY_DB, clock, map[]), actions, cfg).db;
      HandoffClosed(db.runs, db.handoffs[h])
  {
    RunKeeps(Cluster(EMPTY_DB, clock, map[]), actions, cfg);
  }

  predicate Settled(db: Db, r: Id, row: Run) { r in db.issued && (r in db.runs ==> db.runs[r] == row) }

  lemma SettledStep(c: Cluster, action: Action, cfg: Config, r: Id, row: Run)
    requires Inv(c) && Allowed(c, action) && Settled(c.db, r, row) && IsTerminal(row.status)
    ensures Settled(Next(c, action, cfg).db, r, row)
  {
    if r !in c.db.runs {
      GoneStaysGone(c, action, cfg, r);
    } else {
      IssuedGrows(c, action, cfg);
      if r in Next(c, action, cfg).db.runs {
        TerminalRowStays(c, action, cfg, r);
      }
    }
  }

  lemma IssuedGrows(c: Cluster, action: Action, cfg: Config)
    requires Inv(c) && Allowed(c, action)
    ensures c.db.issued <= Next(c, action, cfg).db.issued
  {
    match action
    case Act(_, step) => IssuedKept(c.db, step, cfg);
    case Outside(step) => IssuedKept(c.db, step, cfg);
    case _ =>
  }

  lemma {:induction false} StaysSettled(c: Cluster, actions: seq<Action>, cfg: Config, r: Id, row: Run)
    requires Inv(c) && AllAllowed(c, actions, cfg) && Settled(c.db, r, row) && IsTerminal(row.status)
    ensures Settled(Run(c, actions, cfg).db, r, row)
    decreases |actions|
  {
    if actions != [] {
      NextKeeps(c, actions[0], cfg);
      SettledStep(c, actions[0], cfg, r, row);
      StaysSettled(Next(c, actions[0], cfg), actions[1..], cfg, r, row);
    }
  }

  /** Completed, failed and cancelled are absorbing: the row never changes again, unless its
      conversation is deleted, after which it never comes back. */
  lemma FinishedForGood(c: Cluster, actions: seq<Action>, cfg: Config, r: Id)
    requires Inv(c) && AllAllowed(c, actions, cfg) && r in c.db.runs && IsTerminal(c.db.runs[r].status)
    ensures var after := Run(c, actions, cfg).db; r in after.runs ==> after.runs[r] == c.db.runs[r]
  {
    StaysSettled(c, actions, cfg, r, c.db.runs[r]);
  }

  function StepOf(action: Action): seq<Step> {
    match action
    case ClaimBy(_, run, now) => [Claim(run, now)]
    case Act(_, step) => [step]
    case Outside(step) => [step]
    case _ => []
  }

  /** The database steps of a run that respects the leases, as one of the unrestricted model. */
  function StepsOf(actions: seq<Action>): seq<Step> {
    if actions == [] then [] else StepOf(actions[0]) + StepsOf(actions[1..])
  }

  /** So whatever holds under every interleaving holds here too. */
  lemma {:induction false} LeasedRunsAreRuns(c: Cluster, actions: seq<Action>, cfg: Config)
    requires AllAllowed(c, actions, cfg)
    ensures Run(c, actions, cfg).db == After(c.db, StepsOf(actions), cfg)
    decreases |actions|
  {
    if actions != [] {
      LeasedRunsAreRuns(Next(c, actions[0], cfg), actions[1..], cfg);
      var own, rest := StepOf(actions[0]), StepsOf(actions[1..]);
      if own == [] {
        assert own + rest == rest;
      } else {
        assert (own + rest)[1..] == rest;
      }
    }
  }

  /** A worker's request that opens a handoff, for a run that has failed. */
  predicate OpensForFailed(db: Db, step: Step) {
    && step.Materialize? && step.run in db.runs && db.runs[step.run].status == Failed
    && Materialized(db, step.run, step.event, step.now).Some?
    && (step.event.ContactRequested? || (step.event.HandoffRequested? && step.event.handoffId !in db.handoffs))
  }

  lemma OpenedForFailed(db: Db, step: Step, cfg: Config)
    requires OpensForFailed(db, step)
    ensures !AllClosed(Apply(db, step, cfg).runs, Apply(db, step, cfg).handoffs)
  {
    var next := Apply(db, step, cfg);
    if step.event.ContactRequested? {
      var h :| h in db.handoffs && db.handoffs[h].runId == step.run;
      assert next.handoffs[h] == db.handoffs[h].(status := AwaitingContact);
      assert !HandoffClosed(next.runs, next.handoffs[h]);
    } else {
      assert !HandoffClosed(next.runs, next.handoffs[step.event.handoffId]);
    }
  }

  lemma OtherEventsKeepClosed(db: Db, step: Step, cfg: Config)
    requires step.Materialize? && AllClosed(db.runs, db.handoffs) && !OpensForFailed(db, step)
    ensures AllClosed(Apply(db, step, cfg).runs, Apply(db, step, cfg).handoffs)
  {
    var next := Apply(db, step, cfg);
    EventsLeaveRuns(db, step.run, step.event, step.now);
    EventHandoffs(db, step.run, step.event, step.now);
    if step.run in db.runs && db.runs[step.run].status != Failed {
      RowsKeepClosed(db.runs, next.runs, db.handoffs, next.handoffs, step.run);
    } else {
      forall h | h in next.handoffs ensures HandoffClosed(next.runs, next.handoffs[h]) {
        assert h in db.handoffs ==> HandoffClosed(db.runs, db.handoffs[h]);
      }
    }
  }

  lemma OtherStepsKeepClosed(db: Db, step: Step, cfg: Config)
    requires Issued(db) && AllClosed(db.runs, db.handoffs) && !step.Materialize?
    ensures AllClosed(Apply(db, step, cfg).runs, Apply(db, step, cfg).handoffs)
  {
    if IsOutside(step) {
      OutsideKeepsClosed(db, step, cfg);
    } else if step.Fail? {
      FailedCloses(db, step.run, step.code, step.now);
    } else {
      var next := Apply(db, step, cfg);
      HandoffsUntouched(db, step, cfg);
      forall h | h in next.handoffs ensures HandoffClosed(next.runs, next.handoffs[h]) {
        assert HandoffClosed(db.runs, db.handoffs[h]);
        var q := next.handoffs[h].runId;
        if q in next.runs && next.runs[q].status == Failed {
          NoOtherFailure(db, step, cfg, q);
          if step.Complete? || step.WorkerCancel? { SettlingIsNoFailure(db, step, cfg, q); }
        }
      }
    }
  }

  /** Without the discipline this is lost exactly when a worker writes such a request for a run that
      has failed meanwhile. */
  lemma HandoffReopensIff(db: Db, step: Step, cfg: Config)
    requires Issued(db) && AllClosed(db.runs, db.handoffs)
    ensures !AllClosed(Apply(db, step, cfg).runs, Apply(db, step, cfg).handoffs) <==> OpensForFailed(db, step)
  {
    hide AllClosed, Issued, Apply, OpensForFailed;
    if OpensForFailed(db, step) {
      OpenedForFailed(db, step, cfg);
    } else if step.Materialize? {
      OtherEventsKeepClosed(db, step, cfg);
    } else {
      OtherStepsKeepClosed(db, step, cfg);
    }
  }
}
