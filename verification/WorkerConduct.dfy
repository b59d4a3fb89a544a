/** What a worker does with a run it has claimed, judged by the record of its waits and of its own
    statements: each decision is owed to what it could see at some moment of that record. */
module WorkerConduct {
  import opened Wrappers
  import opened ChatDatabase
  import opened RunLifecycle
  import opened ChatIntegrity
  import opened ChatInvariants
  import opened InputLifecycle

  /** What the connector yields: an event, whether it passes validation and whether logging it succeeds; or a throw. */
  datatype Item = Yielded(event: ConnectorEvent, isValid: bool, isLogged: bool) | Thrown

  /** Steps of other workers, commands and retention, and whether they stop this worker's connector:
      a cancellation request does, and so does a heartbeat that could not renew the lease. */
  datatype Batch = Batch(steps: seq<Step>, aborts: bool)

  datatype Entry = Waited(batch: Batch) | Did(step: Step)

  function StepsOf(entries: seq<Entry>): seq<Step> {
    if entries == [] then []
    else
      var last := |entries| - 1;
      StepsOf(entries[..last]) + match entries[last] case Waited(batch) => batch.steps case Did(step) => [step]
  }

  /** The worker's own statements. */
  function OwnOf(entries: seq<Entry>): seq<Step> {
    if entries == [] then []
    else
      var last := |entries| - 1;
      OwnOf(entries[..last]) + match entries[last] case Waited(_) => [] case Did(step) => [step]
  }

  function BatchesOf(entries: seq<Entry>): seq<Batch> {
    if entries == [] then []
    else
      var last := |entries| - 1;
      BatchesOf(entries[..last]) + match entries[last] case Waited(batch) => [batch] case Did(_) => []
  }

  predicate Stopped(entries: seq<Entry>) { exists e <- entries :: e.Waited? && e.batch.aborts }

  /** The record of one run, from the tables right after the claim on. */
  datatype Account = Account(start: Db, entries: seq<Entry>, run: Id, now: Time, cfg: Config)

  /** The tables after the first `i` entries. */
  function TablesAt(a: Account, i: nat): Db
    requires i <= |a.entries|
  {
    After(a.start, StepsOf(a.entries[..i]), a.cfg)
  }

  /** How many statements so far. */
  function Statements(a: Account): nat { |OwnOf(a.entries)| }

  /** Moment `i` lies after `j` of the worker's statements. */
  predicate Moment(a: Account, i: nat, j: nat) { i <= |a.entries| && |OwnOf(a.entries[..i])| == j }

  // ---------------------------------------------------------------- what can be seen at a moment

  predicate IsAsked(status: RunStatus) { status == CancelRequested || status == Cancelled }

  predicate FindsRequest(a: Account, i: nat)
    requires i <= |a.entries|
  {
    a.run in TablesAt(a, i).runs && IsAsked(TablesAt(a, i).runs[a.run].status)
  }

  predicate FindsNone(a: Account, i: nat)
    requires i <= |a.entries|
  {
    a.run in TablesAt(a, i).runs && !IsAsked(TablesAt(a, i).runs[a.run].status)
  }

  /** The reads of the run's context that can fail on the tables modelled here. */
  predicate ContextLoads(db: Db, r: Id) {
    && r in db.runs && db.runs[r].triggerMessageId in db.messages && db.runs[r].conversationId in db.conversations
    && forall i <- db.inputs :: db.inputs[i].runId == r && db.inputs[i].status in {Submitted, Declined} ==> Load(db.inputs[i]).Success?
  }

  predicate AskedAt(a: Account, i: nat, j: nat) { Moment(a, i, j) && (FindsRequest(a, i) || Stopped(a.entries[..i])) }

  predicate GoingAt(a: Account, i: nat, j: nat) { Moment(a, i, j) && FindsNone(a, i) && !Stopped(a.entries[..i]) }

  predicate UnstoppedAt(a: Account, i: nat, j: nat) { Moment(a, i, j) && !Stopped(a.entries[..i]) }

  predicate UnaskedAt(a: Account, i: nat, j: nat) { Moment(a, i, j) && FindsNone(a, i) }

  predicate GoneAt(a: Account, i: nat, j: nat) { Moment(a, i, j) && a.run !in TablesAt(a, i).runs }

  predicate LoadsAt(a: Account, i: nat, loads: bool) { Moment(a, i, 0) && ContextLoads(TablesAt(a, i), a.run) == loads }

  predicate DoesAt(a: Account, i: nat, j: nat, step: Step) { i < |a.entries| && a.entries[i] == Did(step) && Moment(a, i, j) }

  predicate WritesAt(a: Account, i: nat, j: nat, event: ConnectorEvent, ok: bool) {
    DoesAt(a, i, j, Materialize(a.run, event, a.now)) && Materialized(TablesAt(a, i), a.run, event, a.now).Some? == ok
  }

  predicate PausesAt(a: Account, i: nat, j: nat, ok: bool) {
    DoesAt(a, i, j, WaitForInput(a.run)) && Waiting(TablesAt(a, i), a.run).Some? == ok
  }

  /** Seen after `j` own statements: a request to cancel or the stop signal. */
  ghost predicate Asked(a: Account, j: nat) { exists i: nat :: AskedAt(a, i, j) }

  /** Neither, at one moment. */
  ghost predicate Going(a: Account, j: nat) { exists i: nat :: GoingAt(a, i, j) }

  /** First no stop signal and then no request. */
  ghost predicate GoingSinceSignal(a: Account, j: nat) {
    (exists i: nat :: UnstoppedAt(a, i, j)) && (exists i: nat :: UnaskedAt(a, i, j))
  }

  ghost predicate Gone(a: Account, j: nat) { exists i: nat :: GoneAt(a, i, j) }

  ghost predicate Loads(a: Account, loads: bool) { exists i: nat :: LoadsAt(a, i, loads) }

  /** Statement number `j` is this one. */
  ghost predicate Does(a: Account, j: nat, step: Step) { exists i: nat :: DoesAt(a, i, j, step) }

  ghost predicate Writes(a: Account, j: nat, event: ConnectorEvent, ok: bool) { exists i: nat :: WritesAt(a, i, j, event, ok) }

  ghost predicate Pauses(a: Account, j: nat, ok: bool) { exists i: nat :: PausesAt(a, i, j, ok) }

  // ---------------------------------------------------------------- what the program does then

  predicate Continues(item: Item) {
    item.Yielded? && item.isValid && item.isLogged
    && !item.event.ContactRequested? && !item.event.RunCompleted? && !item.event.RunFailed?
  }

  /** An event after which the loop goes on: the worker looked, and wrote it. */
  ghost predicate WentOn(a: Account, item: Item, j: nat) {
    Continues(item) && Going(a, j) && Writes(a, j, item.event, true)
  }

  /** An item at which the loop ends after `n` statements, with the run settled (`done`) or with a throw. */
  ghost predicate ItemEnds(a: Account, item: Item, k: nat, n: nat, done: bool) {
    item.Yielded? && Going(a, k)
    && if !item.isValid then done && n == k + 1 && Does(a, k, Fail(a.run, "INVALID_CONNECTOR_EVENT", a.now))
       else if !done && n == k + 1 then Writes(a, k, item.event, false) || (!item.isLogged && Writes(a, k, item.event, true))
       else item.isLogged && n == k + 2 && Writes(a, k, item.event, true) && Concludes(a, item.event, k + 1, done)
  }

  /** The statement that an event calls for after it was written and logged. */
  ghost predicate Concludes(a: Account, event: ConnectorEvent, j: nat, done: bool) {
    match event
    case ContactRequested(_) => Pauses(a, j, done)
    case RunCompleted => done && Does(a, j, Complete(a.run, a.now))
    case RunFailed(code) => done && Does(a, j, Fail(a.run, code, a.now))
    case _ => false
  }

  /** How the try block ends after `k` events it went on from. */
  ghost predicate Ends(a: Account, items: seq<Item>, k: nat, n: nat, done: bool)
    requires k <= |items|
  {
    || (done && n == k + 1 && Asked(a, k) && Does(a, k, WorkerCancel(a.run, a.now)))
    || (!done && n == k && (Gone(a, k) || (k < |items| && items[k].Thrown?)))
    || (k == |items| && done && n == k + 1 && GoingSinceSignal(a, k) && Does(a, k, Fail(a.run, "CONNECTOR_INCOMPLETE", a.now)))
    || (k < |items| && ItemEnds(a, items[k], k, n, done))
  }

  ghost predicate EndsAfter(a: Account, items: seq<Item>, k: nat, n: nat, done: bool) {
    k <= |items| && (forall i :: 0 <= i < k ==> WentOn(a, items[i], i)) && Ends(a, items, k, n, done)
  }

  /** The try block, `n` statements long: `done` when it returns, not `done` when it throws. */
  ghost predicate Tries(a: Account, items: seq<Item>, n: nat, done: bool) {
    || (Loads(a, true) && exists k: nat :: EndsAfter(a, items, k, n, done))
    || (!done && n == 0 && Loads(a, false))
  }

  /** The record up to moment `m`. */
  function UpTo(a: Account, m: nat): Account
    requires m <= |a.entries|
  {
    a.(entries := a.entries[..m])
  }

  /** The exception handler from moment `m` on, after `n` statements; it throws itself when the row is gone. */
  ghost predicate Recovers(a: Account, m: nat, n: nat) {
    || ((exists i: nat :: m <= i && AskedAt(a, i, n)) && Does(a, n, WorkerCancel(a.run, a.now)))
    || ((exists i: nat :: m <= i && UnstoppedAt(a, i, n)) && (exists i: nat :: m <= i && UnaskedAt(a, i, n))
        && Does(a, n, Fail(a.run, "CONNECTOR_EXECUTION_FAILED", a.now)))
  }

  /** At moment `m` the try block throws, and the handler does the one statement that is left. */
  ghost predicate ThrowsAt(a: Account, items: seq<Item>, m: nat) {
    && m <= |a.entries| && Statements(a) == Statements(UpTo(a, m)) + 1
    && Tries(UpTo(a, m), items, Statements(UpTo(a, m)), false) && Recovers(a, m, Statements(UpTo(a, m)))
  }

  /** At moment `m` the try block throws, and the handler finds no row and throws too. */
  ghost predicate ThrowsTwiceAt(a: Account, items: seq<Item>, m: nat) {
    && m <= |a.entries| && Statements(a) == Statements(UpTo(a, m)) && Tries(UpTo(a, m), items, Statements(a), false)
    && exists i: nat :: m <= i && GoneAt(a, i, Statements(a))
  }

  ghost predicate GivesUp(a: Account, connector: Option<seq<Item>>) {
    connector.Some? && exists m: nat :: ThrowsTwiceAt(a, connector.value, m)
  }

  /** All that a worker does with a run it claimed until the run is settled. */
  ghost predicate Works(a: Account, connector: Option<seq<Item>>) {
    match connector
    case None => Statements(a) == 1 && Does(a, 0, Fail(a.run, "CONNECTOR_NOT_FOUND", a.now))
    case Some(items) => Tries(a, items, Statements(a), true) || exists m: nat :: ThrowsAt(a, items, m)
  }

  // ---------------------------------------------------------------- the record grows

  function Grown(a: Account, more: seq<Entry>): Account { a.(entries := a.entries + more) }

  /** `b` is `a` some entries later. */
  predicate Later(a: Account, b: Account) { a.entries <= b.entries && b == a.(entries := b.entries) }

  lemma SamePast(a: Account, b: Account, i: nat)
    requires Later(a, b) && i <= |a.entries|
    ensures b.entries[..i] == a.entries[..i]
  {}

  /** What was seen and done stays so. */
  lemma WentOnStays(a: Account, b: Account, item: Item, j: nat)
    requires Later(a, b) && WentOn(a, item, j)
    ensures WentOn(b, item, j)
  {
    hide Going, Writes;
    GoingStays(a, b, j);
    WritesStays(a, b, j, item.event, true);
  }

  lemma GoingStays(a: Account, b: Account, j: nat)
    requires Later(a, b) && Going(a, j)
    ensures Going(b, j)
  {
    var i: nat :| GoingAt(a, i, j);
    SamePast(a, b, i);
    assert GoingAt(b, i, j);
  }

  lemma AskedStays(a: Account, b: Account, j: nat)
    requires Later(a, b) && Asked(a, j)
    ensures Asked(b, j)
  {
    var i: nat :| AskedAt(a, i, j);
    SamePast(a, b, i);
    assert AskedAt(b, i, j);
  }

  lemma WritesStays(a: Account, b: Account, j: nat, event: ConnectorEvent, ok: bool)
    requires Later(a, b) && Writes(a, j, event, ok)
    ensures Writes(b, j, event, ok)
  {
    var i: nat :| WritesAt(a, i, j, event, ok);
    SamePast(a, b, i);
    assert WritesAt(b, i, j, event, ok);
  }

  lemma PausesStays(a: Account, b: Account, j: nat, ok: bool)
    requires Later(a, b) && Pauses(a, j, ok)
    ensures Pauses(b, j, ok)
  {
    var i: nat :| PausesAt(a, i, j, ok);
    SamePast(a, b, i);
    assert PausesAt(b, i, j, ok);
  }

  lemma GoneStays(a: Account, b: Account, j: nat)
    requires Later(a, b) && Gone(a, j)
    ensures Gone(b, j)
  {
    var i: nat :| GoneAt(a, i, j);
    SamePast(a, b, i);
    assert GoneAt(b, i, j);
  }

  lemma SignalStays(a: Account, b: Account, i: nat, j: nat)
    requires Later(a, b)
    ensures UnstoppedAt(a, i, j) ==> UnstoppedAt(b, i, j)
    ensures UnaskedAt(a, i, j) ==> UnaskedAt(b, i, j)
    ensures AskedAt(a, i, j) ==> AskedAt(b, i, j)
  {
    if i <= |a.entries| {
      SamePast(a, b, i);
    }
  }

  lemma LoadsStays(a: Account, b: Account, loads: bool)
    requires Later(a, b) && Loads(a, loads)
    ensures Loads(b, loads)
  {
    var i: nat :| LoadsAt(a, i, loads);
    SamePast(a, b, i);
    assert LoadsAt(b, i, loads);
  }

  /** The present moment. */
  lemma Present(a: Account)
    ensures Moment(a, |a.entries|, Statements(a)) && TablesAt(a, |a.entries|) == After(a.start, StepsOf(a.entries), a.cfg)
    ensures a.entries[..|a.entries|] == a.entries
  {
    assert a.entries[..|a.entries|] == a.entries;
  }

  /** A statement done now. */
  lemma DidNow(a: Account, step: Step)
    ensures var b := Grown(a, [Did(step)]);
      && DoesAt(b, |a.entries|, Statements(a), step) && Statements(b) == Statements(a) + 1
      && TablesAt(b, |a.entries|) == After(a.start, StepsOf(a.entries), a.cfg)
      && BatchesOf(b.entries) == BatchesOf(a.entries)
      && StepsOf(b.entries) == StepsOf(a.entries) + [step] && OwnOf(b.entries) == OwnOf(a.entries) + [step]
      && Stopped(b.entries) == Stopped(a.entries)
  {
    var b := Grown(a, [Did(step)]);
    assert b.entries[..|a.entries|] == a.entries;
    assert Stopped(b.entries) == Stopped(a.entries) by {
      assert forall e :: e in b.entries <==> e in a.entries || e == Did(step);
    }
  }

  /** A wait. */
  lemma WaitedNow(a: Account, batch: Batch)
    ensures var b := Grown(a, [Waited(batch)]);
      && Statements(b) == Statements(a) && OwnOf(b.entries) == OwnOf(a.entries) && StepsOf(b.entries) == StepsOf(a.entries) + batch.steps
      && Stopped(b.entries) == (Stopped(a.entries) || batch.aborts) && BatchesOf(b.entries) == BatchesOf(a.entries) + [batch]
  {
    var b := Grown(a, [Waited(batch)]);
    assert b.entries[..|a.entries|] == a.entries;
    assert Stopped(b.entries) == (Stopped(a.entries) || batch.aborts) by {
      assert forall e :: e in b.entries <==> e in a.entries || e == Waited(batch);
      assert batch.aborts ==> Waited(batch) in b.entries;
    }
  }

  lemma WroteThen(a: Account, i: nat, j: nat, event: ConnectorEvent, tables: Db)
    requires DoesAt(a, i, j, Materialize(a.run, event, a.now)) && TablesAt(a, i) == tables
    ensures Writes(a, j, event, Materialized(tables, a.run, event, a.now).Some?)
  {
    hide TablesAt, Materialized, Moment;
    assert WritesAt(a, i, j, event, Materialized(tables, a.run, event, a.now).Some?);
  }

  lemma PausedThen(a: Account, i: nat, j: nat, tables: Db)
    requires DoesAt(a, i, j, WaitForInput(a.run)) && TablesAt(a, i) == tables
    ensures Pauses(a, j, Waiting(tables, a.run).Some?)
  {
    hide TablesAt, Waiting, Moment;
    assert PausesAt(a, i, j, Waiting(tables, a.run).Some?);
  }

  lemma LookedThen(a: Account, i: nat, j: nat)
    ensures UnaskedAt(a, i, j) && !Stopped(a.entries[..i]) ==> Going(a, j)
    ensures AskedAt(a, i, j) ==> Asked(a, j)
    ensures GoneAt(a, i, j) ==> Gone(a, j)
  {
    if UnaskedAt(a, i, j) && !Stopped(a.entries[..i]) { assert GoingAt(a, i, j); }
  }

  // ---------------------------------------------------------------- how the parts make a try block

  lemma AllStay(a: Account, b: Account, items: seq<Item>, k: nat)
    requires Later(a, b) && k <= |items| && forall i :: 0 <= i < k ==> WentOn(a, items[i], i)
    ensures forall i :: 0 <= i < k ==> WentOn(b, items[i], i)
  {
    hide WentOn;
    forall i | 0 <= i < k ensures WentOn(b, items[i], i) {
      WentOnStays(a, b, items[i], i);
    }
  }

  lemma Tried(loaded: Account, a: Account, items: seq<Item>, k: nat, n: nat, done: bool)
    requires Later(loaded, a) && Loads(loaded, true) && k <= |items|
    requires (forall i :: 0 <= i < k ==> WentOn(a, items[i], i)) && Ends(a, items, k, n, done)
    ensures Tries(a, items, n, done)
  {
    LoadsStays(loaded, a, true);
    hide WentOn, Ends, Loads;
    assert EndsAfter(a, items, k, n, done);
  }

  lemma StoppedEnds(a: Account, items: seq<Item>, k: nat, cancelled: bool)
    requires k <= |items|
    requires if cancelled then Asked(a, k) && Does(a, k, WorkerCancel(a.run, a.now)) else Gone(a, k)
    ensures Ends(a, items, k, if cancelled then k + 1 else k, cancelled)
  {
    hide Asked, Does, Gone, Going, Writes, GoingSinceSignal;
  }

  lemma ItemEndsIt(a: Account, items: seq<Item>, k: nat, n: nat, done: bool)
    requires k < |items| && (ItemEnds(a, items[k], k, n, done) || (items[k].Thrown? && n == k && !done))
    ensures Ends(a, items, k, n, done)
  {
    hide ItemEnds;
  }

  lemma IncompleteEnds(a: Account, items: seq<Item>, i: nat, s: nat, k: nat)
    requires k == |items| && UnstoppedAt(a, s, k) && UnaskedAt(a, i, k) && Does(a, k, Fail(a.run, "CONNECTOR_INCOMPLETE", a.now))
    ensures Ends(a, items, k, k + 1, true)
  {
    hide UnstoppedAt, UnaskedAt, Does;
  }

  lemma UnloadedEnds(a: Account, items: seq<Item>)
    requires Loads(a, false)
    ensures Tries(a, items, 0, false)
  {
    hide Loads, EndsAfter;
  }

  lemma WorksIf(a: Account, connector: Option<seq<Item>>)
    ensures connector.None? && Statements(a) == 1 && Does(a, 0, Fail(a.run, "CONNECTOR_NOT_FOUND", a.now)) ==> Works(a, connector)
    ensures connector.Some? && Tries(a, connector.value, Statements(a), true) ==> Works(a, connector)
  {
    hide Does, Tries, Statements, ThrowsAt;
  }

  lemma LoadedNow(a: Account)
    requires Statements(a) == 0
    ensures Loads(a, ContextLoads(After(a.start, StepsOf(a.entries), a.cfg), a.run))
  {
    Present(a);
    hide After, ContextLoads;
    assert LoadsAt(a, |a.entries|, ContextLoads(After(a.start, StepsOf(a.entries), a.cfg), a.run));
  }

  /** A throw at one moment, and after it the handler's one statement. */
  lemma ThrewThen(thrown: Account, a: Account, items: seq<Item>)
    requires Later(thrown, a) && Tries(thrown, items, Statements(thrown), false)
    requires Statements(a) == Statements(thrown) + 1 && Recovers(a, |thrown.entries|, Statements(thrown))
    ensures Works(a, Some(items))
  {
    hide Tries, Recovers, Statements;
    assert UpTo(a, |thrown.entries|) == thrown;
    assert ThrowsAt(a, items, |thrown.entries|);
  }

  lemma ThrewTwice(thrown: Account, a: Account, items: seq<Item>)
    requires Later(thrown, a) && Tries(thrown, items, Statements(thrown), false)
    requires Statements(a) == Statements(thrown) && GoneAt(a, |a.entries|, Statements(a))
    ensures GivesUp(a, Some(items))
  {
    hide Tries, GoneAt, Statements;
    assert UpTo(a, |thrown.entries|) == thrown;
    assert ThrowsTwiceAt(a, items, |thrown.entries|);
  }

  lemma CancelRecovers(a: Account, m: nat, i: nat, n: nat)
    requires m <= i && AskedAt(a, i, n) && Does(a, n, WorkerCancel(a.run, a.now))
    ensures Recovers(a, m, n)
  {
    hide AskedAt, Does;
  }

  lemma FailRecovers(a: Account, m: nat, s: nat, i: nat, n: nat)
    requires m <= s && m <= i && UnstoppedAt(a, s, n) && UnaskedAt(a, i, n)
    requires Does(a, n, Fail(a.run, "CONNECTOR_EXECUTION_FAILED", a.now))
    ensures Recovers(a, m, n)
  {
    hide UnstoppedAt, UnaskedAt, Does;
  }

  lemma SignalNow(a: Account)
    ensures if Stopped(a.entries) then AskedAt(a, |a.entries|, Statements(a)) else UnstoppedAt(a, |a.entries|, Statements(a))
  {
    Present(a);
  }

  // ---------------------------------------------------------------- what that says of a run

  lemma {:induction false} OwnPrefix(entries: seq<Entry>, i: nat)
    requires i <= |entries|
    ensures OwnOf(entries[..i]) <= OwnOf(entries)
    decreases |entries|
  {
    if i == |entries| {
      assert entries[..i] == entries;
    } else {
      var shorter := entries[..|entries| - 1];
      assert shorter[..i] == entries[..i];
      OwnPrefix(shorter, i);
    }
  }

  /** Statement number `j` stands at that place among the worker's own. */
  lemma DoneIsOwn(a: Account, i: nat, j: nat, step: Step)
    requires DoesAt(a, i, j, step)
    ensures j < Statements(a) && OwnOf(a.entries)[j] == step
  {
    var upTo := a.entries[..i + 1];
    assert upTo[..|upTo| - 1] == a.entries[..i];
    OwnPrefix(a.entries, i + 1);
  }

  lemma DoesIsOwn(a: Account, j: nat, step: Step)
    requires Does(a, j, step)
    ensures j < Statements(a) && OwnOf(a.entries)[j] == step
  {
    var i: nat :| DoesAt(a, i, j, step);
    DoneIsOwn(a, i, j, step);
  }

  lemma WriteIsOwn(a: Account, j: nat, event: ConnectorEvent, ok: bool)
    requires Writes(a, j, event, ok)
    ensures j < Statements(a) && OwnOf(a.entries)[j] == Materialize(a.run, event, a.now)
  {
    var i: nat :| WritesAt(a, i, j, event, ok);
    DoneIsOwn(a, i, j, Materialize(a.run, event, a.now));
  }

  lemma PauseIsOwn(a: Account, j: nat, ok: bool)
    requires Pauses(a, j, ok)
    ensures j < Statements(a) && OwnOf(a.entries)[j] == WaitForInput(a.run)
  {
    var i: nat :| PausesAt(a, i, j, ok);
    DoneIsOwn(a, i, j, WaitForInput(a.run));
  }

  /** The first `k` items are events that leave the loop going. */
  predicate Reached(items: seq<Item>, k: nat) { k <= |items| && forall i :: 0 <= i < k ==> Continues(items[i]) }

  /** And the worker's first `k` statements wrote them. */
  predicate Written(a: Account, items: seq<Item>, k: nat) {
    && Reached(items, k) && k <= Statements(a)
    && forall i :: 0 <= i < k ==> OwnOf(a.entries)[i] == Materialize(a.run, items[i].event, a.now)
  }

  lemma WrittenSoFar(a: Account, items: seq<Item>, k: nat)
    requires k <= |items| && k <= Statements(a) && forall i :: 0 <= i < k ==> WentOn(a, items[i], i)
    ensures Written(a, items, k)
  {
    hide OwnOf, Going, Writes;
    forall i | 0 <= i < k ensures Continues(items[i]) && OwnOf(a.entries)[i] == Materialize(a.run, items[i].event, a.now) {
      assert WentOn(a, items[i], i);
      WriteIsOwn(a, i, items[i].event, true);
    }
  }

  predicate LastIs(a: Account, step: Step) { Statements(a) > 0 && OwnOf(a.entries)[Statements(a) - 1] == step }

  /** What calls for the last statement when the try block returns after `k` events. */
  ghost predicate CalledFor(a: Account, items: seq<Item>, k: nat) {
    || (LastIs(a, WorkerCancel(a.run, a.now)) && Asked(a, k))
    || (LastIs(a, Fail(a.run, "CONNECTOR_INCOMPLETE", a.now)) && k == |items|)
    || (k < |items| && items[k].Yielded? && !items[k].isValid && LastIs(a, Fail(a.run, "INVALID_CONNECTOR_EVENT", a.now)))
    || (k < |items| && Heeded(a, items[k], k))
  }

  /** The event was valid, written and logged, and its own last word is the worker's. */
  ghost predicate Heeded(a: Account, item: Item, k: nat) {
    && item.Yielded? && item.isValid && item.isLogged && Statements(a) == k + 2 && Writes(a, k, item.event, true)
    && match item.event
       case ContactRequested(_) => LastIs(a, WaitForInput(a.run)) && Pauses(a, k + 1, true)
       case RunCompleted => LastIs(a, Complete(a.run, a.now))
       case RunFailed(code) => LastIs(a, Fail(a.run, code, a.now))
       case _ => false
  }

  lemma EndIsCalledFor(a: Account, items: seq<Item>, k: nat)
    requires EndsAfter(a, items, k, Statements(a), true)
    ensures CalledFor(a, items, k) && Written(a, items, k)
  {
    hide OwnOf, Asked, Going, GoingSinceSignal, Does, Writes, Pauses, Gone, Statements;
    assert k <= Statements(a);
    WrittenSoFar(a, items, k);
    if Statements(a) == k + 1 && Asked(a, k) && Does(a, k, WorkerCancel(a.run, a.now)) {
      DoesIsOwn(a, k, WorkerCancel(a.run, a.now));
    } else if k == |items| {
      DoesIsOwn(a, k, Fail(a.run, "CONNECTOR_INCOMPLETE", a.now));
    } else if !items[k].isValid {
      DoesIsOwn(a, k, Fail(a.run, "INVALID_CONNECTOR_EVENT", a.now));
    } else {
      HeededNow(a, items[k], k);
    }
  }

  lemma HeededNow(a: Account, item: Item, k: nat)
    requires item.Yielded? && item.isValid && item.isLogged && Statements(a) == k + 2
    requires Writes(a, k, item.event, true) && Concludes(a, item.event, k + 1, true)
    ensures Heeded(a, item, k)
  {
    hide OwnOf, Does, Writes, Pauses, Statements;
    match item.event
    case ContactRequested(_) => PauseIsOwn(a, k + 1, true);
    case RunCompleted => DoesIsOwn(a, k + 1, Complete(a.run, a.now));
    case RunFailed(code) => DoesIsOwn(a, k + 1, Fail(a.run, code, a.now));
    case _ =>
  }

  lemma RecoveryIsLast(a: Account, m: nat)
    requires Statements(a) > 0 && Recovers(a, m, Statements(a) - 1)
    ensures (LastIs(a, WorkerCancel(a.run, a.now)) && Asked(a, Statements(a) - 1))
      || LastIs(a, Fail(a.run, "CONNECTOR_EXECUTION_FAILED", a.now))
  {
    hide OwnOf, Does, Statements, AskedAt, UnstoppedAt, UnaskedAt;
    var n := Statements(a) - 1;
    if i: nat :| m <= i && AskedAt(a, i, n) && Does(a, n, WorkerCancel(a.run, a.now)) {
      DoesIsOwn(a, n, WorkerCancel(a.run, a.now));
    } else {
      DoesIsOwn(a, n, Fail(a.run, "CONNECTOR_EXECUTION_FAILED", a.now));
    }
  }

  /** A run is completed, or set to wait, only on the connector's word, with all that it said before written in order. */
  lemma OutcomeWasReported(a: Account, items: seq<Item>)
    requires Works(a, Some(items)) && (LastIs(a, Complete(a.run, a.now)) || LastIs(a, WaitForInput(a.run)))
    ensures exists k: nat :: k < |items| && Written(a, items, k) && Heeded(a, items[k], k) && !items[k].event.RunFailed?
  {
    hide OwnOf, Statements, EndsAfter, Recovers, Asked, Written, Writes, Pauses;
    if m: nat :| ThrowsAt(a, items, m) {
      hide Tries;
      RecoveryIsLast(a, m);
      assert false;
    } else {
      var k: nat :| EndsAfter(a, items, k, Statements(a), true);
      EndIsCalledFor(a, items, k);
      assert Written(a, items, k) && Heeded(a, items[k], k);
    }
  }

  /** A run is cancelled only if a request to cancel it, or the stop signal, could be seen. */
  lemma CancelWasAsked(a: Account, items: seq<Item>)
    requires Works(a, Some(items)) && LastIs(a, WorkerCancel(a.run, a.now))
    ensures Stopped(a.entries) || exists i: nat :: i <= |a.entries| && FindsRequest(a, i)
  {
    var i, j := Witness(a, items);
    assert Stopped(a.entries[..i]) ==> Stopped(a.entries);
  }

  lemma Witness(a: Account, items: seq<Item>) returns (i: nat, j: nat)
    requires Works(a, Some(items)) && LastIs(a, WorkerCancel(a.run, a.now))
    ensures AskedAt(a, i, j)
  {
    hide OwnOf, Statements, EndsAfter, Recovers, AskedAt, Written, Writes, Pauses;
    if m: nat :| ThrowsAt(a, items, m) {
      hide Tries;
      RecoveryIsLast(a, m);
      j := Statements(a) - 1;
      i :| AskedAt(a, i, j);
    } else {
      var k: nat :| EndsAfter(a, items, k, Statements(a), true);
      EndIsCalledFor(a, items, k);
      i :| AskedAt(a, i, k);
      j := k;
    }
  }

  /** Why the try block may have thrown after `k` events. */
  ghost predicate Owed(a: Account, items: seq<Item>, k: nat) {
    || (Statements(a) == 1 && Loads(a, false))
    || Gone(a, k)
    || (k < |items| && (items[k].Thrown? || Unheeded(a, items[k], k) || Heeded(a, items[k], k)))
  }

  /** The event could not be written or logged, or the run was not running any more when it had to wait. */
  ghost predicate Unheeded(a: Account, item: Item, k: nat) {
    item.Yielded? && (Writes(a, k, item.event, false) || (Writes(a, k, item.event, true) && (!item.isLogged || Pauses(a, k + 1, false))))
  }

  lemma ThrowIsOwed(a: Account, u: Account, items: seq<Item>, k: nat)
    requires Later(u, a) && EndsAfter(u, items, k, Statements(u), false) && Statements(u) <= Statements(a)
    ensures Written(a, items, k) && Owed(a, items, k)
  {
    hide OwnOf, Statements, WentOn, Gone, Going, Writes, Pauses, Does, Asked, GoingSinceSignal, Loads;
    AllStay(u, a, items, k);
    assert k <= Statements(u);
    WrittenSoFar(a, items, k);
    if Gone(u, k) {
      GoneStays(u, a, k);
    } else if items[k].Yielded? {
      var event := items[k].event;
      if Writes(u, k, event, false) { WritesStays(u, a, k, event, false); }
      if Writes(u, k, event, true) { WritesStays(u, a, k, event, true); }
      if Pauses(u, k + 1, false) { PausesStays(u, a, k + 1, false); }
    }
  }

  /** A run is failed for a broken execution only when one was due: its context did not load, its row
      was gone, the connector threw, an event could not be written or logged or waited for, or the
      connector itself gave that code; and all that the connector said before was written in order. */
  lemma FailureWasOwed(a: Account, items: seq<Item>)
    requires Works(a, Some(items)) && LastIs(a, Fail(a.run, "CONNECTOR_EXECUTION_FAILED", a.now))
    ensures exists k: nat :: Written(a, items, k) && Owed(a, items, k)
  {
    hide OwnOf, Statements, EndsAfter, Recovers, Asked, Written, Writes, Pauses, Gone, Loads;
    if m: nat :| ThrowsAt(a, items, m) {
      var u := UpTo(a, m);
      if k: nat :| EndsAfter(u, items, k, Statements(u), false) {
        ThrowIsOwed(a, u, items, k);
      } else {
        LoadsStays(u, a, false);
        WrittenSoFar(a, items, 0);
        assert Owed(a, items, 0);
      }
    } else {
      var k: nat :| EndsAfter(a, items, k, Statements(a), true);
      EndIsCalledFor(a, items, k);
      assert |"CONNECTOR_EXECUTION_FAILED"| == 26 && |"CONNECTOR_INCOMPLETE"| == 20 && |"INVALID_CONNECTOR_EVENT"| == 23;
      assert Owed(a, items, k);
    }
  }

  /** So failing a run at once is a worker's work if and only if its context does not load or the
      connector throws before it yields anything. */
  lemma FailingAtOnceIff(a: Account, items: seq<Item>)
    requires a.entries == [Did(Fail(a.run, "CONNECTOR_EXECUTION_FAILED", a.now))]
    requires a.run in a.start.runs && !IsAsked(a.start.runs[a.run].status)
    ensures Works(a, Some(items)) <==> !ContextLoads(a.start, a.run) || (items != [] && items[0].Thrown?)
  {
    assert a.entries[..1] == a.entries && a.entries[..0] == [] && OwnOf([]) == [] && StepsOf([]) == [];
    assert OwnOf(a.entries) == [Fail(a.run, "CONNECTOR_EXECUTION_FAILED", a.now)];
    assert TablesAt(a, 0) == a.start;
    hide ContextLoads;
    if ContextLoads(a.start, a.run) && (items == [] || items[0].Yielded?) {
      if Works(a, Some(items)) {
        FailureWasOwed(a, items);
        var k: nat :| Written(a, items, k) && Owed(a, items, k);
        assert k == 0;
        NothingWasOwed(a, items);
      }
    } else {
      ThrowAtOnce(a, items);
    }
  }

  lemma ThrowAtOnce(a: Account, items: seq<Item>)
    requires a.entries == [Did(Fail(a.run, "CONNECTOR_EXECUTION_FAILED", a.now))] && OwnOf(a.entries[..0]) == [] && Statements(a) == 1
    requires TablesAt(a, 0) == a.start && a.run in a.start.runs && !IsAsked(a.start.runs[a.run].status)
    requires !ContextLoads(a.start, a.run) || (items != [] && items[0].Thrown?)
    ensures Works(a, Some(items))
  {
    hide ContextLoads, OwnOf, IsAsked;
    var u := UpTo(a, 0);
    assert u.entries == a.entries[..0] == [];
    assert TablesAt(u, 0) == TablesAt(a, 0) && Statements(u) == 0;
    LoadedThen(u);
    assert Tries(u, items, 0, false) by {
      if ContextLoads(a.start, a.run) {
        ItemEndsIt(u, items, 0, 0, false);
        Tried(u, u, items, 0, 0, false);
      }
    }
    assert UnstoppedAt(a, 0, 0) && UnaskedAt(a, 0, 0) && DoesAt(a, 0, 0, Fail(a.run, "CONNECTOR_EXECUTION_FAILED", a.now));
    FailRecovers(a, 0, 0, 0, 0);
    hide Tries, Recovers;
    assert ThrowsAt(a, items, 0);
  }

  lemma LoadedThen(u: Account)
    requires Statements(u) == 0 && u.entries == [] && TablesAt(u, 0) == u.start
    ensures Loads(u, ContextLoads(u.start, u.run))
  {
    hide TablesAt, ContextLoads;
    assert u.entries[..0] == u.entries;
    assert LoadsAt(u, 0, ContextLoads(u.start, u.run));
  }

  /** Which last statement, after which part of what the connector said. */
  ghost predicate IsExplained(a: Account, items: seq<Item>, k: nat) {
    && Written(a, items, k)
    && (|| LastIs(a, WorkerCancel(a.run, a.now))
        || (LastIs(a, Fail(a.run, "CONNECTOR_INCOMPLETE", a.now)) && k == |items|)
        || (LastIs(a, Fail(a.run, "INVALID_CONNECTOR_EVENT", a.now)) && k < |items| && items[k].Yielded? && !items[k].isValid)
        || (LastIs(a, Fail(a.run, "CONNECTOR_EXECUTION_FAILED", a.now)) && Owed(a, items, k))
        || (k < |items| && Heeded(a, items[k], k)))
  }

  /** How every execution ends: without a connector the run is failed at once; with one, all that it said and
      that left the loop going is written in order, and then comes the cancellation, one of the three
      failures, each for its cause, or what the next event itself calls for. */
  lemma EveryEndIsExplained(a: Account, connector: Option<seq<Item>>)
    requires Works(a, connector)
    ensures connector.None? ==> OwnOf(a.entries) == [Fail(a.run, "CONNECTOR_NOT_FOUND", a.now)]
    ensures connector.Some? ==> exists k: nat :: IsExplained(a, connector.value, k)
  {
    if connector.None? {
      DoesIsOwn(a, 0, Fail(a.run, "CONNECTOR_NOT_FOUND", a.now));
    } else {
      EndIsExplained(a, connector.value);
    }
  }

  lemma ReturnIsExplained(a: Account, items: seq<Item>, k: nat)
    requires EndsAfter(a, items, k, Statements(a), true)
    ensures IsExplained(a, items, k)
  {
    EndIsCalledFor(a, items, k);
    hide EndsAfter, Written, LastIs, Heeded, Asked, Owed;
  }

  lemma RecoveryIsExplained(a: Account, items: seq<Item>, m: nat)
    requires ThrowsAt(a, items, m) && !LastIs(a, Fail(a.run, "CONNECTOR_EXECUTION_FAILED", a.now))
    ensures exists k: nat :: IsExplained(a, items, k)
  {
    RecoveryIsLast(a, m);
    hide LastIs, Tries, Recovers;
    var k := ThrownAfter(a, items, m);
    hide Written, Owed, Heeded, ThrowsAt;
    assert IsExplained(a, items, k);
  }

  lemma EndIsExplained(a: Account, items: seq<Item>)
    requires Works(a, Some(items))
    ensures exists k: nat :: IsExplained(a, items, k)
  {
    if LastIs(a, Fail(a.run, "CONNECTOR_EXECUTION_FAILED", a.now)) {
      hide Works, Owed, Written, LastIs;
      FailureWasOwed(a, items);
      var k: nat :| Written(a, items, k) && Owed(a, items, k);
      assert IsExplained(a, items, k);
    } else {
      hide IsExplained, LastIs, EndsAfter, ThrowsAt, Statements;
      if m: nat :| ThrowsAt(a, items, m) {
        RecoveryIsExplained(a, items, m);
      } else {
        var k: nat :| EndsAfter(a, items, k, Statements(a), true);
        ReturnIsExplained(a, items, k);
      }
    }
  }

  lemma ThrownAfter(a: Account, items: seq<Item>, m: nat) returns (k: nat)
    requires ThrowsAt(a, items, m)
    ensures Written(a, items, k)
  {
    hide OwnOf, Statements, EndsAfter, Recovers, Written, Gone, Loads, Owed;
    var u := UpTo(a, m);
    if j: nat :| EndsAfter(u, items, j, Statements(u), false) {
      k := j;
      ThrowIsOwed(a, u, items, k);
    } else {
      k := 0;
      WrittenSoFar(a, items, 0);
    }
  }

  lemma NothingWasOwed(a: Account, items: seq<Item>)
    requires OwnOf(a.entries) == [Fail(a.run, "CONNECTOR_EXECUTION_FAILED", a.now)] && |a.entries| == 1
    requires TablesAt(a, 0) == a.start && ContextLoads(a.start, a.run) && (items == [] || items[0].Yielded?)
    ensures !Owed(a, items, 0)
  {
    assert a.entries[..1] == a.entries;
    hide ContextLoads, TablesAt, After;
    assert forall i: nat :: Moment(a, i, 0) ==> i == 0;
    assert ContextLoads(a.start, a.run) ==> a.run in a.start.runs by { NeedsRow(a.start, a.run); }
    assert !Loads(a, false) && !Gone(a, 0);
    if items != [] && items[0].Yielded? {
      if ok :| ok in {true, false} && Writes(a, 0, items[0].event, ok) {
        WriteIsOwn(a, 0, items[0].event, ok);
        assert false;
      }
    }
  }

  lemma NeedsRow(db: Db, r: Id)
    ensures ContextLoads(db, r) ==> r in db.runs
  {}

  lemma WholeLoads(db: Db, r: Id)
    requires Paired(db.messages, db.runs) && Linked(db.conversations, db.runs, db.handoffs, db.inputs) && Resolutions(db.inputs)
    ensures ContextLoads(db, r) <==> r in db.runs
  {
    hide Paired, Distinct, HasRun;
    if r in db.runs {
      PairFits(db.messages, db.runs, r);
      forall i | i in db.inputs && db.inputs[i].status in {Submitted, Declined} ensures Load(db.inputs[i]).Success? {
        assert Resolution(db.inputs[i]);
      }
    }
  }

  lemma PairFits(messages: map<Id, Message>, runs: map<Id, Run>, r: Id)
    requires Paired(messages, runs) && r in runs
    ensures RunFits(messages, runs[r])
  {}

  /** In every reachable state the context of a run that is there loads. */
  lemma ContextAlwaysLoads(trace: seq<Step>, cfg: Config, r: Id)
    ensures ContextLoads(After(EMPTY_DB, trace, cfg), r) <==> r in After(EMPTY_DB, trace, cfg).runs
  {
    EmptyIsWhole();
    AlwaysWhole(EMPTY_DB, trace, cfg);
    AlwaysResolutions(EMPTY_DB, trace, cfg);
    hide After, Paired, Linked, Numbered, ContextLoads, Resolutions;
    WholeLoads(After(EMPTY_DB, trace, cfg), r);
  }

  lemma EmptyIsWhole()
    ensures Whole(EMPTY_DB)
  {}
}
