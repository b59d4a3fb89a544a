/** Delivery of one conversation's events, end to end: the log, its publication through a
    bounded subscription, the stream that replays and then follows, and a browser client
    that reconnects from its cursor. Everything happens in interleaved steps; a step that
    is not enabled does nothing. Streams that the client gave up may still hand over what
    they had received. Two assumptions are built in: events are published in the order of
    their numbers, and a replay reads the log in one step. */
module EventDelivery {
  import opened Wrappers
  import opened EventLog
  import Broker = EventBroker
  import Reducer = ChatReducer

  datatype Phase = Subscribed | Replaying | Live | Ended

  /** One connection. `start` is the cursor it was opened with, `written` all events it
      has put on the wire, `sync` a sync.required frame after them, and `delivered` how many
      events have reached the client. `openedAt` events were published before it subscribed,
      and `answered` is what its replay gave. Published events up to number `readUpTo` have
      been taken off the subscription, and those up to `heldUpTo` were pushed to it. */
  datatype Stream = Stream(
    start: Option<LoggedEvent>,
    sub: Broker.Subscription<LoggedEvent>, taken: nat,
    phase: Phase, replay: History, lastSequence: nat,
    written: History, sync: bool, delivered: nat,
    readUpTo: nat, heldUpTo: nat, openedAt: nat, answered: Option<History>)

  /** The client. `cursor` is the event its next stream starts after, `persisted` the one
      it would start after if the page were reloaded, and `applied` the numbers of the events applied
      since `base` was fixed: by the first event after the cursor was cleared, or by the
      cursor a reload restored. */
  datatype Client = Client(
    cursor: Option<LoggedEvent>, persisted: Option<LoggedEvent>, recent: seq<string>,
    lastEventSequence: nat, base: Option<nat>, applied: set<nat>)

  /** What a stream that was given up has written and not delivered. `joined`: it was given up after the
      client's base was fixed, and the base has been the same since. */
  datatype Late = Late(events: History, sync: bool, joined: bool)

  datatype World = World(log: History, published: nat, stream: Option<Stream>, client: Client, late: seq<Late>)

  datatype Config = Config(retentionMaxEvents: nat, bufferSize: nat)

  datatype Step =
    | Append(event: LoggedEvent)
    | Publish
    | Connect
    | Replay(answer: EventReplay)
    | WriteReplayed
    | ReadNext
    | HandleNotification
    | Deliver
    | DeliverLate(index: nat)
    | Disconnect
    | Reload

  const NEW_CLIENT := Client(None, None, [], 0, None, {})

  const START := World([], 0, None, NEW_CLIENT, [])

  // ---------------------------------------------------------------- steps

  predicate FreshId(log: History, eventId: string) {
    forall i :: 0 <= i < |log| ==> log[i].eventId != eventId
  }

  function OpenedStream(cursor: Option<LoggedEvent>, published: nat): Stream {
    Stream(cursor, Broker.Opened(), 0, Subscribed, [], 0, [], false, 0, published, published, published, None)
  }

  function AfterPublish(st: Stream, event: LoggedEvent, bufferSize: nat): Stream {
    if st.sub.terminal then st
    else if event.visibility != Public then st.(heldUpTo := event.sequence)
    else
      var sub := Broker.Pushed(st.sub, event, bufferSize);
      st.(sub := sub, heldUpTo := if sub.terminal then st.heldUpTo else event.sequence)
  }

  function AfterReplay(st: Stream, answer: EventReplay): Stream {
    match answer
    case Events(events) => st.(phase := Replaying, replay := events, answered := Some(events))
    case SyncRequired(_) => st.(phase := Ended, sync := true)
  }

  function AfterWrite(st: Stream): Stream {
    if st.replay == [] then st.(phase := Live)
    else st.(written := st.written + [st.replay[0]], lastSequence := st.replay[0].sequence, replay := st.replay[1..])
  }

  function AfterNotification(st: Stream): Stream
    requires st.taken < |st.sub.seen|
  {
    match st.sub.seen[st.taken]
    case Closed => st.(phase := Ended)
    case Overflow => st.(phase := Ended, sync := true)
    case Delivered(event) =>
      var next := st.(taken := st.taken + 1, readUpTo := event.sequence);
      if event.sequence <= st.lastSequence then next
      else next.(written := st.written + [event], lastSequence := event.sequence)
  }

  function LastHundred(ids: seq<string>): seq<string> {
    if |ids| <= 100 then ids else ids[|ids| - 100..]
  }

  /** The client's handling of an ordinary event: known identifiers change nothing but
      the persisted cursor. */
  function Received(c: Client, event: LoggedEvent): Client {
    if event.eventId in c.recent then c.(persisted := Some(event))
    else Client(
      Some(event), Some(event), LastHundred(c.recent + [event.eventId]),
      if event.sequence > c.lastEventSequence then event.sequence else c.lastEventSequence,
      if c.base.None? then Some(if event.sequence == 0 then 0 else event.sequence - 1) else c.base,
      c.applied + {event.sequence})
  }

  /** After a reload only the persisted cursor is left. */
  function Reloaded(c: Client): Client {
    match c.persisted
    case None => NEW_CLIENT
    case Some(event) => Client(Some(event), Some(event), [], event.sequence, Some(event.sequence), {})
  }

  function AfterDelivery(w: World, st: Stream): World {
    if st.delivered < |st.written| then
      w.(client := Received(w.client, st.written[st.delivered]), stream := Some(st.(delivered := st.delivered + 1)))
    else if st.sync then w.(client := NEW_CLIENT, stream := None, late := Unjoined(w.late))
    else w
  }

  function Undelivered(st: Stream): History { if st.delivered <= |st.written| then st.written[st.delivered..] else [] }

  /** The client gives up its stream. */
  function GivenUp(w: World): seq<Late> {
    if w.stream.None? then w.late
    else w.late + [Late(Undelivered(w.stream.value), w.stream.value.sync, w.client.base.Some?)]
  }

  function Unjoined(late: seq<Late>): seq<Late> {
    seq(|late|, i requires 0 <= i < |late| => late[i].(joined := false))
  }

  /** The next frame of a stream that was given up. A sync.required gives up the current one, too. */
  function AfterLate(w: World, i: nat): World
    requires i < |w.late|
  {
    var from := w.late[i];
    if from.events != [] then
      w.(client := Received(w.client, from.events[0]), late := w.late[i := from.(events := from.events[1..])])
    else if from.sync then
      w.(client := NEW_CLIENT, stream := None, late := Unjoined(GivenUp(w.(late := w.late[i := from.(sync := false)]))))
    else w
  }

  ghost function Next(w: World, step: Step, cfg: Config): World {
    match step
    case Append(event) =>
      if event.sequence == |w.log| + 1 && FreshId(w.log, event.eventId) then w.(log := w.log + [event]) else w
    case Publish =>
      if w.published >= |w.log| then w
      else w.(published := w.published + 1, stream :=
        if w.stream.None? then None else Some(AfterPublish(w.stream.value, w.log[w.published], cfg.bufferSize)))
    case Connect => w.(stream := Some(OpenedStream(w.client.cursor, w.published)), late := GivenUp(w))
    case Disconnect => w.(stream := None, late := GivenUp(w))
    case Reload => w.(stream := None, client := Reloaded(w.client), late := [])
    case DeliverLate(i) => if i < |w.late| then AfterLate(w, i) else w
    case Deliver => if w.stream.None? then w else AfterDelivery(w, w.stream.value)
    case _ => if w.stream.None? then w else w.(stream := Some(ServerStep(w.log, w.stream.value, step, cfg)))
  }

  /** The steps of the route's loops. */
  ghost function ServerStep(h: History, st: Stream, step: Step, cfg: Config): Stream {
    match step
    case Replay(answer) =>
      if st.phase == Subscribed && IsReplay(h, cfg.retentionMaxEvents, Header(st), answer) then AfterReplay(st, answer) else st
    case WriteReplayed => if st.phase == Replaying then AfterWrite(st) else st
    case ReadNext =>
      if st.phase == Live && st.taken == |st.sub.seen| && !st.sub.waiting then st.(sub := Broker.Read(st.sub)) else st
    case HandleNotification => if st.phase == Live && st.taken < |st.sub.seen| then AfterNotification(st) else st
    case _ => st
  }

  /** The Last-Event-ID header. */
  function Header(st: Stream): Option<string> {
    if st.start.None? then None else Some(st.start.value.eventId)
  }

  ghost function Run(steps: seq<Step>, cfg: Config): World {
    if steps == [] then START else Next(Run(steps[..|steps| - 1], cfg), steps[|steps| - 1], cfg)
  }

  // ---------------------------------------------------------------- public events between two numbers

  predicate Pub(h: History, s: int) { 1 <= s <= |h| && h[s - 1].visibility == Public }

  ghost predicate NoPub(h: History, lo: int, hi: int) {
    forall s :: lo < s < hi ==> !Pub(h, s)
  }

  predicate InLog(h: History, e: LoggedEvent) {
    Pub(h, e.sequence) && h[e.sequence - 1] == e
  }

  /** A list of public events that skips none between its first and its last. */
  ghost predicate Chain(h: History, list: History) {
    && (forall i :: 0 <= i < |list| ==> InLog(h, list[i]))
    && (forall i, j :: 0 <= i < j < |list| ==> list[i].sequence < list[j].sequence)
    && (forall i :: 0 < i < |list| ==> Link(h, list, i))
  }

  /** No public event lies between the list's element `i` and the one before. */
  ghost predicate Link(h: History, list: History, i: int)
    requires 0 < i < |list|
  {
    NoPub(h, list[i - 1].sequence, list[i].sequence)
  }

  lemma {:induction false} PublicOnlyConcat(a: History, b: History)
    ensures PublicOnly(a + b) == PublicOnly(a) + PublicOnly(b)
  {
    if a == [] {
      assert a + b == b;
    } else {
      PublicOnlyConcat(a[1..], b);
      assert (a + b)[1..] == a[1..] + b && (a + b)[0] == a[0];
    }
  }

  /** The first public event after number `lo`, and the rest. */
  lemma {:induction false} PublicHead(h: History, lo: nat, hi: nat)
    requires Numbered(h) && lo <= hi <= |h|
    ensures PublicOnly(h[lo..hi]) == [] ==> NoPub(h, lo, hi + 1)
    ensures PublicOnly(h[lo..hi]) != [] ==>
      var first := PublicOnly(h[lo..hi])[0];
      && InLog(h, first) && lo < first.sequence <= hi && NoPub(h, lo, first.sequence)
      && PublicOnly(h[first.sequence..hi]) == PublicOnly(h[lo..hi])[1..]
    decreases hi - lo
  {
    if lo < hi {
      assert h[lo..hi][1..] == h[lo + 1..hi];
      if h[lo].visibility != Public { PublicHead(h, lo + 1, hi); }
    }
  }

  lemma ChainCons(h: History, first: LoggedEvent, rest: History)
    requires InLog(h, first) && Chain(h, rest)
    requires rest != [] ==> first.sequence < rest[0].sequence && NoPub(h, first.sequence, rest[0].sequence)
    ensures Chain(h, [first] + rest)
  {
    var list := [first] + rest;
    forall i | 0 < i < |list| ensures Link(h, list, i) { assert i == 1 || Link(h, rest, i - 1); }
  }

  lemma {:induction false} PublicIsChain(h: History, lo: nat, hi: nat)
    requires Numbered(h) && lo <= hi <= |h|
    ensures Chain(h, PublicOnly(h[lo..hi]))
    decreases hi - lo
  {
    if lo < hi {
      var rest := PublicOnly(h[lo + 1..hi]);
      assert h[lo..hi][1..] == h[lo + 1..hi];
      PublicIsChain(h, lo + 1, hi);
      if h[lo].visibility == Public {
        PublicHead(h, lo + 1, hi);
        ChainCons(h, h[lo], rest);
        assert PublicOnly(h[lo..hi]) == [h[lo]] + rest;
      }
    }
  }

  lemma {:induction false} NothingAfterLast(h: History, lo: nat, hi: nat)
    requires Numbered(h) && lo <= hi <= |h|
    ensures var list := PublicOnly(h[lo..hi]);
            NoPub(h, if list == [] then lo else list[|list| - 1].sequence, hi + 1)
    decreases hi - lo
  {
    PublicHead(h, lo, hi);
    var list := PublicOnly(h[lo..hi]);
    if list != [] { NothingAfterLast(h, list[0].sequence, hi); }
  }

  // ---------------------------------------------------------------- the invariant

  function Pending(st: Stream): seq<Broker.Notification<LoggedEvent>>
    requires st.taken <= |st.sub.seen|
  {
    st.sub.seen[st.taken..] + st.sub.queue
  }

  /** `pending` are all of `list`, or, after an overflow, some first ones and the mark. */
  ghost predicate PendingIs(pending: seq<Broker.Notification<LoggedEvent>>, list: History, overflowed: bool) {
    if overflowed then exists k: nat :: k <= |list| && pending == Broker.AsNotifications(list[..k]) + [Broker.Overflow]
    else pending == Broker.AsNotifications(list)
  }

  /** The subscription holds every public event that was published and not yet read,
      until it overflows. */
  ghost predicate Holds(h: History, published: nat, st: Stream) {
    && st.readUpTo <= st.heldUpTo <= published <= |h|
    && st.taken <= |st.sub.seen|
    && (st.sub.waiting ==> !st.sub.terminal && Pending(st) == [])
    && (!st.sub.terminal ==> st.heldUpTo == published)
    && PendingIs(Pending(st), PublicOnly(h[st.readUpTo..st.heldUpTo]), st.sub.terminal)
  }

  /** What is written, and what is sure to be written next. */
  function Assured(st: Stream): History { st.written + st.replay }

  /** The assured events start right after the cursor, if there is one. */
  ghost predicate ChainFrom(h: History, start: Option<LoggedEvent>, assured: History) {
    && Chain(h, assured)
    && (start.Some? ==> InLog(h, start.value))
    && (start.Some? && assured != [] ==> NoPub(h, start.value.sequence, assured[0].sequence))
  }

  /** Nothing public lies between the last assured event and `upTo`. */
  ghost predicate ReachesTo(h: History, start: Option<LoggedEvent>, assured: History, upTo: nat) {
    if assured != [] then NoPub(h, assured[|assured| - 1].sequence, upTo + 1)
    else start.Some? ==> NoPub(h, start.value.sequence, upTo + 1)
  }

  predicate Shape(st: Stream) {
    && st.lastSequence == (if st.written == [] then 0 else st.written[|st.written| - 1].sequence)
    && (st.phase == Subscribed ==> Assured(st) == [])
    && (st.phase == Live || st.phase == Ended ==> st.replay == [])
    && (st.phase == Subscribed || st.phase == Replaying ==> st.sub.seen == [] && !st.sub.waiting)
    && (st.sync <==> st.phase == Ended)
    && st.delivered <= |st.written|
  }

  ghost predicate StreamInv(h: History, published: nat, st: Stream) {
    && Shape(st)
    && ChainFrom(h, st.start, Assured(st))
    && (st.phase == Replaying || st.phase == Live ==> ReachesTo(h, st.start, Assured(st), st.readUpTo))
    && (st.phase != Ended ==> Holds(h, published, st))
  }

  predicate DistinctIds(h: History) {
    forall i, j :: 0 <= i < j < |h| ==> h[i].eventId != h[j].eventId
  }

  /** No silent gap: between the base and the last sequence every public event has been
      applied. */
  ghost predicate Covered(h: History, c: Client) {
    c.base.Some? ==> forall s :: c.base.value < s <= c.lastEventSequence && Pub(h, s) ==> s in c.applied
  }

  ghost predicate CursorsInLog(h: History, c: Client) {
    && (c.cursor.Some? <==> c.base.Some?) && (c.persisted.Some? <==> c.base.Some?)
    && (c.base.None? ==> c == NEW_CLIENT)
    && (c.base.Some? ==> InLog(h, c.cursor.value) && InLog(h, c.persisted.value))
    && (c.base.Some? ==> c.cursor.value.sequence <= c.lastEventSequence && c.base.value <= c.lastEventSequence)
    && c.lastEventSequence <= |h|
  }

  ghost predicate AppliedWithId(h: History, c: Client, id: string) {
    exists s <- c.applied :: Pub(h, s) && h[s - 1].eventId == id
  }

  ghost predicate AppliedInLog(h: History, c: Client) {
    && (forall s <- c.applied :: Pub(h, s) && s <= c.lastEventSequence)
    && (forall id <- c.recent :: AppliedWithId(h, c, id))
  }

  ghost predicate ClientInv(h: History, c: Client) {
    CursorsInLog(h, c) && AppliedInLog(h, c)
  }

  /** What the stream has delivered joins up with what the client has applied. */
  ghost predicate Joined(st: Stream, c: Client) {
    && (c.base.None? ==> st.start.None? && st.delivered == 0)
    && (c.base.Some? && st.delivered == 0 ==> st.start.Some? && st.start.value.sequence <= c.lastEventSequence)
    && st.delivered <= |st.written|
    && forall i :: 0 <= i < st.delivered ==> st.written[i].sequence <= c.lastEventSequence
  }

  /** And so does what a stream that was given up may still deliver. */
  ghost predicate JoinsLate(h: History, c: Client, events: History) {
    c.base.Some? && (events != [] ==> NoPub(h, c.lastEventSequence, events[0].sequence))
  }

  ghost predicate AllJoin(h: History, c: Client, late: seq<Late>) {
    forall i :: 0 <= i < |late| && late[i].joined ==> JoinsLate(h, c, late[i].events)
  }

  ghost predicate AllChains(h: History, late: seq<Late>) {
    forall i :: 0 <= i < |late| ==> Chain(h, late[i].events)
  }

  /** What holds on every run. */
  ghost predicate Sound(w: World) {
    && Numbered(w.log) && DistinctIds(w.log) && w.published <= |w.log|
    && ClientInv(w.log, w.client) && AllChains(w.log, w.late)
    && (w.stream.Some? ==> StreamInv(w.log, w.published, w.stream.value))
  }

  /** What holds as long as no late event misses the client's base. */
  ghost predicate Tidy(w: World) {
    && Covered(w.log, w.client) && AllJoin(w.log, w.client, w.late)
    && (w.stream.Some? ==> Joined(w.stream.value, w.client))
  }

  // ---------------------------------------------------------------- what each step keeps

  lemma LogGrowsForClient(h: History, event: LoggedEvent, c: Client)
    requires ClientInv(h, c)
    ensures ClientInv(h + [event], c)
  {
    var g := h + [event];
    assert forall s :: s <= |h| ==> (Pub(g, s) <==> Pub(h, s));
    forall id <- c.recent ensures AppliedWithId(g, c, id) {
      var s :| s in c.applied && Pub(h, s) && h[s - 1].eventId == id;
      assert Pub(g, s) && g[s - 1].eventId == id;
    }
  }

  lemma LogGrowsForChain(h: History, event: LoggedEvent, start: Option<LoggedEvent>, list: History)
    requires ChainFrom(h, start, list)
    ensures ChainFrom(h + [event], start, list)
  {
    var g := h + [event];
    assert forall s :: s <= |h| ==> (Pub(g, s) <==> Pub(h, s));
    assert forall i :: 0 <= i < |list| ==> InLog(h, list[i]);
    forall i | 0 < i < |list| ensures Link(g, list, i) { assert Link(h, list, i) && InLog(h, list[i]); }
  }

  lemma LogGrowsForHolds(h: History, event: LoggedEvent, published: nat, st: Stream)
    requires Holds(h, published, st)
    ensures Holds(h + [event], published, st)
  {
    assert (h + [event])[st.readUpTo..st.heldUpTo] == h[st.readUpTo..st.heldUpTo];
  }

  lemma LogGrowsForReach(h: History, event: LoggedEvent, start: Option<LoggedEvent>, list: History, upTo: nat)
    requires ReachesTo(h, start, list, upTo) && upTo <= |h|
    ensures ReachesTo(h + [event], start, list, upTo)
  {
    assert forall s :: s <= |h| ==> (Pub(h + [event], s) <==> Pub(h, s));
  }

  lemma LogGrowsForStream(h: History, event: LoggedEvent, published: nat, st: Stream)
    requires StreamInv(h, published, st)
    ensures StreamInv(h + [event], published, st)
  {
    LogGrowsForChain(h, event, st.start, Assured(st));
    if st.phase != Ended { LogGrowsForHolds(h, event, published, st); }
    if st.phase == Replaying || st.phase == Live { LogGrowsForReach(h, event, st.start, Assured(st), st.readUpTo); }
  }

  lemma PushHolds(h: History, published: nat, st: Stream, bufferSize: nat)
    requires Numbered(h) && Holds(h, published, st) && published < |h|
    ensures Holds(h, published + 1, AfterPublish(st, h[published], bufferSize))
  {
    if !st.sub.terminal {
      var event := h[published];
      var list := PublicOnly(h[st.readUpTo..published]);
      PublicOnlyConcat(h[st.readUpTo..published], [event]);
      assert h[st.readUpTo..published + 1] == h[st.readUpTo..published] + [event];
      if event.visibility == Public {
        assert PublicOnly(h[st.readUpTo..published + 1]) == list + [event];
        PushPending(st, list, event, bufferSize);
      }
    }
  }

  lemma PushPending(st: Stream, list: History, event: LoggedEvent, bufferSize: nat)
    requires st.taken <= |st.sub.seen| && !st.sub.terminal && event.visibility == Public
    requires Pending(st) == Broker.AsNotifications(list) && (st.sub.waiting ==> Pending(st) == [])
    ensures var u := AfterPublish(st, event, bufferSize);
            PendingIs(Pending(u), if u.sub.terminal then list else list + [event], u.sub.terminal)
    ensures var u := AfterPublish(st, event, bufferSize); !u.sub.waiting
  {
    var u := AfterPublish(st, event, bufferSize);
    var unread := st.sub.seen[st.taken..];
    if u.sub.terminal {
      var k := |unread|;
      assert unread == Pending(st)[..k] == Broker.AsNotifications(list)[..k] == Broker.AsNotifications(list[..k]);
      assert Pending(u) == Broker.AsNotifications(list[..k]) + [Broker.Overflow];
    } else {
      assert Pending(u) == Pending(st) + [Broker.Delivered(event)];
      assert Broker.AsNotifications(list + [event]) == Broker.AsNotifications(list) + [Broker.Delivered(event)];
    }
  }

  /** The replay answers with the chain right after the cursor, up to the end of the log. */
  lemma ReplayIsChain(h: History, cfg: Config, start: Option<LoggedEvent>, events: History, upTo: nat)
    requires Numbered(h) && DistinctIds(h) && cfg.retentionMaxEvents >= 1 && upTo <= |h|
    requires start.Some? ==> InLog(h, start.value)
    requires IsReplay(h, cfg.retentionMaxEvents, if start.None? then None else Some(start.value.eventId), Events(events))
    ensures ChainFrom(h, start, events) && ReachesTo(h, start, events, upTo)
  {
    var lo := ReplayStart(h, cfg, start, events);
    hide IsReplay, Chain, DistinctIds;
    PublicHead(h, lo, |h|);
    PublicIsChain(h, lo, |h|);
    NothingAfterLast(h, lo, |h|);
  }

  lemma ReplayStart(h: History, cfg: Config, start: Option<LoggedEvent>, events: History) returns (lo: nat)
    requires Numbered(h) && DistinctIds(h) && cfg.retentionMaxEvents >= 1
    requires start.Some? ==> InLog(h, start.value)
    requires IsReplay(h, cfg.retentionMaxEvents, if start.None? then None else Some(start.value.eventId), Events(events))
    ensures lo <= |h| && events == PublicOnly(h[lo..|h|]) && (start.Some? ==> lo == start.value.sequence)
  {
    lo := |h| - Min(|h|, cfg.retentionMaxEvents);
    if start.Some? {
      var i :| IsCursor(h, cfg.retentionMaxEvents, start.value.eventId, i);
      assert i == start.value.sequence - 1;
      lo := start.value.sequence;
    }
    assert h[lo..] == h[lo..|h|];
  }

  lemma ReplayKeeps(h: History, published: nat, st: Stream, answer: EventReplay, cfg: Config)
    requires Numbered(h) && DistinctIds(h) && cfg.retentionMaxEvents >= 1
    requires StreamInv(h, published, st) && st.phase == Subscribed
    requires IsReplay(h, cfg.retentionMaxEvents, Header(st), answer)
    ensures StreamInv(h, published, AfterReplay(st, answer))
  {
    var u := AfterReplay(st, answer);
    assert st.written == [];
    if answer.Events? {
      ReplayIsChain(h, cfg, st.start, answer.events, st.readUpTo);
      assert Assured(u) == answer.events;
      assert Pending(u) == Pending(st);
    } else {
      assert Assured(u) == [];
    }
  }

  lemma WriteKeeps(h: History, published: nat, st: Stream)
    requires StreamInv(h, published, st) && st.phase == Replaying
    ensures StreamInv(h, published, AfterWrite(st))
  {
    assert Assured(AfterWrite(st)) == Assured(st);
    assert Pending(AfterWrite(st)) == Pending(st);
  }

  lemma ReadKeeps(h: History, published: nat, st: Stream)
    requires StreamInv(h, published, st)
    requires st.phase == Live && st.taken == |st.sub.seen| && !st.sub.waiting
    ensures StreamInv(h, published, st.(sub := Broker.Read(st.sub)))
  {
    var u := st.(sub := Broker.Read(st.sub));
    assert Assured(u) == Assured(st);
    assert st.sub.terminal ==> Pending(st) != [];
    assert Pending(u) == Pending(st);
  }

  /** Taking one event off the subscription. */
  lemma TakeHolds(h: History, published: nat, st: Stream)
    requires Numbered(h) && Holds(h, published, st) && st.taken < |st.sub.seen| && st.sub.seen[st.taken].Delivered?
    ensures var event := st.sub.seen[st.taken].event;
            && InLog(h, event) && st.readUpTo < event.sequence && NoPub(h, st.readUpTo, event.sequence)
            && Holds(h, published, st.(taken := st.taken + 1, readUpTo := event.sequence))
  {
    var event := st.sub.seen[st.taken].event;
    var u := st.(taken := st.taken + 1, readUpTo := event.sequence);
    var list := PublicOnly(h[st.readUpTo..st.heldUpTo]);
    assert Pending(st)[0] == st.sub.seen[st.taken] && Pending(u) == Pending(st)[1..];
    PublicHead(h, st.readUpTo, st.heldUpTo);
    PendingTail(Pending(st), list, st.sub.terminal);
  }

  lemma PendingTail(pending: seq<Broker.Notification<LoggedEvent>>, list: History, overflowed: bool)
    requires PendingIs(pending, list, overflowed) && pending != [] && pending[0].Delivered?
    ensures list != [] && pending[0] == Broker.Delivered(list[0]) && PendingIs(pending[1..], list[1..], overflowed)
  {
    if overflowed {
      var k: nat :| k <= |list| && pending == Broker.AsNotifications(list[..k]) + [Broker.Overflow];
      assert list[1..][..k - 1] == list[..k][1..];
      assert pending[1..] == Broker.AsNotifications(list[1..][..k - 1]) + [Broker.Overflow];
    } else {
      assert pending[1..] == Broker.AsNotifications(list[1..]);
    }
  }

  lemma ChainSnoc(h: History, list: History, last: LoggedEvent)
    requires Chain(h, list) && InLog(h, last)
    requires list != [] ==> list[|list| - 1].sequence < last.sequence && NoPub(h, list[|list| - 1].sequence, last.sequence)
    ensures Chain(h, list + [last])
  {
    var after := list + [last];
    forall i | 0 < i < |after| ensures Link(h, after, i) { assert i == |list| || Link(h, list, i); }
  }

  /** An event that is written joins the chain. */
  lemma ChainAfterTake(h: History, start: Option<LoggedEvent>, written: History, readUpTo: nat, event: LoggedEvent)
    requires ChainFrom(h, start, written) && ReachesTo(h, start, written, readUpTo)
    requires written != [] ==> written[|written| - 1].sequence < event.sequence
    requires InLog(h, event) && readUpTo < event.sequence && NoPub(h, readUpTo, event.sequence)
    ensures ChainFrom(h, start, written + [event]) && ReachesTo(h, start, written + [event], event.sequence)
  {
    if written != [] {
      NoPubJoins(h, written[|written| - 1].sequence, readUpTo, event.sequence);
    } else if start.Some? {
      NoPubJoins(h, start.value.sequence, readUpTo, event.sequence);
    }
    ChainSnoc(h, written, event);
  }

  lemma NoPubJoins(h: History, lo: nat, mid: nat, hi: nat)
    requires NoPub(h, lo, mid + 1) && NoPub(h, mid, hi)
    ensures NoPub(h, lo, hi)
  {
  }

  lemma NotificationKeeps(h: History, published: nat, st: Stream)
    requires Numbered(h) && StreamInv(h, published, st) && st.phase == Live && st.taken < |st.sub.seen|
    ensures StreamInv(h, published, AfterNotification(st))
  {
    hide StreamInv, Numbered;
    if st.sub.seen[st.taken].Delivered? {
      EventKeeps(h, published, st);
    } else {
      EndKeeps(h, published, st);
    }
  }

  lemma EndKeeps(h: History, published: nat, st: Stream)
    requires StreamInv(h, published, st) && st.phase == Live && st.taken < |st.sub.seen| && !st.sub.seen[st.taken].Delivered?
    ensures StreamInv(h, published, AfterNotification(st))
  {
    assert Assured(AfterNotification(st)) == Assured(st);
    assert Pending(st)[0] == st.sub.seen[st.taken];
    assert st.sub.seen[st.taken] != Broker.Closed;
  }

  lemma EventKeeps(h: History, published: nat, st: Stream)
    requires Numbered(h) && StreamInv(h, published, st) && st.phase == Live && st.taken < |st.sub.seen|
    requires st.sub.seen[st.taken].Delivered?
    ensures StreamInv(h, published, AfterNotification(st))
  {
    var u, event := AfterNotification(st), st.sub.seen[st.taken].event;
    assert Assured(st) == st.written && Assured(u) == u.written;
    TakeHolds(h, published, st);
    if event.sequence > st.lastSequence { ChainAfterTake(h, st.start, st.written, st.readUpTo, event); }
    assert Pending(u) == Pending(st.(taken := st.taken + 1, readUpTo := event.sequence));
  }

  /** The next event of a stream leaves no public event out. */
  lemma NoGapBefore(h: History, st: Stream, c: Client)
    requires ChainFrom(h, st.start, Assured(st)) && Joined(st, c) && c.base.Some? && st.delivered < |st.written|
    ensures NoPub(h, c.lastEventSequence, st.written[st.delivered].sequence)
  {
    var list := Assured(st);
    assert st.written[st.delivered] == list[st.delivered];
    if st.delivered > 0 {
      assert st.written[st.delivered - 1] == list[st.delivered - 1];
      assert Link(h, list, st.delivered);
    }
  }

  lemma ReceivedKeeps(h: History, c: Client, event: LoggedEvent)
    requires ClientInv(h, c) && InLog(h, event)
    ensures ClientInv(h, Received(c, event))
  {
    var d := Received(c, event);
    forall id <- d.recent ensures AppliedWithId(h, d, id) {
      if id in c.recent {
        var s :| s in c.applied && Pub(h, s) && h[s - 1].eventId == id;
        assert s in d.applied;
      } else {
        assert id == event.eventId && event.sequence in d.applied;
      }
    }
  }

  lemma ReceivedReaches(h: History, c: Client, event: LoggedEvent)
    requires ClientInv(h, c) && DistinctIds(h) && InLog(h, event)
    ensures var d := Received(c, event);
      && d.lastEventSequence >= event.sequence && d.lastEventSequence >= c.lastEventSequence && d.base.Some?
      && (c.base.Some? ==> d.base == c.base)
  {
    if event.eventId in c.recent {
      assert AppliedWithId(h, c, event.eventId);
      var s :| s in c.applied && Pub(h, s) && h[s - 1].eventId == event.eventId;
      assert s == event.sequence;
    }
  }

  /** A new event leaves no gap if and only if it fixes the base or no public event lies between the
      last one and it. */
  lemma ReceivedCoversIff(h: History, c: Client, event: LoggedEvent)
    requires ClientInv(h, c) && Covered(h, c) && InLog(h, event) && event.eventId !in c.recent
    ensures Covered(h, Received(c, event)) <==> c.base.None? || NoPub(h, c.lastEventSequence, event.sequence)
  {
    if c.base.Some? && !NoPub(h, c.lastEventSequence, event.sequence) {
      var s :| c.lastEventSequence < s < event.sequence && Pub(h, s);
      assert s !in Received(c, event).applied;
    }
  }

  lemma DeliverJoins(h: History, st: Stream, c: Client)
    requires ClientInv(h, c) && DistinctIds(h) && Joined(st, c) && st.delivered < |st.written|
    requires InLog(h, st.written[st.delivered])
    ensures Joined(st.(delivered := st.delivered + 1), Received(c, st.written[st.delivered]))
  {
    ReceivedReaches(h, c, st.written[st.delivered]);
  }

  /** Other streams may have moved the client on. */
  lemma OthersJoin(h: History, st: Stream, c: Client, d: Client)
    requires Joined(st, c) && c.base.Some? && d.base.Some? && d.lastEventSequence >= c.lastEventSequence
    ensures Joined(st, d)
  {}

  lemma LateJoins(h: History, c: Client, d: Client, late: seq<Late>)
    requires AllJoin(h, c, late) && d.lastEventSequence >= c.lastEventSequence && d.base.Some?
    ensures AllJoin(h, d, late)
  {
    forall i | 0 <= i < |late| && late[i].joined ensures JoinsLate(h, d, late[i].events) {
      assert JoinsLate(h, c, late[i].events);
    }
  }

  lemma ChainTail(h: History, list: History, k: nat)
    requires Chain(h, list) && k <= |list|
    ensures Chain(h, list[k..])
  {
    forall i | 0 < i < |list[k..]| ensures Link(h, list[k..], i) { assert Link(h, list, k + i); }
  }

  lemma UndeliveredIsChain(h: History, st: Stream)
    requires ChainFrom(h, st.start, Assured(st))
    ensures Chain(h, Undelivered(st))
  {
    var list := Assured(st);
    forall i | 0 < i < |st.written| ensures Link(h, st.written, i) { assert Link(h, list, i); }
    assert forall i :: 0 <= i < |st.written| ==> st.written[i] == list[i];
    ChainTail(h, st.written, if st.delivered <= |st.written| then st.delivered else 0);
  }

  lemma GivenUpChains(w: World)
    requires Sound(w)
    ensures AllChains(w.log, GivenUp(w))
  {
    if w.stream.Some? { UndeliveredIsChain(w.log, w.stream.value); }
  }

  lemma GivenUpJoins(w: World)
    requires Sound(w) && Tidy(w)
    ensures AllJoin(w.log, w.client, GivenUp(w))
  {
    if w.stream.Some? && w.client.base.Some? && Undelivered(w.stream.value) != [] {
      NoGapBefore(w.log, w.stream.value, w.client);
    }
  }

  lemma RouteStartKeeps(h: History, published: nat, st: Stream, step: Step, cfg: Config)
    requires Numbered(h) && DistinctIds(h) && StreamInv(h, published, st) && cfg.retentionMaxEvents >= 1
    requires step.Replay? || step.WriteReplayed?
    ensures StreamInv(h, published, ServerStep(h, st, step, cfg))
  {
    hide StreamInv, IsReplay, Numbered, DistinctIds;
    if step.WriteReplayed? {
      if st.phase == Replaying { WriteKeeps(h, published, st); }
    } else if st.phase == Subscribed && IsReplay(h, cfg.retentionMaxEvents, Header(st), step.answer) {
      ReplayKeeps(h, published, st, step.answer, cfg);
    }
  }

  lemma RouteLoopKeeps(h: History, published: nat, st: Stream, step: Step, cfg: Config)
    requires Numbered(h) && StreamInv(h, published, st)
    requires step.ReadNext? || step.HandleNotification?
    ensures StreamInv(h, published, ServerStep(h, st, step, cfg))
  {
    hide StreamInv, Numbered;
    if st.phase == Live && step.ReadNext? && st.taken == |st.sub.seen| && !st.sub.waiting {
      ReadKeeps(h, published, st);
    } else if st.phase == Live && step.HandleNotification? && st.taken < |st.sub.seen| {
      NotificationKeeps(h, published, st);
    }
  }

  /** The server only ever adds to what a stream has written. */
  lemma ServerStepJoined(h: History, st: Stream, step: Step, cfg: Config, c: Client)
    requires Joined(st, c)
    ensures Joined(ServerStep(h, st, step, cfg), c)
    ensures st.written <= ServerStep(h, st, step, cfg).written
  {
  }

  /** A push touches the subscription only. */
  lemma PublishLeavesStream(st: Stream, event: LoggedEvent, bufferSize: nat)
    requires Shape(st)
    ensures var u := AfterPublish(st, event, bufferSize);
            && Shape(u) && u.start == st.start && u.phase == st.phase && u.readUpTo == st.readUpTo
            && u.written == st.written && u.replay == st.replay && u.delivered == st.delivered
  {
  }

  lemma PublishKeeps(h: History, published: nat, st: Stream, bufferSize: nat)
    requires Numbered(h) && StreamInv(h, published, st) && published < |h|
    ensures StreamInv(h, published + 1, AfterPublish(st, h[published], bufferSize))
  {
    PublishLeavesStream(st, h[published], bufferSize);
    if st.phase != Ended { PushHolds(h, published, st, bufferSize); }
  }

  lemma AppendSound(w: World, event: LoggedEvent)
    requires Sound(w) && event.sequence == |w.log| + 1 && FreshId(w.log, event.eventId)
    ensures Sound(w.(log := w.log + [event]))
  {
    LogGrowsForClient(w.log, event, w.client);
    forall i | 0 <= i < |w.late| ensures Chain(w.log + [event], w.late[i].events) {
      assert ChainFrom(w.log, None, w.late[i].events);
      LogGrowsForChain(w.log, event, None, w.late[i].events);
    }
    if w.stream.Some? { LogGrowsForStream(w.log, event, w.published, w.stream.value); }
  }

  lemma AppendTidy(w: World, event: LoggedEvent)
    requires Sound(w) && Tidy(w) && event.sequence == |w.log| + 1
    ensures Tidy(w.(log := w.log + [event]))
  {
    var g := w.log + [event];
    assert forall s :: s <= |w.log| ==> (Pub(g, s) <==> Pub(w.log, s));
    forall i | 0 <= i < |w.late| && w.late[i].joined ensures JoinsLate(g, w.client, w.late[i].events) {
      assert JoinsLate(w.log, w.client, w.late[i].events) && Chain(w.log, w.late[i].events);
    }
  }

  lemma PublishSound(w: World, cfg: Config)
    requires Sound(w)
    ensures Sound(Next(w, Publish, cfg)) && (Tidy(w) ==> Tidy(Next(w, Publish, cfg)))
  {
    hide StreamInv, ClientInv, AllChains, AllJoin, Covered;
    if w.published < |w.log| && w.stream.Some? {
      var st, event := w.stream.value, w.log[w.published];
      assert Shape(st) by { ShapeOf(w.log, w.published, st); }
      PublishKeeps(w.log, w.published, st, cfg.bufferSize);
      PublishLeavesStream(st, event, cfg.bufferSize);
    }
  }

  lemma ShapeOf(h: History, published: nat, st: Stream)
    requires StreamInv(h, published, st)
    ensures Shape(st) && ChainFrom(h, st.start, Assured(st))
  {}

  lemma ConnectSound(w: World, cfg: Config)
    requires Sound(w)
    ensures Sound(Next(w, Connect, cfg)) && (Tidy(w) ==> Tidy(Next(w, Connect, cfg)))
  {
    assert w.log[w.published..w.published] == [];
    GivenUpChains(w);
    if Tidy(w) { GivenUpJoins(w); }
    hide AllChains, AllJoin;
  }

  lemma DisconnectSound(w: World, cfg: Config)
    requires Sound(w)
    ensures Sound(Next(w, Disconnect, cfg)) && (Tidy(w) ==> Tidy(Next(w, Disconnect, cfg)))
  {
    GivenUpChains(w);
    if Tidy(w) { GivenUpJoins(w); }
  }

  lemma ReloadSound(w: World, cfg: Config)
    requires Sound(w)
    ensures Sound(Next(w, Reload, cfg)) && Tidy(Next(w, Reload, cfg))
  {}

  lemma DeliverSound(w: World)
    requires Sound(w) && w.stream.Some?
    ensures Sound(AfterDelivery(w, w.stream.value))
  {
    var st, h, c := w.stream.value, w.log, w.client;
    if st.delivered < |st.written| {
      assert st.written[st.delivered] == Assured(st)[st.delivered];
      ReceivedKeeps(h, c, st.written[st.delivered]);
      var u := st.(delivered := st.delivered + 1);
      assert Assured(u) == Assured(st);
      assert st.phase != Ended ==> Pending(u) == Pending(st);
    }
  }

  lemma DeliverTidy(w: World)
    requires Sound(w) && Tidy(w) && w.stream.Some?
    ensures Tidy(AfterDelivery(w, w.stream.value))
  {
    var st, h, c := w.stream.value, w.log, w.client;
    if st.delivered < |st.written| {
      var event := st.written[st.delivered];
      assert event == Assured(st)[st.delivered];
      if c.base.Some? { NoGapBefore(h, st, c); }
      if event.eventId !in c.recent { ReceivedCoversIff(h, c, event); }
      ReceivedReaches(h, c, event);
      LateJoins(h, c, Received(c, event), w.late);
      DeliverJoins(h, st, c);
    }
  }

  lemma LateSound(w: World, i: nat)
    requires Sound(w) && i < |w.late|
    ensures Sound(AfterLate(w, i))
  {
    var from := w.late[i];
    if from.events != [] {
      ReceivedKeeps(w.log, w.client, from.events[0]);
      ChainTail(w.log, from.events, 1);
    } else if from.sync {
      GivenUpChains(w.(late := w.late[i := from.(sync := false)]));
    }
  }

  /** A late event that the client's base was not made for. */
  predicate MissesBase(w: World, step: Step) {
    step.DeliverLate? && step.index < |w.late| && !w.late[step.index].joined && w.late[step.index].events != []
  }

  lemma LateTidy(w: World, i: nat)
    requires Sound(w) && Tidy(w) && i < |w.late| && (w.late[i].events != [] ==> w.late[i].joined)
    ensures Tidy(AfterLate(w, i))
  {
    var from, h, c := w.late[i], w.log, w.client;
    if from.events != [] {
      var event := from.events[0];
      var d := Received(c, event);
      assert Chain(h, from.events) && JoinsLate(h, c, from.events);
      if event.eventId !in c.recent { ReceivedCoversIff(h, c, event); }
      ReceivedReaches(h, c, event);
      LateJoins(h, c, d, w.late);
      if w.stream.Some? { OthersJoin(h, w.stream.value, c, d); }
      assert JoinsLate(h, d, from.events[1..]) by {
        if |from.events| > 1 { assert Link(h, from.events, 1); }
      }
    }
  }

  predicate IsServerStep(step: Step) {
    step.Replay? || step.WriteReplayed? || step.ReadNext? || step.HandleNotification?
  }

  lemma ServerSound(w: World, step: Step, cfg: Config)
    requires Sound(w) && cfg.retentionMaxEvents >= 1 && w.stream.Some? && IsServerStep(step)
    ensures Sound(Next(w, step, cfg)) && (Tidy(w) ==> Tidy(Next(w, step, cfg)))
  {
    hide StreamInv, ClientInv, AllChains, AllJoin, Covered;
    var st := w.stream.value;
    if step.Replay? || step.WriteReplayed? { RouteStartKeeps(w.log, w.published, st, step, cfg); }
    else { RouteLoopKeeps(w.log, w.published, st, step, cfg); }
    if Joined(st, w.client) { ServerStepJoined(w.log, st, step, cfg, w.client); }
  }

  lemma NextSound(w: World, step: Step, cfg: Config)
    requires Sound(w) && cfg.retentionMaxEvents >= 1
    ensures Sound(Next(w, step, cfg))
  {
    hide Sound;
    match step
    case Append(event) =>
      if event.sequence == |w.log| + 1 && FreshId(w.log, event.eventId) { AppendSound(w, event); }
    case Publish => PublishSound(w, cfg);
    case Connect => ConnectSound(w, cfg);
    case Disconnect => DisconnectSound(w, cfg);
    case Reload => ReloadSound(w, cfg);
    case Deliver => if w.stream.Some? { DeliverSound(w); }
    case DeliverLate(i) => if i < |w.late| { LateSound(w, i); }
    case _ => if w.stream.Some? { ServerSound(w, step, cfg); }
  }

  lemma NextTidy(w: World, step: Step, cfg: Config)
    requires Sound(w) && Tidy(w) && cfg.retentionMaxEvents >= 1 && !MissesBase(w, step)
    ensures Tidy(Next(w, step, cfg))
  {
    hide Sound, Tidy;
    match step
    case Append(event) =>
      if event.sequence == |w.log| + 1 && FreshId(w.log, event.eventId) { AppendTidy(w, event); }
    case Publish => PublishSound(w, cfg);
    case Connect => ConnectSound(w, cfg);
    case Disconnect => DisconnectSound(w, cfg);
    case Reload => ReloadSound(w, cfg);
    case Deliver => if w.stream.Some? { DeliverTidy(w); }
    case DeliverLate(i) => if i < |w.late| { LateTidy(w, i); }
    case _ => if w.stream.Some? { ServerSound(w, step, cfg); }
  }

  lemma {:induction false} RunKeeps(steps: seq<Step>, cfg: Config)
    requires cfg.retentionMaxEvents >= 1
    ensures Sound(Run(steps, cfg))
  {
    if steps != [] {
      RunKeeps(steps[..|steps| - 1], cfg);
      NextSound(Run(steps[..|steps| - 1], cfg), steps[|steps| - 1], cfg);
    }
  }

  /** No event of a stream given up before the client's present base was fixed is delivered. */
  ghost predicate NoneMissesBase(steps: seq<Step>, cfg: Config) {
    forall k :: 0 <= k < |steps| ==> !MissesBase(Run(steps[..k], cfg), steps[k])
  }

  lemma {:induction false} RunTidy(steps: seq<Step>, cfg: Config)
    requires cfg.retentionMaxEvents >= 1 && NoneMissesBase(steps, cfg)
    ensures Tidy(Run(steps, cfg))
  {
    if steps != [] {
      var before := steps[..|steps| - 1];
      forall k | 0 <= k < |before| ensures !MissesBase(Run(before[..k], cfg), before[k]) {
        assert before[..k] == steps[..k];
      }
      RunTidy(before, cfg);
      RunKeeps(before, cfg);
      NextTidy(Run(before, cfg), steps[|steps| - 1], cfg);
    }
  }

  // ---------------------------------------------------------------- theorems over whole runs

  /** No silent gap: whatever the interleaving, overflows, disconnects and reloads, the
      client has applied every public event after its base up to its last sequence, and
      nothing that is not a public event of the log. The first half asks that no stream given up
      before the present base was fixed delivers an event. */
  lemma NoSilentGap(steps: seq<Step>, cfg: Config)
    requires cfg.retentionMaxEvents >= 1
    ensures var w := Run(steps, cfg);
            && (forall s <- w.client.applied :: Pub(w.log, s) && s <= w.client.lastEventSequence)
            && (w.client.base.Some? && NoneMissesBase(steps, cfg) ==>
                  forall s :: w.client.base.value < s <= w.client.lastEventSequence && Pub(w.log, s) ==> s in w.client.applied)
  {
    RunKeeps(steps, cfg);
    if NoneMissesBase(steps, cfg) { RunTidy(steps, cfg); }
  }

  /** Every stream writes public events of the log in strictly increasing order and skips none. */
  lemma StreamsAreOrdered(steps: seq<Step>, cfg: Config)
    requires cfg.retentionMaxEvents >= 1 && Run(steps, cfg).stream.Some?
    ensures var h, st := Run(steps, cfg).log, Run(steps, cfg).stream.value;
            && (forall i, j :: 0 <= i < j < |st.written| ==> st.written[i].sequence < st.written[j].sequence)
            && (forall i :: 0 <= i < |st.written| ==> InLog(h, st.written[i]))
            && (forall i :: 0 < i < |st.written| ==> NoPub(h, st.written[i - 1].sequence, st.written[i].sequence))
            && (st.start.Some? && st.written != [] ==> NoPub(h, st.start.value.sequence, st.written[0].sequence))
  {
    RunKeeps(steps, cfg);
    var h, st := Run(steps, cfg).log, Run(steps, cfg).stream.value;
    var list := Assured(st);
    assert forall i :: 0 <= i < |st.written| ==> st.written[i] == list[i];
    forall i | 0 < i < |st.written| ensures NoPub(h, st.written[i - 1].sequence, st.written[i].sequence) {
      assert Link(h, list, i);
    }
  }

  /** The log is drained: all is published, the stream waits for more, and the client has
      been handed everything that was written. */
  predicate Quiet(w: World) {
    && w.published == |w.log| && w.stream.Some?
    && var st := w.stream.value;
       st.phase == Live && st.sub.waiting && st.delivered == |st.written|
  }

  /** Whenever the system comes to rest, nothing is missing: the client has every public
      event after its base. */
  lemma RestIsComplete(steps: seq<Step>, cfg: Config)
    requires cfg.retentionMaxEvents >= 1 && Quiet(Run(steps, cfg)) && NoneMissesBase(steps, cfg)
    ensures var w := Run(steps, cfg);
            w.client.base.Some? ==> forall s :: w.client.base.value < s && Pub(w.log, s) ==> s in w.client.applied
  {
    RunKeeps(steps, cfg);
    RunTidy(steps, cfg);
    var w := Run(steps, cfg);
    if w.client.base.Some? { NothingLeft(w); }
  }

  lemma NothingLeft(w: World)
    requires Sound(w) && Tidy(w) && Quiet(w) && w.client.base.Some?
    ensures forall s :: s > w.client.lastEventSequence ==> !Pub(w.log, s)
  {
    var h, st, c := w.log, w.stream.value, w.client;
    var list := PublicOnly(h[st.readUpTo..st.heldUpTo]);
    assert |Broker.AsNotifications(list)| == |list|;
    PublicHead(h, st.readUpTo, st.heldUpTo);
    assert Assured(st) == st.written;
    var reached := if st.written != [] then st.written[|st.written| - 1].sequence else st.start.value.sequence;
    NoPubJoins(h, reached, st.readUpTo, |h| + 1);
  }

  /** No loss without notice: a stream that has not ended still owes its client exactly the published public
      events it has not taken yet, or has an overflow still to read; and one that has ended owes a
      sync.required, which makes the client start afresh once the events before it are delivered. */
  lemma LossIsAnnounced(steps: seq<Step>, cfg: Config)
    requires cfg.retentionMaxEvents >= 1 && Run(steps, cfg).stream.Some?
    ensures var w, st := Run(steps, cfg), Run(steps, cfg).stream.value;
      if st.phase == Ended then
        st.sync && (st.delivered == |st.written| ==> Next(w, Deliver, cfg).client == NEW_CLIENT && Next(w, Deliver, cfg).stream.None?)
      else
        && !st.sync && st.readUpTo <= w.published <= |w.log| && st.taken <= |st.sub.seen|
        && var pending := Pending(st);
           if st.sub.terminal then pending != [] && pending[|pending| - 1] == Broker.Overflow
           else pending == Broker.AsNotifications(PublicOnly(w.log[st.readUpTo..w.published]))
  {
    RunKeeps(steps, cfg);
  }

  /** A cursor that the log no longer retains is announced by the replay, and no other one is: the stream
      writes nothing but a sync.required. */
  lemma LostCursorIsAnnounced(steps: seq<Step>, answer: EventReplay, cfg: Config)
    requires cfg.retentionMaxEvents >= 1 && Run(steps, cfg).stream.Some? && Run(steps, cfg).stream.value.phase == Subscribed
    requires IsReplay(Run(steps, cfg).log, cfg.retentionMaxEvents, Header(Run(steps, cfg).stream.value), answer)
    ensures var w := Run(steps, cfg); var v := Next(w, Replay(answer), cfg);
      && v.stream.Some? && v.stream.value.written == [] && v.client == w.client
      && (v.stream.value.sync <==>
            w.stream.value.start.Some? && forall i :: !IsCursor(w.log, cfg.retentionMaxEvents, w.stream.value.start.value.eventId, i))
      && (v.stream.value.sync ==> Next(v, Deliver, cfg).client == NEW_CLIENT && Next(v, Deliver, cfg).stream.None?)
      && (!v.stream.value.sync ==> v.stream.value.phase == Replaying && Events(v.stream.value.replay) == answer)
  {
    RunKeeps(steps, cfg);
    ShapeOf(Run(steps, cfg).log, Run(steps, cfg).published, Run(steps, cfg).stream.value);
  }

  /** Coverage starts afresh only by a reload or by a delivered sync.required. */
  lemma BaseIsLostOnlyToSync(w: World, step: Step, cfg: Config)
    requires w.client.base.Some? && Next(w, step, cfg).client.base != w.client.base
    ensures step == Reload || ((step == Deliver || step.DeliverLate?) && Next(w, step, cfg).client == NEW_CLIENT)
    ensures step == Deliver ==> w.stream.Some? && w.stream.value.sync && w.stream.value.delivered >= |w.stream.value.written|
    ensures step.DeliverLate? ==> step.index < |w.late| && w.late[step.index].sync && w.late[step.index].events == []
  {
  }

  /** A stream that was given up hands over its next event, or, after the last, its sync.required, which
      counts like any other: the client starts afresh and gives up its present stream. */
  lemma LateIsHeeded(w: World, i: nat, cfg: Config)
    requires i < |w.late|
    ensures var from, next := w.late[i], Next(w, DeliverLate(i), cfg);
      if from.events != [] then
        next.client == Received(w.client, from.events[0]) && next.stream == w.stream
        && next.late == w.late[i := Late(from.events[1..], from.sync, from.joined)]
      else if from.sync then
        next.client == NEW_CLIENT && next.stream.None? && forall j :: 0 <= j < |next.late| ==> !next.late[j].joined
      else next == w
  {}

  lemma RunStep(steps: seq<Step>, step: Step, cfg: Config)
    ensures Run(steps + [step], cfg) == Next(Run(steps, cfg), step, cfg)
  {
    assert (steps + [step])[..|steps|] == steps;
  }

  // ---------------------------------------------------------------- the client's state

  predicate Mirrors(c: Client, state: Reducer.ChatState) {
    && c.recent == state.recentEventIds && c.lastEventSequence == state.lastEventSequence
    && (if c.cursor.Some? then state.lastEventId == Some(c.cursor.value.eventId) else state.lastEventId.None?)
  }

  /** The client of this model follows the reducer of the browser client, event by event. */
  lemma ClientFollowsReducer(c: Client, state: Reducer.ChatState, logged: LoggedEvent, event: Reducer.Event)
    requires Mirrors(c, state) && event.eventId == logged.eventId && event.sequence == logged.sequence
    requires event.kind != Reducer.SyncRequired
    ensures Mirrors(Received(c, logged), Reducer.Receive(state, event))
  {
    Reducer.NotedRemembers(state, event);
  }
}
