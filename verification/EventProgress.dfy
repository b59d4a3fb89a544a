/** What can always still happen: an overflow reaches the client, and everybody comes to rest with nothing
    missing. */
module EventProgress {
  import opened Wrappers
  import opened EventLog
  import opened EventDelivery
  import opened EventResends
  import Broker = EventBroker

  lemma {:induction false} ThenMore(w: World, a: seq<Step>, b: seq<Step>, cfg: Config)
    ensures Then(w, a + b, cfg) == Then(Then(w, a, cfg), b, cfg)
    decreases |a|
  {
    hide Next;
    if a == [] {
      assert a + b == b;
    } else {
      assert (a + b)[1..] == a[1..] + b;
      ThenMore(Next(w, a[0], cfg), a[1..], b, cfg);
    }
  }

  lemma ThenOne(w: World, step: Step, cfg: Config)
    ensures Then(w, [step], cfg) == Next(w, step, cfg)
  {
    assert [step][1..] == [];
  }

  // ---------------------------------------------------------------- an overflow reaches the client

  predicate Overflowing(w: World) { w.stream.Some? && w.stream.value.phase == Live && w.stream.value.sub.terminal }

  ghost function Unread(w: World): nat
    requires Overflowing(w) && w.stream.value.taken <= |w.stream.value.sub.seen|
  {
    2 * |Pending(w.stream.value)| + |w.stream.value.sub.queue|
  }

  /** What is unread ends with the mark of the overflow. */
  predicate EndsInOverflow(st: Stream) {
    && st.taken <= |st.sub.seen| && !st.sub.waiting && Pending(st) != [] && Pending(st)[|Pending(st)| - 1] == Broker.Overflow
    && forall k :: 0 <= k < |Pending(st)| - 1 ==> Pending(st)[k].Delivered?
  }

  lemma OverflowHolds(w: World)
    requires Sound(w) && Overflowing(w)
    ensures EndsInOverflow(w.stream.value)
  {}

  ghost predicate ReadsOn(w: World, v: World)
    requires Overflowing(w) && w.stream.value.taken <= |w.stream.value.sub.seen|
  {
    v.stream.Some? && (v.stream.value.sync
      || (Overflowing(v) && v.stream.value.taken <= |v.stream.value.sub.seen| && Unread(v) < Unread(w)))
  }

  lemma PendingTaken(st: Stream)
    requires st.taken < |st.sub.seen|
    ensures Pending(st)[0] == st.sub.seen[st.taken]
    ensures forall u: Stream :: u.sub == st.sub && u.taken == st.taken + 1 ==> Pending(u) == Pending(st)[1..]
  {}

  lemma PendingRead(st: Stream)
    requires st.taken == |st.sub.seen| && Pending(st) != []
    ensures st.sub.queue == Pending(st) && Pending(st.(sub := Broker.Read(st.sub))) == Pending(st)
    ensures Broker.Read(st.sub).queue == st.sub.queue[1..] && !Broker.Read(st.sub).waiting == !st.sub.waiting
  {}

  lemma OverflowHandled(w: World, cfg: Config)
    requires Overflowing(w) && EndsInOverflow(w.stream.value) && w.stream.value.taken < |w.stream.value.sub.seen|
    ensures ReadsOn(w, Next(w, HandleNotification, cfg))
  {
    var st, v := w.stream.value, Next(w, HandleNotification, cfg);
    PendingTaken(st);
    assert v == w.(stream := Some(AfterNotification(st)));
    hide Pending;
    if st.sub.seen[st.taken].Delivered? {
      assert Pending(v.stream.value) == Pending(st)[1..];
    } else {
      assert v.stream.value.sync;
    }
  }

  lemma OverflowRead(w: World, cfg: Config)
    requires Overflowing(w) && EndsInOverflow(w.stream.value) && w.stream.value.taken == |w.stream.value.sub.seen|
    ensures ReadsOn(w, Next(w, ReadNext, cfg))
  {
    var st, v := w.stream.value, Next(w, ReadNext, cfg);
    PendingRead(st);
    assert v == w.(stream := Some(st.(sub := Broker.Read(st.sub))));
    hide Pending;
  }

  /** The stream reads on, or ends with its sync.required. */
  lemma OverflowStep(w: World, cfg: Config) returns (step: Step)
    requires Sound(w) && Overflowing(w) && w.stream.value.taken <= |w.stream.value.sub.seen|
    ensures step == ReadNext || step == HandleNotification
    ensures ReadsOn(w, Next(w, step, cfg))
  {
    OverflowHolds(w);
    hide Sound, ReadsOn, Next;
    if w.stream.value.taken < |w.stream.value.sub.seen| {
      step := HandleNotification;
      OverflowHandled(w, cfg);
    } else {
      step := ReadNext;
      OverflowRead(w, cfg);
    }
  }

  lemma {:induction false} OverflowEnds(w: World, cfg: Config) returns (more: seq<Step>)
    requires Sound(w) && Overflowing(w) && w.stream.value.taken <= |w.stream.value.sub.seen| && cfg.retentionMaxEvents >= 1
    ensures var v := Then(w, more, cfg); Sound(v) && v.stream.Some? && v.stream.value.sync
    decreases Unread(w)
  {
    hide Sound, Unread;
    var step := OverflowStep(w, cfg);
    var v := Next(w, step, cfg);
    NextSound(w, step, cfg);
    hide Next;
    if v.stream.value.sync {
      ThenOne(w, step, cfg);
      more := [step];
    } else {
      var rest := OverflowEnds(v, cfg);
      more := [step] + rest;
    }
  }

  /** The events before it are delivered, and then the sync.required. */
  lemma {:induction false} SyncDelivered(w: World, cfg: Config) returns (more: seq<Step>)
    requires Sound(w) && w.stream.Some? && w.stream.value.sync && cfg.retentionMaxEvents >= 1
    requires w.stream.value.delivered <= |w.stream.value.written|
    ensures var v := Then(w, more, cfg); v.client == NEW_CLIENT && v.stream.None? && v.log == w.log && v.published == w.published
    ensures forall step <- more :: step == Deliver
    decreases |w.stream.value.written| - w.stream.value.delivered
  {
    var v := Next(w, Deliver, cfg);
    NextSound(w, Deliver, cfg);
    if w.stream.value.delivered < |w.stream.value.written| {
      assert v.stream.Some? && v.stream.value.sync && v.log == w.log && v.published == w.published;
      assert v.stream.value.delivered == w.stream.value.delivered + 1 && v.stream.value.written == w.stream.value.written;
      hide Next, Sound;
      var rest := SyncDelivered(v, cfg);
      more := [Deliver] + rest;
    } else {
      ThenOne(w, Deliver, cfg);
      more := [Deliver];
    }
  }

  lemma ShapeIs(w: World)
    requires Sound(w) && w.stream.Some?
    ensures w.stream.value.delivered <= |w.stream.value.written|
  {}

  /** A client whose stream overflowed can always still learn of it. */
  lemma OverflowIsDelivered(steps: seq<Step>, cfg: Config) returns (more: seq<Step>)
    requires cfg.retentionMaxEvents >= 1 && Overflowing(Run(steps, cfg))
    ensures Run(steps + more, cfg).client == NEW_CLIENT && Run(steps + more, cfg).stream.None?
  {
    var w := Run(steps, cfg);
    RunKeeps(steps, cfg);
    OverflowHolds(w);
    hide Sound, Next;
    var ending := OverflowEnds(w, cfg);
    var v := Then(w, ending, cfg);
    ShapeIs(v);
    var telling := SyncDelivered(v, cfg);
    more := ending + telling;
    ThenMore(w, ending, telling, cfg);
    RunThen(steps, more, cfg);
  }

  // ---------------------------------------------------------------- everybody comes to rest

  /** All is published, and the stream has only to write its replay and to be delivered. */
  predicate Settling(w: World) {
    && w.published == |w.log| && w.stream.Some?
    && var st := w.stream.value;
       (st.phase == Replaying || st.phase == Live) && (st.sub.waiting || st.sub == Broker.Opened()) && st.taken == 0
       && st.sub.seen == [] && st.sub.queue == [] && !st.sub.terminal && !st.sync && st.delivered <= |st.written|
       && (st.phase == Replaying ==> !st.sub.waiting) && (st.phase == Live ==> st.replay == [])
  }

  ghost function ToDo(w: World): nat
    requires Settling(w)
  {
    var st := w.stream.value;
    2 * |st.replay| + (|st.written| - st.delivered) + if st.phase == Replaying then 2 else if st.sub.waiting then 0 else 1
  }

  lemma SettlingStep(w: World, cfg: Config) returns (step: Step)
    requires Settling(w) && !Quiet(w)
    ensures step == WriteReplayed || step == ReadNext || step == Deliver
    ensures Settling(Next(w, step, cfg)) && ToDo(Next(w, step, cfg)) < ToDo(w) && Next(w, step, cfg).log == w.log
  {
    var st := w.stream.value;
    step := if st.phase == Replaying then WriteReplayed else if !st.sub.waiting then ReadNext else Deliver;
  }

  /** Neither side appends anything, and no stream that was given up delivers. */
  predicate IsPlain(step: Step) { !step.Append? && !step.DeliverLate? && step != Reload }

  predicate ArePlain(steps: seq<Step>) { forall step <- steps :: IsPlain(step) }

  lemma {:induction false} Settles(w: World, cfg: Config) returns (more: seq<Step>)
    requires Settling(w)
    ensures Quiet(Then(w, more, cfg)) && ArePlain(more) && Then(w, more, cfg).log == w.log
    decreases ToDo(w)
  {
    if Quiet(w) {
      more := [];
    } else {
      var step := SettlingStep(w, cfg);
      var v := Next(w, step, cfg);
      hide Next, Settling, ToDo, Quiet;
      var rest := Settles(v, cfg);
      more := [step] + rest;
    }
  }

  lemma {:induction false} PublishAll(w: World, cfg: Config) returns (more: seq<Step>)
    requires w.stream.None? && w.published <= |w.log|
    ensures Then(w, more, cfg) == w.(published := |w.log|) && ArePlain(more)
    decreases |w.log| - w.published
  {
    if w.published == |w.log| {
      more := [];
    } else {
      assert Next(w, Publish, cfg) == w.(published := w.published + 1);
      var rest := PublishAll(Next(w, Publish, cfg), cfg);
      more := [Publish] + rest;
    }
  }

  /** A replay has an answer. */
  lemma HasAnswer(h: History, cfg: Config, start: Option<LoggedEvent>) returns (answer: EventReplay)
    requires DistinctIds(h)
    ensures IsReplay(h, cfg.retentionMaxEvents, if start.None? then None else Some(start.value.eventId), answer)
    ensures start.None? ==> answer.Events?
  {
    hide PublicOnly, Retained;
    if start.None? {
      answer := Events(PublicOnly(Retained(h, cfg.retentionMaxEvents)));
    } else if i :| IsCursor(h, cfg.retentionMaxEvents, start.value.eventId, i) {
      answer := Events(PublicOnly(h[i + 1..]));
    } else {
      answer := SyncRequired(if |h| == 0 then 1 else |h|);
    }
  }

  lemma ConnectsAndReplays(w: World, cfg: Config) returns (more: seq<Step>)
    requires Sound(w) && w.published == |w.log|
    ensures var v := Then(w, more, cfg);
      ArePlain(more) && v.log == w.log && v.published == w.published
      && (Settling(v) || (w.client.cursor.Some? && v.stream.Some? && v.stream.value.sync && v.stream.value.written == []))
  {
    var st := OpenedStream(w.client.cursor, w.published);
    var answer := HasAnswer(w.log, cfg, st.start);
    var connected := Next(w, Connect, cfg);
    assert connected == World(w.log, w.published, Some(st), w.client, GivenUp(w));
    hide IsReplay, GivenUp;
    var replayed := Next(connected, Replay(answer), cfg);
    assert replayed == connected.(stream := Some(AfterReplay(st, answer)));
    more := [Connect, Replay(answer)];
    assert more[1..] == [Replay(answer)] && [Replay(answer)][1..] == [];
    assert Then(w, more, cfg) == Then(connected, more[1..], cfg) == replayed;
  }

  /** From published tables on: a client with a lost cursor is told first, and then starts afresh. */
  lemma ComesToRest(w: World, cfg: Config) returns (more: seq<Step>)
    requires Sound(w) && w.published == |w.log| && cfg.retentionMaxEvents >= 1
    ensures Quiet(Then(w, more, cfg)) && ArePlain(more) && Then(w, more, cfg).log == w.log
    decreases w.client.cursor.Some?
  {
    hide Sound, Settling, Quiet, Next;
    var joining := ConnectsAndReplays(w, cfg);
    var v := Then(w, joining, cfg);
    if Settling(v) {
      var rest := Settles(v, cfg);
      more := joining + rest;
      ThenMore(w, joining, rest, cfg);
    } else {
      ThenSound(w, joining, cfg);
      ShapeIs(v);
      var telling := SyncDelivered(v, cfg);
      var told := Then(v, telling, cfg);
      ThenSound(v, telling, cfg);
      var rest := ComesToRest(told, cfg);
      more := joining + (telling + rest);
      ThenMore(w, joining, telling + rest, cfg);
      ThenMore(v, telling, rest, cfg);
    }
  }

  lemma {:induction false} ThenSound(w: World, steps: seq<Step>, cfg: Config)
    requires Sound(w) && cfg.retentionMaxEvents >= 1
    ensures Sound(Then(w, steps, cfg))
    decreases |steps|
  {
    hide Sound, Next;
    if steps != [] {
      NextSound(w, steps[0], cfg);
      ThenSound(Next(w, steps[0], cfg), steps[1..], cfg);
    }
  }

  lemma PlainMissesNothing(steps: seq<Step>, more: seq<Step>, cfg: Config)
    requires NoneMissesBase(steps, cfg) && ArePlain(more)
    ensures NoneMissesBase(steps + more, cfg)
  {
    var all := steps + more;
    forall k | 0 <= k < |all| ensures !MissesBase(Run(all[..k], cfg), all[k]) {
      if k < |steps| {
        assert all[..k] == steps[..k];
      } else {
        assert all[k] in more;
      }
    }
  }

  /** Nothing is ever stuck: from every run the server, the broker, the stream and the client can come to
      rest without another event, and then the client has every public event after its base. */
  lemma CanAlwaysCatchUp(steps: seq<Step>, cfg: Config) returns (more: seq<Step>)
    requires cfg.retentionMaxEvents >= 1
    ensures ArePlain(more) && Quiet(Run(steps + more, cfg)) && Run(steps + more, cfg).log == Run(steps, cfg).log
    ensures var w := Run(steps + more, cfg); NoneMissesBase(steps, cfg) && w.client.base.Some? ==>
      forall s :: w.client.base.value < s && Pub(w.log, s) ==> s in w.client.applied
  {
    var w := Run(steps, cfg);
    RunKeeps(steps, cfg);
    var closing := [Disconnect];
    ThenOne(w, Disconnect, cfg);
    NextSound(w, Disconnect, cfg);
    var closed := Next(w, Disconnect, cfg);
    assert closed.stream.None? && closed.log == w.log && closed.published <= |closed.log|;
    hide Next, Sound, Quiet, NoneMissesBase;
    var publishing := PublishAll(closed, cfg);
    var published := Then(closed, publishing, cfg);
    ThenSound(closed, publishing, cfg);
    var rest := ComesToRest(published, cfg);
    more := closing + (publishing + rest);
    ThenMore(w, closing, publishing + rest, cfg);
    ThenMore(closed, publishing, rest, cfg);
    RunThen(steps, more, cfg);
    if NoneMissesBase(steps, cfg) {
      PlainMissesNothing(steps, more, cfg);
      RestIsComplete(steps + more, cfg);
    }
  }
}
