/** When a stream sends its own cursor event again, what the client makes of it, and what a stream that
    was given up can do. */
module EventResends {
  import opened Wrappers
  import opened EventLog
  import opened EventDelivery
  import Broker = EventBroker

  // ---------------------------------------------------------------- what a stream writes first

  /** A stream whose replay was empty has written exactly what was published since it opened, up to what
      it has taken; any other starts with its replay, which is after the cursor. */
  ghost predicate Answers(h: History, st: Stream) {
    && st.openedAt <= st.readUpTo <= |h|
    && (st.answered.None? ==> Assured(st) == [] && st.phase != Live && st.phase != Replaying)
    && (st.phase == Subscribed ==> st.answered.None?)
    && (st.phase == Subscribed || st.phase == Replaying ==> st.readUpTo == st.openedAt)
    && (st.answered == Some([]) ==> Assured(st) == PublicOnly(h[st.openedAt..st.readUpTo]))
    && (st.answered.Some? && st.answered != Some([]) ==>
          Assured(st) != [] && (st.start.Some? ==> st.start.value.sequence < Assured(st)[0].sequence))
  }

  lemma {:induction false} PublicHas(h: History, lo: nat, hi: nat, e: LoggedEvent)
    requires Numbered(h) && lo <= hi <= |h|
    ensures e in PublicOnly(h[lo..hi]) <==> InLog(h, e) && lo < e.sequence <= hi
    decreases hi - lo
  {
    if lo < hi {
      PublicHas(h, lo + 1, hi, e);
      assert h[lo..hi][1..] == h[lo + 1..hi];
    }
  }

  /** The next public event after `mid`. */
  lemma PublicGrows(h: History, lo: nat, mid: nat, e: LoggedEvent)
    requires Numbered(h) && lo <= mid < e.sequence && InLog(h, e) && NoPub(h, mid, e.sequence)
    ensures PublicOnly(h[lo..e.sequence]) == PublicOnly(h[lo..mid]) + [e]
  {
    var hi := e.sequence;
    PublicHead(h, mid, hi);
    PublicHas(h, mid, hi, e);
    var more := PublicOnly(h[mid..hi]);
    assert more[0].sequence == hi && InLog(h, more[0]);
    assert h[hi..hi] == [] && more == [e];
    PublicOnlyConcat(h[lo..mid], h[mid..hi]);
    assert h[lo..hi] == h[lo..mid] + h[mid..hi];
  }

  lemma ReplayAnswers(h: History, published: nat, st: Stream, answer: EventReplay, cfg: Config)
    requires Numbered(h) && DistinctIds(h) && cfg.retentionMaxEvents >= 1
    requires StreamInv(h, published, st) && Answers(h, st) && st.phase == Subscribed
    requires IsReplay(h, cfg.retentionMaxEvents, Header(st), answer)
    ensures Answers(h, AfterReplay(st, answer))
  {
    assert h[st.openedAt..st.openedAt] == [];
    if answer.Events? && answer.events != [] {
      var lo := ReplayStart(h, cfg, st.start, answer.events);
      hide IsReplay;
      PublicHead(h, lo, |h|);
      assert Assured(AfterReplay(st, answer))[0] == answer.events[0];
    }
  }

  /** Steps of the stream's own that leave what it wrote, read and answered. */
  lemma SameAnswers(h: History, st: Stream, u: Stream)
    requires Answers(h, st) && Assured(u) == Assured(st) && u.start == st.start
    requires u.openedAt == st.openedAt && u.readUpTo == st.readUpTo && u.answered == st.answered
    requires u.phase == st.phase || (st.phase == Replaying && u.phase == Live) || u.phase == Ended
    ensures Answers(h, u)
  {}

  lemma NotificationAnswers(h: History, published: nat, st: Stream)
    requires Numbered(h) && StreamInv(h, published, st) && Answers(h, st) && st.phase == Live && st.taken < |st.sub.seen|
    ensures Answers(h, AfterNotification(st))
  {
    var u := AfterNotification(st);
    if st.sub.seen[st.taken].Delivered? {
      var event := st.sub.seen[st.taken].event;
      TakeHolds(h, published, st);
      assert Assured(st) == st.written && Assured(u) == u.written;
      if st.answered == Some([]) {
        if st.written != [] {
          PublicHas(h, st.openedAt, st.readUpTo, st.written[|st.written| - 1]);
        }
        PublicGrows(h, st.openedAt, st.readUpTo, event);
      }
    } else {
      assert Assured(u) == Assured(st);
      SameAnswers(h, st, u);
    }
  }

  lemma ServerAnswers(h: History, published: nat, st: Stream, step: Step, cfg: Config)
    requires Numbered(h) && DistinctIds(h) && cfg.retentionMaxEvents >= 1 && IsServerStep(step)
    requires StreamInv(h, published, st) && Answers(h, st)
    ensures Answers(h, ServerStep(h, st, step, cfg))
  {
    hide StreamInv, Answers, Numbered, DistinctIds, IsReplay;
    if step.Replay? && st.phase == Subscribed && IsReplay(h, cfg.retentionMaxEvents, Header(st), step.answer) {
      ReplayAnswers(h, published, st, step.answer, cfg);
    } else if step.WriteReplayed? && st.phase == Replaying {
      assert Assured(AfterWrite(st)) == Assured(st);
      SameAnswers(h, st, AfterWrite(st));
    } else if step.ReadNext? && st.phase == Live {
      assert Assured(st.(sub := Broker.Read(st.sub))) == Assured(st);
      SameAnswers(h, st, st.(sub := Broker.Read(st.sub)));
    } else if step.HandleNotification? && st.phase == Live && st.taken < |st.sub.seen| {
      NotificationAnswers(h, published, st);
    }
  }

  lemma LogGrowsForAnswers(h: History, event: LoggedEvent, st: Stream)
    requires Answers(h, st)
    ensures Answers(h + [event], st)
  {
    assert (h + [event])[st.openedAt..st.readUpTo] == h[st.openedAt..st.readUpTo];
  }

  lemma PublishAnswers(h: History, st: Stream, event: LoggedEvent, bufferSize: nat)
    requires Answers(h, st)
    ensures Answers(h, AfterPublish(st, event, bufferSize))
  {
    SameAnswers(h, st, AfterPublish(st, event, bufferSize));
  }

  ghost predicate StreamAnswers(w: World) { w.stream.Some? ==> Answers(w.log, w.stream.value) }

  lemma OpenedAnswers(h: History, cursor: Option<LoggedEvent>, published: nat)
    requires published <= |h|
    ensures Answers(h, OpenedStream(cursor, published))
  {}

  lemma NextAnswers(w: World, step: Step, cfg: Config)
    requires Sound(w) && StreamAnswers(w) && cfg.retentionMaxEvents >= 1
    ensures StreamAnswers(Next(w, step, cfg))
  {
    hide StreamInv, Answers, Numbered, DistinctIds, ClientInv, AllChains, AfterPublish;
    if step == Connect {
      OpenedAnswers(w.log, w.client.cursor, w.published);
    } else if w.stream.Some? {
      var st := w.stream.value;
      match step
      case Append(event) => LogGrowsForAnswers(w.log, event, st);
      case Publish => if w.published < |w.log| { PublishAnswers(w.log, st, w.log[w.published], cfg.bufferSize); }
      case Deliver => SameAnswers(w.log, st, st.(delivered := st.delivered + 1));
      case DeliverLate(_) =>
      case Disconnect =>
      case Reload =>
      case _ => ServerAnswers(w.log, w.published, st, step, cfg);
    }
  }

  lemma {:induction false} RunAnswers(steps: seq<Step>, cfg: Config)
    requires cfg.retentionMaxEvents >= 1
    ensures StreamAnswers(Run(steps, cfg))
  {
    if steps != [] {
      var before := steps[..|steps| - 1];
      RunAnswers(before, cfg);
      RunKeeps(before, cfg);
      NextAnswers(Run(before, cfg), steps[|steps| - 1], cfg);
    }
  }

  /** A stream's first event: after an empty replay the first public one since it was opened, and otherwise
      the first public one after its cursor. */
  lemma FirstEvent(steps: seq<Step>, cfg: Config)
    requires cfg.retentionMaxEvents >= 1 && Run(steps, cfg).stream.Some? && Run(steps, cfg).stream.value.written != []
    ensures var h, st := Run(steps, cfg).log, Run(steps, cfg).stream.value; var first := st.written[0].sequence;
      if st.answered == Some([]) then st.openedAt < first && NoPub(h, st.openedAt, first)
      else st.start.Some? ==> st.start.value.sequence < first && NoPub(h, st.start.value.sequence, first)
  {
    RunKeeps(steps, cfg);
    RunAnswers(steps, cfg);
    var h, st := Run(steps, cfg).log, Run(steps, cfg).stream.value;
    ShapeOf(h, Run(steps, cfg).published, st);
    assert Assured(st)[0] == st.written[0];
    PublicHead(h, st.openedAt, st.readUpTo);
  }

  /** Events up to the cursor are sent again exactly by the streams that were opened before the cursor's
      event was published and got an empty replay. */
  lemma SentAgainIff(steps: seq<Step>, cfg: Config)
    requires cfg.retentionMaxEvents >= 1 && Run(steps, cfg).stream.Some?
    requires Run(steps, cfg).stream.value.start.Some? && Run(steps, cfg).stream.value.written != []
    ensures var st := Run(steps, cfg).stream.value;
      st.written[0].sequence <= st.start.value.sequence <==> st.answered == Some([]) && st.openedAt < st.start.value.sequence
  {
    FirstEvent(steps, cfg);
    RunKeeps(steps, cfg);
    ShapeOf(Run(steps, cfg).log, Run(steps, cfg).published, Run(steps, cfg).stream.value);
  }

  // ---------------------------------------------------------------- and such a stream always can

  ghost function Then(w: World, steps: seq<Step>, cfg: Config): World
    decreases |steps|
  {
    if steps == [] then w else Then(Next(w, steps[0], cfg), steps[1..], cfg)
  }

  lemma {:induction false} RunThen(steps: seq<Step>, more: seq<Step>, cfg: Config)
    ensures Run(steps + more, cfg) == Then(Run(steps, cfg), more, cfg)
    decreases |more|
  {
    hide Next;
    if more == [] {
      assert steps + more == steps;
    } else {
      RunStep(steps, more[0], cfg);
      RunThen(steps + [more[0]], more[1..], cfg);
      assert steps + [more[0]] + more[1..] == steps + more;
    }
  }

  /** The stream follows its subscription, which has not overflowed. */
  predicate Follows(w: World) { w.stream.Some? && w.stream.value.phase == Live && !w.stream.value.sub.terminal }

  predicate SameStream(a: World, b: World) {
    && a.stream.Some? && b.stream.Some? && a.log == b.log
    && a.stream.value.start == b.stream.value.start && a.stream.value.openedAt == b.stream.value.openedAt
    && a.stream.value.answered == b.stream.value.answered
  }

  /** How much there is to publish, to queue, to read and to handle. */
  ghost function Ahead(w: World): int
    requires Follows(w) && w.stream.value.taken <= |w.stream.value.sub.seen|
  {
    var st := w.stream.value;
    5 * (|w.log| - w.published) + 2 * |Pending(st)| + |st.sub.queue| + if st.sub.waiting then 0 else 1
  }

  lemma HoldsOf(w: World)
    requires Sound(w) && Follows(w)
    ensures Holds(w.log, w.published, w.stream.value) && w.published <= |w.log| && Numbered(w.log)
    ensures w.stream.value.start.Some? ==> InLog(w.log, w.stream.value.start.value)
  {}

  lemma HandlesOne(w: World, cfg: Config)
    requires Follows(w) && Holds(w.log, w.published, w.stream.value) && w.stream.value.taken < |w.stream.value.sub.seen|
    ensures var v := Next(w, HandleNotification, cfg);
      Follows(v) && SameStream(w, v) && v.stream.value.taken <= |v.stream.value.sub.seen| && Ahead(v) < Ahead(w)
  {
    var st := w.stream.value;
    assert Pending(st)[0] == st.sub.seen[st.taken];
    assert st.sub.seen[st.taken].Delivered?;
    assert Pending(AfterNotification(st)) == Pending(st)[1..];
  }

  lemma ReadsOne(w: World, cfg: Config)
    requires Follows(w) && w.stream.value.taken == |w.stream.value.sub.seen| && !w.stream.value.sub.waiting
    ensures var v := Next(w, ReadNext, cfg);
      Follows(v) && SameStream(w, v) && v.stream.value.taken <= |v.stream.value.sub.seen| && Ahead(v) < Ahead(w)
  {
    var st, u := w.stream.value, w.stream.value.(sub := Broker.Read(w.stream.value.sub));
    assert Pending(u) == Pending(st);
  }

  lemma PublishesOne(w: World, cfg: Config)
    requires Follows(w) && Holds(w.log, w.published, w.stream.value) && w.stream.value.sub.waiting && w.published < |w.log|
    ensures var v := Next(w, Publish, cfg);
      Follows(v) && SameStream(w, v) && v.stream.value.taken <= |v.stream.value.sub.seen| && Ahead(v) < Ahead(w)
  {
    var st, event := w.stream.value, w.log[w.published];
    var u := AfterPublish(st, event, cfg.bufferSize);
    if event.visibility == Public {
      assert Pending(u) == Pending(st) + [Broker.Delivered(event)];
    } else {
      assert Pending(u) == Pending(st);
    }
  }

  /** Before the cursor's event has been read there is always something to do. */
  lemma MustPublish(w: World)
    requires Sound(w) && Follows(w) && w.stream.value.start.Some? && w.stream.value.readUpTo < w.stream.value.start.value.sequence
    requires w.stream.value.sub.waiting
    ensures w.published < |w.log|
  {
    HoldsOf(w);
    var st := w.stream.value;
    assert |Broker.AsNotifications(PublicOnly(w.log[st.readUpTo..st.heldUpTo]))| == |Pending(st)| == 0;
    PublicHas(w.log, st.readUpTo, st.heldUpTo, st.start.value);
  }

  lemma OneStepOn(w: World, cfg: Config) returns (step: Step)
    requires Sound(w) && Follows(w) && w.stream.value.start.Some? && w.stream.value.readUpTo < w.stream.value.start.value.sequence
    requires w.stream.value.taken <= |w.stream.value.sub.seen|
    ensures var v := Next(w, step, cfg);
      Follows(v) && SameStream(w, v) && v.stream.value.taken <= |v.stream.value.sub.seen| && Ahead(v) < Ahead(w)
  {
    HoldsOf(w);
    hide Ahead, Sound, Holds;
    var st := w.stream.value;
    if st.taken < |st.sub.seen| {
      HandlesOne(w, cfg);
      step := HandleNotification;
    } else if !st.sub.waiting {
      ReadsOne(w, cfg);
      step := ReadNext;
    } else {
      MustPublish(w);
      PublishesOne(w, cfg);
      step := Publish;
    }
  }

  lemma {:induction false} ReadsOn(w: World, cfg: Config) returns (more: seq<Step>)
    requires Sound(w) && StreamAnswers(w) && Follows(w) && w.stream.value.start.Some? && cfg.retentionMaxEvents >= 1
    requires w.stream.value.taken <= |w.stream.value.sub.seen| && Ahead(w) >= 0
    ensures var v := Then(w, more, cfg);
      Sound(v) && StreamAnswers(v) && Follows(v) && SameStream(w, v) && v.stream.value.readUpTo >= w.stream.value.start.value.sequence
    decreases Ahead(w)
  {
    hide Sound, StreamAnswers;
    if w.stream.value.readUpTo >= w.stream.value.start.value.sequence {
      more := [];
    } else {
      var step := OneStepOn(w, cfg);
      var v := Next(w, step, cfg);
      NextSound(w, step, cfg);
      NextAnswers(w, step, cfg);
      AheadIs(v);
      hide Next, Ahead;
      var rest := ReadsOn(v, cfg);
      more := [step] + rest;
    }
  }

  lemma AheadIs(w: World)
    requires Sound(w) && Follows(w)
    ensures w.stream.value.taken <= |w.stream.value.sub.seen| && Ahead(w) >= 0
  {}

  /** Conversely, every such stream that follows its subscription can still come to send the cursor's event again. */
  lemma SentAgainEventually(steps: seq<Step>, cfg: Config) returns (more: seq<Step>)
    requires cfg.retentionMaxEvents >= 1 && Follows(Run(steps, cfg))
    requires var st := Run(steps, cfg).stream.value; st.start.Some? && st.answered == Some([]) && st.openedAt < st.start.value.sequence
    ensures var v := Run(steps + more, cfg);
      SameStream(Run(steps, cfg), v) && v.stream.value.start.value in v.stream.value.written
  {
    var w := Run(steps, cfg);
    RunKeeps(steps, cfg);
    RunAnswers(steps, cfg);
    AheadIs(w);
    hide Sound, StreamAnswers;
    more := ReadsOn(w, cfg);
    RunThen(steps, more, cfg);
    WritesCursor(Then(w, more, cfg));
  }

  lemma WritesCursor(w: World)
    requires Sound(w) && StreamAnswers(w) && Follows(w) && w.stream.value.start.Some? && w.stream.value.answered == Some([])
    requires w.stream.value.openedAt < w.stream.value.start.value.sequence <= w.stream.value.readUpTo
    ensures w.stream.value.start.value in w.stream.value.written
  {
    HoldsOf(w);
    var st := w.stream.value;
    assert Assured(st) == st.written;
    PublicHas(w.log, st.openedAt, st.readUpTo, st.start.value);
  }

  // ---------------------------------------------------------------- what the client makes of it

  /** The client takes no notice of an event if and only if it remembers its identifier. */
  lemma HiddenIffRemembered(c: Client, e: LoggedEvent)
    ensures Received(c, e) == c.(persisted := Some(e)) <==> e.eventId in c.recent
  {
    if e.eventId !in c.recent && |c.recent| >= 100 {
      var d := Received(c, e);
      assert d.recent[|d.recent| - 1] == e.eventId;
    }
  }

  predicate RemembersCursor(c: Client) {
    c.recent != [] ==> c.cursor.Some? && c.recent[|c.recent| - 1] == c.cursor.value.eventId
  }

  lemma NextRemembers(w: World, step: Step, cfg: Config)
    requires RemembersCursor(w.client)
    ensures RemembersCursor(Next(w, step, cfg).client)
  {}

  lemma {:induction false} RunRemembers(steps: seq<Step>, cfg: Config)
    ensures RemembersCursor(Run(steps, cfg).client)
  {
    if steps != [] {
      RunRemembers(steps[..|steps| - 1], cfg);
      NextRemembers(Run(steps[..|steps| - 1], cfg), steps[|steps| - 1], cfg);
    }
  }

  /** Its own cursor's event, sent again, is hidden from the client if and only if the client has received
      an event since the page was loaded; else it is applied a second time. */
  lemma CursorEventHiddenIff(steps: seq<Step>, cfg: Config)
    requires Run(steps, cfg).client.cursor.Some?
    ensures var c := Run(steps, cfg).client; var e := c.cursor.value;
      && (Received(c, e) == c.(persisted := Some(e)) <==> c.recent != [])
      && (c.recent == [] ==> Received(c, e).applied == c.applied + {e.sequence} && Received(c, e).recent == [e.eventId])
  {
    RunRemembers(steps, cfg);
    HiddenIffRemembered(Run(steps, cfg).client, Run(steps, cfg).client.cursor.value);
  }

  /** Right after a reload it never is hidden. */
  lemma ReloadForgets(c: Client, e: LoggedEvent)
    requires c.persisted == Some(e)
    ensures Reloaded(c).cursor == Some(e) && Received(Reloaded(c), e).applied == {e.sequence}
  {}

  // ---------------------------------------------------------------- two runs

  /** One more step of a run that stands at `w`. */
  lemma Reaches(steps: seq<Step>, w: World, step: Step, cfg: Config) returns (more: seq<Step>)
    requires Run(steps, cfg) == w
    ensures Run(more, cfg) == Next(w, step, cfg)
  {
    RunStep(steps, step, cfg);
    more := steps + [step];
  }

  lemma OnlyEventIsReplayed(e: LoggedEvent, retained: nat)
    requires e.visibility == Public && retained >= 1
    ensures IsReplay([e], retained, None, Events([e]))
  {
    assert Retained([e], retained) == [e] && [e][1..] == [];
  }

  lemma NothingToReplay(e: LoggedEvent)
    requires e.visibility == Public
    ensures IsReplay([e], 10, Some(e.eventId), Events([]))
  {
    assert IsCursor([e], 10, e.eventId, 0);
    assert [e][1..] == [] && PublicOnly([]) == [];
  }

  /** An event is replayed, delivered and persisted before it is published. */
  lemma ReplayedEarly(e: LoggedEvent, cfg: Config) returns (steps: seq<Step>)
    requires e == LoggedEvent("e", 1, Public, "") && cfg == Config(10, 10)
    ensures Run(steps, cfg).log == [e] && Run(steps, cfg).published == 0 && Run(steps, cfg).client.persisted == Some(e)
  {
    assert Run([], cfg) == START;
    steps := Reaches([], START, Append(e), cfg);
    var w := START.(log := [e]);
    assert Run(steps, cfg) == w;
    steps := Reaches(steps, w, Connect, cfg);
    steps := ReplayedThen(steps, e, cfg);
  }

  lemma ReplayedThen(past: seq<Step>, e: LoggedEvent, cfg: Config) returns (steps: seq<Step>)
    requires e == LoggedEvent("e", 1, Public, "") && cfg == Config(10, 10)
    requires Run(past, cfg) == World([e], 0, Some(OpenedStream(None, 0)), NEW_CLIENT, [])
    ensures Run(steps, cfg).log == [e] && Run(steps, cfg).published == 0 && Run(steps, cfg).client.persisted == Some(e)
  {
    OnlyEventIsReplayed(e, 10);
    steps := Reaches(past, World([e], 0, Some(OpenedStream(None, 0)), NEW_CLIENT, []), Replay(Events([e])), cfg);
    var replaying := OpenedStream(None, 0).(phase := Replaying, replay := [e], answered := Some([e]));
    assert Run(steps, cfg) == World([e], 0, Some(replaying), NEW_CLIENT, []);
    steps := Reaches(steps, World([e], 0, Some(replaying), NEW_CLIENT, []), WriteReplayed, cfg);
    steps := Reaches(steps, World([e], 0, Some(AfterWrite(replaying)), NEW_CLIENT, []), Deliver, cfg);
  }

  /** A page is reloaded after that. Its stream sends the event again once it is published, and the
      client, which has forgotten the identifier, applies it a second time. */
  lemma CursorEventMayBeAppliedAgain() returns (steps: seq<Step>, cfg: Config)
    ensures var w := Run(steps, cfg);
      && w.stream.Some? && w.stream.value.start.Some? && w.stream.value.written == [w.stream.value.start.value]
      && w.client.base == Some(w.stream.value.start.value.sequence) && w.client.applied == {w.stream.value.start.value.sequence}
  {
    cfg := Config(10, 10);
    var e := LoggedEvent("e", 1, Public, "");
    steps := ReplayedEarly(e, cfg);
    steps := Reaches(steps, Run(steps, cfg), Reload, cfg);
    var c := Client(Some(e), Some(e), [], 1, Some(1), {});
    assert Run(steps, cfg) == World([e], 0, None, c, []);
    steps := Reaches(steps, World([e], 0, None, c, []), Connect, cfg);
    steps := SentAgain(steps, e, c, cfg);
  }

  lemma SentAgain(past: seq<Step>, e: LoggedEvent, c: Client, cfg: Config) returns (steps: seq<Step>)
    requires e == LoggedEvent("e", 1, Public, "") && cfg == Config(10, 10) && c == Client(Some(e), Some(e), [], 1, Some(1), {})
    requires Run(past, cfg) == World([e], 0, Some(OpenedStream(Some(e), 0)), c, [])
    ensures var w := Run(steps, cfg); w.stream.Some? && w.stream.value.start == Some(e) && w.stream.value.written == [e]
    ensures Run(steps, cfg).client.base == Some(1) && Run(steps, cfg).client.applied == {1}
  {
    var st := OpenedStream(Some(e), 0);
    NothingToReplay(e);
    steps := Reaches(past, World([e], 0, Some(st), c, []), Replay(Events([])), cfg);
    var replaying := st.(phase := Replaying, answered := Some([]));
    assert Run(steps, cfg) == World([e], 0, Some(replaying), c, []);
    steps := Reaches(steps, World([e], 0, Some(replaying), c, []), WriteReplayed, cfg);
    var live := replaying.(phase := Live);
    assert Run(steps, cfg) == World([e], 0, Some(live), c, []);
    steps := PublishedLate(steps, e, live, c, cfg);
  }

  lemma PublishedLate(past: seq<Step>, e: LoggedEvent, live: Stream, c: Client, cfg: Config) returns (steps: seq<Step>)
    requires e == LoggedEvent("e", 1, Public, "") && cfg == Config(10, 10) && c == Client(Some(e), Some(e), [], 1, Some(1), {})
    requires live == OpenedStream(Some(e), 0).(phase := Live, answered := Some([]))
    requires Run(past, cfg) == World([e], 0, Some(live), c, [])
    ensures var w := Run(steps, cfg); w.stream.Some? && w.stream.value.start == Some(e) && w.stream.value.written == [e]
    ensures Run(steps, cfg).client.base == Some(1) && Run(steps, cfg).client.applied == {1}
  {
    hide Run;
    var waiting := live.(sub := Broker.Subscription([], true, false, []));
    steps := Reaches(past, World([e], 0, Some(live), c, []), ReadNext, cfg);
    assert Next(World([e], 0, Some(live), c, []), ReadNext, cfg) == World([e], 0, Some(waiting), c, []);
    var told := waiting.(sub := Broker.Subscription([], false, false, [Broker.Delivered(e)]), heldUpTo := 1);
    steps := Reaches(steps, World([e], 0, Some(waiting), c, []), Publish, cfg);
    TellsWaiting(e, waiting, c, cfg);
    steps := Reaches(steps, World([e], 1, Some(told), c, []), HandleNotification, cfg);
    steps := TakenAndDelivered(steps, e, told, c, cfg);
  }

  lemma TellsWaiting(e: LoggedEvent, waiting: Stream, c: Client, cfg: Config)
    requires e.visibility == Public && e.sequence == 1 && waiting.sub == Broker.Subscription([], true, false, [])
    ensures Next(World([e], 0, Some(waiting), c, []), Publish, cfg)
      == World([e], 1, Some(waiting.(sub := Broker.Subscription([], false, false, [Broker.Delivered(e)]), heldUpTo := 1)), c, [])
  {
    assert [] + [Broker.Delivered(e)] == [Broker.Delivered(e)];
  }

  lemma TakenAndDelivered(past: seq<Step>, e: LoggedEvent, told: Stream, c: Client, cfg: Config) returns (steps: seq<Step>)
    requires e.sequence == 1 && c == Client(Some(e), Some(e), [], 1, Some(1), {}) && told.start == Some(e)
    requires told.phase == Live && told.taken == 0 && told.sub.seen == [Broker.Delivered(e)] && told.written == [] && told.lastSequence == 0
    requires told.delivered == 0
    requires Run(past, cfg) == Next(World([e], 1, Some(told), c, []), HandleNotification, cfg)
    ensures var w := Run(steps, cfg); w.stream.Some? && w.stream.value.start == Some(e) && w.stream.value.written == [e]
    ensures Run(steps, cfg).client.base == Some(1) && Run(steps, cfg).client.applied == {1}
  {
    hide Run;
    var wrote := AfterNotification(told);
    assert [] + [e] == [e];
    steps := Reaches(past, World([e], 1, Some(wrote), c, []), Deliver, cfg);
  }

  function Plain(id: string, sequence: nat): LoggedEvent { LoggedEvent(id, sequence, Public, "") }

  lemma OnlyLastIsReplayed(a: LoggedEvent, b: LoggedEvent, c: LoggedEvent)
    requires c.visibility == Public
    ensures IsReplay([a, b, c], 1, None, Events([c]))
  {
    assert Retained([a, b, c], 1) == [c] && [c][1..] == [];
  }

  /** Without that condition there can be a gap: two events are pruned while a stream that was given
      up still holds the first, which fixes the base. */
  lemma LateEventHidesGap() returns (steps: seq<Step>, cfg: Config)
    ensures var w := Run(steps, cfg);
      w.client.base == Some(0) && w.client.lastEventSequence == 3 && Pub(w.log, 2) && 2 !in w.client.applied
  {
    cfg := Config(1, 10);
    var a, b, c := Plain("a", 1), Plain("b", 2), Plain("c", 3);
    assert Run([], cfg) == START;
    steps := Reaches([], START, Append(a), cfg);
    steps := Reaches(steps, START.(log := [a]), Connect, cfg);
    assert Run(steps, cfg) == World([a], 0, Some(OpenedStream(None, 0)), NEW_CLIENT, []);
    steps := HeldBack(steps, a, cfg);
    var late := [Late([a], false, false)];
    steps := Reaches(steps, World([a], 0, None, NEW_CLIENT, late), Append(b), cfg);
    assert Run(steps, cfg) == World([a, b], 0, None, NEW_CLIENT, late);
    steps := Reaches(steps, World([a, b], 0, None, NEW_CLIENT, late), Append(c), cfg);
    assert Run(steps, cfg) == World([a, b, c], 0, None, NEW_CLIENT, late);
    steps := PrunedAway(steps, a, b, c, cfg);
  }

  lemma HeldBack(past: seq<Step>, a: LoggedEvent, cfg: Config) returns (steps: seq<Step>)
    requires a == Plain("a", 1) && cfg == Config(1, 10)
    requires Run(past, cfg) == World([a], 0, Some(OpenedStream(None, 0)), NEW_CLIENT, [])
    ensures Run(steps, cfg) == World([a], 0, None, NEW_CLIENT, [Late([a], false, false)])
  {
    hide Run, IsReplay;
    var start := OpenedStream(None, 0);
    OnlyEventIsReplayed(a, 1);
    steps := Reaches(past, World([a], 0, Some(start), NEW_CLIENT, []), Replay(Events([a])), cfg);
    var replaying := start.(phase := Replaying, replay := [a], answered := Some([a]));
    assert Run(steps, cfg) == World([a], 0, Some(replaying), NEW_CLIENT, []);
    steps := Reaches(steps, World([a], 0, Some(replaying), NEW_CLIENT, []), WriteReplayed, cfg);
    steps := GivesUp(steps, a, AfterWrite(replaying), cfg);
  }

  lemma GivesUp(past: seq<Step>, a: LoggedEvent, wrote: Stream, cfg: Config) returns (steps: seq<Step>)
    requires wrote.written == [a] && wrote.delivered == 0 && !wrote.sync
    requires Run(past, cfg) == World([a], 0, Some(wrote), NEW_CLIENT, [])
    ensures Run(steps, cfg) == World([a], 0, None, NEW_CLIENT, [Late([a], false, false)])
  {
    hide Run;
    assert Undelivered(wrote) == [a];
    assert [] + [Late([a], false, false)] == [Late([a], false, false)];
    steps := Reaches(past, World([a], 0, Some(wrote), NEW_CLIENT, []), Disconnect, cfg);
  }

  lemma PrunedAway(past: seq<Step>, a: LoggedEvent, b: LoggedEvent, c: LoggedEvent, cfg: Config) returns (steps: seq<Step>)
    requires a == Plain("a", 1) && b == Plain("b", 2) && c == Plain("c", 3) && cfg == Config(1, 10)
    requires Run(past, cfg) == World([a, b, c], 0, None, NEW_CLIENT, [Late([a], false, false)])
    ensures var w := Run(steps, cfg);
      w.client.base == Some(0) && w.client.lastEventSequence == 3 && Pub(w.log, 2) && 2 !in w.client.applied
  {
    var h, late := [a, b, c], [Late([a], false, false)];
    var st := OpenedStream(None, 0);
    steps := Reaches(past, World(h, 0, None, NEW_CLIENT, late), Connect, cfg);
    assert Run(steps, cfg) == World(h, 0, Some(st), NEW_CLIENT, late);
    OnlyLastIsReplayed(a, b, c);
    steps := Reaches(steps, World(h, 0, Some(st), NEW_CLIENT, late), Replay(Events([c])), cfg);
    var replaying := st.(phase := Replaying, replay := [c], answered := Some([c]));
    assert Run(steps, cfg) == World(h, 0, Some(replaying), NEW_CLIENT, late);
    steps := Reaches(steps, World(h, 0, Some(replaying), NEW_CLIENT, late), WriteReplayed, cfg);
    steps := GapApplied(steps, a, b, c, AfterWrite(replaying), cfg);
  }

  lemma GapApplied(past: seq<Step>, a: LoggedEvent, b: LoggedEvent, c: LoggedEvent, st: Stream, cfg: Config) returns (steps: seq<Step>)
    requires a == Plain("a", 1) && b == Plain("b", 2) && c == Plain("c", 3)
    requires st.written == [c] && st.delivered == 0
    requires Run(past, cfg) == World([a, b, c], 0, Some(st), NEW_CLIENT, [Late([a], false, false)])
    ensures var w := Run(steps, cfg);
      w.client.base == Some(0) && w.client.lastEventSequence == 3 && Pub(w.log, 2) && 2 !in w.client.applied
  {
    var w := World([a, b, c], 0, Some(st), NEW_CLIENT, [Late([a], false, false)]);
    steps := Reaches(past, w, DeliverLate(0), cfg);
    var d := Client(Some(a), Some(a), ["a"], 1, Some(0), {1});
    assert Received(NEW_CLIENT, a) == d by { assert [] + ["a"] == ["a"]; }
    var next := Run(steps, cfg);
    assert next.client == d && next.stream == Some(st) && next.log == [a, b, c];
    steps := Reaches(steps, next, Deliver, cfg);
    assert "c" != "a";
  }
}
