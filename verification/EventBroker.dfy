/** Fan-out of published events to bounded subscriptions. The first half is one
    subscription as a value, with what its reader can see over a whole history; the second
    half is the broker's objects, held to it. */
module EventBroker {
  import opened Wrappers

  datatype Notification<+E> = Delivered(event: E) | Overflow | Closed

  /** A subscription. `waiting`: a read is pending. `seen`: what reads resolved with. */
  datatype Subscription<+E> = Subscription(
    queue: seq<Notification<E>>, waiting: bool, terminal: bool, seen: seq<Notification<E>>)

  function Opened<E>(): Subscription<E> { Subscription([], false, false, []) }

  function Pushed<E>(s: Subscription<E>, event: E, bufferSize: nat): Subscription<E> {
    if s.terminal then s
    else if s.waiting then s.(waiting := false, seen := s.seen + [Delivered(event)])
    else if |s.queue| < bufferSize then s.(queue := s.queue + [Delivered(event)])
    else s.(queue := [Overflow], terminal := true)
  }

  /** A read; the program throws when one is already pending, and then nothing changes. */
  function Read<E>(s: Subscription<E>): Subscription<E> {
    if s.queue != [] then s.(queue := s.queue[1..], seen := s.seen + [s.queue[0]])
    else if s.terminal then s.(seen := s.seen + [Closed])
    else s.(waiting := true)
  }

  function Shut<E>(s: Subscription<E>): Subscription<E> {
    if s.terminal && !s.waiting then s
    else Subscription([], false, true, if s.waiting then s.seen + [Closed] else s.seen)
  }

  // ---------------------------------------------------------------- histories

  datatype Call<+E> = PushCall(event: E) | ReadCall | CloseCall

  function Step<E>(s: Subscription<E>, call: Call<E>, bufferSize: nat): Subscription<E> {
    match call
    case PushCall(event) => Pushed(s, event, bufferSize)
    case ReadCall => Read(s)
    case CloseCall => Shut(s)
  }

  function After<E>(calls: seq<Call<E>>, bufferSize: nat): Subscription<E> {
    if calls == [] then Opened() else Step(After(calls[..|calls| - 1], bufferSize), calls[|calls| - 1], bufferSize)
  }

  function Pushes<E>(calls: seq<Call<E>>): seq<E> {
    if calls == [] then []
    else
      var before := Pushes(calls[..|calls| - 1]);
      match calls[|calls| - 1] { case PushCall(event) => before + [event] case _ => before }
  }

  function AsNotifications<E>(events: seq<E>): seq<Notification<E>> {
    seq(|events|, i requires 0 <= i < |events| => Delivered(events[i]))
  }

  /** `n` events were read. Before the end, the unread ones are all still queued. After
      it, the reader sees at most one overflow and then only the close. */
  ghost predicate Refines<E(!new)>(s: Subscription<E>, pushed: seq<E>, n: nat, bufferSize: nat) {
    && n <= |s.seen| && n <= |pushed|
    && s.seen[..n] == AsNotifications(pushed[..n])
    && (!s.terminal ==> n == |s.seen| && s.queue == AsNotifications(pushed[n..]))
    && (s.waiting ==> !s.terminal && s.queue == [])
    && |s.queue| <= bufferSize
    && (s.terminal ==> s.queue == [] || (s.queue == [Overflow] && n == |s.seen|))
    && (s.terminal ==> forall i :: n <= i < |s.seen| ==> s.seen[i] == Closed || (i == n && s.seen[i] == Overflow))
  }

  lemma {:induction false} PushRefines<E(!new)>(s: Subscription<E>, pushed: seq<E>, n: nat, event: E, bufferSize: nat)
    returns (m: nat)
    requires bufferSize >= 1 && Refines(s, pushed, n, bufferSize)
    ensures Refines(Pushed(s, event, bufferSize), pushed + [event], m, bufferSize)
  {
    var t := Pushed(s, event, bufferSize);
    assert (pushed + [event])[..n] == pushed[..n];
    m := n;
    if !s.terminal {
      assert (pushed + [event])[n..] == pushed[n..] + [event];
      if s.waiting {
        m := n + 1;
        assert |pushed[n..]| == 0;
        assert (pushed + [event])[..m] == pushed + [event] && pushed == pushed[..n];
        assert t.seen[..m] == t.seen && s.seen[..n] == s.seen;
      } else {
        assert AsNotifications(pushed[n..] + [event]) == AsNotifications(pushed[n..]) + [Delivered(event)];
      }
    }
  }

  lemma {:induction false} ReadRefines<E(!new)>(s: Subscription<E>, pushed: seq<E>, n: nat, bufferSize: nat)
    returns (m: nat)
    requires Refines(s, pushed, n, bufferSize)
    ensures Refines(Read(s), pushed, m, bufferSize)
  {
    var t := Read(s);
    m := n;
    if s.queue != [] && !s.terminal {
      m := n + 1;
      assert pushed[n..][1..] == pushed[m..] && AsNotifications(pushed[n..])[1..] == AsNotifications(pushed[m..]);
      assert t.seen[..m] == t.seen && s.seen[..n] == s.seen;
      assert pushed[..m] == pushed[..n] + [pushed[n]];
    } else if s.queue != [] {
      assert s.queue[1..] == [];
    }
  }

  /** Whatever the order of pushes, reads and closes: what a reader gets is a prefix of
      what was pushed, in order, then possibly one overflow, then closed for ever. */
  lemma {:induction false} ReadsRefineHistory<E(!new)>(calls: seq<Call<E>>, bufferSize: nat) returns (n: nat)
    requires bufferSize >= 1
    ensures Refines(After(calls, bufferSize), Pushes(calls), n, bufferSize)
  {
    n := 0;
    if calls != [] {
      var init, last := calls[..|calls| - 1], calls[|calls| - 1];
      var before := ReadsRefineHistory(init, bufferSize);
      match last
      case PushCall(event) => n := PushRefines(After(init, bufferSize), Pushes(init), before, event, bufferSize);
      case ReadCall => n := ReadRefines(After(init, bufferSize), Pushes(init), before, bufferSize);
      case CloseCall => n := before;
    }
  }

  /** A reader that has seen no overflow and no close, and has nothing queued, has seen
      everything that was pushed. */
  lemma NothingIsLostSilently<E(!new)>(calls: seq<Call<E>>, bufferSize: nat)
    requires bufferSize >= 1
    requires var s := After(calls, bufferSize); s.queue == [] && !s.terminal
    ensures After(calls, bufferSize).seen == AsNotifications(Pushes(calls))
  {
    var n := ReadsRefineHistory(calls, bufferSize);
    var s, pushed := After(calls, bufferSize), Pushes(calls);
    assert |AsNotifications(pushed[n..])| == 0;
    assert pushed[..n] == pushed && s.seen[..n] == s.seen;
  }

  // ---------------------------------------------------------------- every read is resolved

  /** How many reads were made, leaving out those refused because one was pending. */
  function ReadCount<E>(calls: seq<Call<E>>, bufferSize: nat): nat {
    if calls == [] then 0
    else
      var init := calls[..|calls| - 1];
      ReadCount(init, bufferSize) + if calls[|calls| - 1].ReadCall? && !After(init, bufferSize).waiting then 1 else 0
  }

  /** Every read resolves exactly once, save at most one that is still pending; a pending one sees an empty
      queue, and a subscription that was closed or has overflowed has none. */
  lemma {:induction false} ReadsAreResolved<E(!new)>(calls: seq<Call<E>>, bufferSize: nat)
    ensures var s := After(calls, bufferSize);
      && |s.seen| + (if s.waiting then 1 else 0) == ReadCount(calls, bufferSize)
      && (s.waiting ==> !s.terminal && s.queue == [])
  {
    if calls != [] {
      ReadsAreResolved(calls[..|calls| - 1], bufferSize);
    }
  }

  /** A pending read is resolved by the next event, with that event, or by the close. */
  lemma PendingReadResolves<E(!new)>(calls: seq<Call<E>>, event: E, bufferSize: nat)
    requires After(calls, bufferSize).waiting
    ensures var s, pushed, closed := After(calls, bufferSize), After(calls + [PushCall(event)], bufferSize), After(calls + [CloseCall], bufferSize);
      && pushed.seen == s.seen + [Delivered(event)] && !pushed.waiting && !pushed.terminal
      && closed.seen == s.seen + [Closed] && !closed.waiting && closed.terminal
  {
    ReadsAreResolved(calls, bufferSize);
    assert (calls + [PushCall(event)])[..|calls|] == calls && (calls + [CloseCall])[..|calls|] == calls;
  }

  /** Once the queue of a terminal subscription is empty, as it is right after a close that ends it and after
      the overflow has been read, every further read resolves with `closed` at once. */
  lemma {:induction false} ClosedForGood<E(!new)>(calls: seq<Call<E>>, n: nat, bufferSize: nat)
    requires After(calls, bufferSize).terminal && After(calls, bufferSize).queue == []
    ensures var s := After(calls, bufferSize);
      After(calls + seq(n, _ => ReadCall), bufferSize) == s.(seen := s.seen + seq(n, _ => Closed))
    decreases n
  {
    var s := After(calls, bufferSize);
    if n == 0 {
      assert calls + seq(0, _ => ReadCall) == calls && s.seen + seq(0, _ => Closed) == s.seen;
    } else {
      ClosedForGood(calls, n - 1, bufferSize);
      var fewer, more := calls + seq(n - 1, _ => ReadCall), calls + seq(n, _ => ReadCall);
      assert more[..|more| - 1] == fewer && more[|more| - 1] == ReadCall;
      assert s.seen + seq(n - 1, _ => Closed) + [Closed] == s.seen + seq(n, _ => Closed);
    }
  }

  /** A close that ends a subscription leaves nothing to read; a push that overflows leaves just the mark. */
  lemma EndLeaves<E(!new)>(calls: seq<Call<E>>, event: E, bufferSize: nat)
    requires !After(calls, bufferSize).terminal
    ensures var s, closed, pushed := After(calls, bufferSize), After(calls + [CloseCall], bufferSize), After(calls + [PushCall(event)], bufferSize);
      && closed.terminal && closed.queue == [] && !closed.waiting
      && (pushed.terminal <==> !s.waiting && |s.queue| >= bufferSize)
      && (pushed.terminal ==> pushed.queue == [Overflow] && pushed.seen == s.seen)
      && (!pushed.terminal ==> pushed.seen + pushed.queue == s.seen + s.queue + [Delivered(event)])
  {
    ReadsAreResolved(calls, bufferSize);
    assert (calls + [PushCall(event)])[..|calls|] == calls && (calls + [CloseCall])[..|calls|] == calls;
  }

  /** Steps that call the detach callback. */
  predicate Detaches<E>(s: Subscription<E>, call: Call<E>, bufferSize: nat) {
    match call
    case PushCall(_) => !s.terminal && !s.waiting && |s.queue| >= bufferSize
    case ReadCall => false
    case CloseCall => !(s.terminal && !s.waiting)
  }

  function DetachCount<E>(calls: seq<Call<E>>, bufferSize: nat): nat {
    if calls == [] then 0
    else
      var init := calls[..|calls| - 1];
      DetachCount(init, bufferSize) + if Detaches(After(init, bufferSize), calls[|calls| - 1], bufferSize) then 1 else 0
  }

  /** A subscription detaches once, at the moment it becomes terminal. */
  lemma {:induction false} DetachesOnce<E(!new)>(calls: seq<Call<E>>, bufferSize: nat)
    requires bufferSize >= 1
    ensures DetachCount(calls, bufferSize) == if After(calls, bufferSize).terminal then 1 else 0
  {
    if calls != [] {
      var init := calls[..|calls| - 1];
      DetachesOnce(init, bufferSize);
      var n := ReadsRefineHistory(init, bufferSize);
    }
  }

  // ---------------------------------------------------------------- the objects

  type ConversationId = string

  datatype PublicEvent = PublicEvent(conversationId: ConversationId, sequence: nat, body: string)

  /** One conversation's set of subscriptions, shared by the broker's map and by the
      detach callbacks of its members. */
  class SubscriberSet {
    ghost const conversationId: ConversationId
    var members: set<BufferedSubscription>

    constructor (ghost conversationId: ConversationId)
      ensures members == {} && this.conversationId == conversationId
    {
      this.conversationId := conversationId;
      members := {};
    }
  }

  class BufferedSubscription {
    const bufferSize: nat
    const broker: EventBroker
    const conversationId: ConversationId
    const home: SubscriberSet
    var queue: seq<Notification<PublicEvent>>
    var waiting: bool
    var terminal: bool
    var seen: seq<Notification<PublicEvent>>

    constructor (bufferSize: nat, broker: EventBroker, conversationId: ConversationId, home: SubscriberSet)
      ensures this.bufferSize == bufferSize && this.broker == broker
      ensures this.conversationId == conversationId && this.home == home
      ensures State() == Opened()
    {
      this.bufferSize, this.broker, this.conversationId, this.home := bufferSize, broker, conversationId, home;
      queue, waiting, terminal, seen := [], false, false, [];
    }

    ghost function State(): Subscription<PublicEvent>
      reads this
    {
      Subscription(queue, waiting, terminal, seen)
    }

    /** The callback the broker hands to each subscription. */
    method Detach()
      modifies home`members, broker`subscriptions
      ensures home.members == old(home.members) - {this}
      ensures broker.subscriptions ==
              if home.members == {} then old(broker.subscriptions) - {conversationId} else old(broker.subscriptions)
    {
      home.members := home.members - {this};
      if home.members == {} { broker.subscriptions := broker.subscriptions - {conversationId}; }
    }

    method Push(event: PublicEvent)
      requires broker.Valid() && this in broker.all
      modifies this, home`members, broker`subscriptions
      ensures broker.Valid() && State() == Pushed(old(State()), event, bufferSize)
    {
      if terminal { return; }
      if waiting {
        waiting := false;
        seen := seen + [Delivered(event)];
        return;
      }
      if |queue| < bufferSize {
        queue := queue + [Delivered(event)];
        return;
      }
      queue := [Overflow];
      terminal := true;
      Detach();
    }

    /** `Failure` where the program throws. */
    method Next() returns (r: Result<(), string>)
      requires broker.Valid() && this in broker.all
      modifies this
      ensures broker.Valid() && State() == Read(old(State()))
      ensures r.Failure? <==> old(queue == [] && !terminal && waiting)
    {
      if queue != [] {
        seen := seen + [queue[0]];
        queue := queue[1..];
        return Success(());
      }
      if terminal {
        seen := seen + [Closed];
        return Success(());
      }
      if waiting { return Failure("Only one pending subscription read is supported."); }
      waiting := true;
      return Success(());
    }

    method ResolveClosed()
      modifies this`waiting, this`seen
      ensures !waiting && seen == if old(waiting) then old(seen) + [Closed] else old(seen)
    {
      if waiting {
        waiting := false;
        seen := seen + [Closed];
      }
    }

    method Close()
      requires broker.Valid() && this in broker.all
      modifies this, home`members, broker`subscriptions
      ensures broker.Valid() && State() == Shut(old(State()))
    {
      if terminal && !waiting { return; }
      terminal := true;
      queue := [];
      Detach();
      ResolveClosed();
    }
  }

  class EventBroker {
    const subscriberBufferSize: nat
    var subscriptions: map<ConversationId, SubscriberSet>
    /** Every subscription ever handed out. */
    ghost var all: set<BufferedSubscription>
    /** Every set ever created for a conversation. */
    ghost var sets: set<SubscriberSet>

    constructor (subscriberBufferSize: nat)
      requires subscriberBufferSize >= 1
      ensures Valid() && all == {} && this.subscriberBufferSize == subscriberBufferSize
    {
      this.subscriberBufferSize := subscriberBufferSize;
      subscriptions := map[];
      all, sets := {}, {};
    }

    /** A subscription is where its detach callback will look for it as long as it is not
        terminal, and nowhere after that; no conversation keeps an empty set. */
    ghost predicate Valid()
      reads this, all, sets
    {
      && subscriberBufferSize >= 1
      && (forall s <- all :: s.broker == this && s.bufferSize == subscriberBufferSize)
      && (forall s <- all :: s.home in sets && s.home.conversationId == s.conversationId)
      && (forall s <- all :: s.waiting ==> !s.terminal)
      && (forall s <- all :: s.terminal ==> s !in s.home.members)
      && (forall s <- all :: !s.terminal ==>
            s in s.home.members && s.conversationId in subscriptions && subscriptions[s.conversationId] == s.home)
      && (forall peers <- sets, s <- peers.members :: s in all && s.home == peers)
      && (forall c <- subscriptions ::
            subscriptions[c] in sets && subscriptions[c].members != {} && subscriptions[c].conversationId == c)
    }

    /** The map holds exactly the subscriptions that are not terminal. */
    lemma MapIsExact(c: ConversationId)
      requires Valid()
      ensures var live := set s | s in all && s.conversationId == c && !s.terminal;
              (c in subscriptions <==> live != {}) && (c in subscriptions ==> subscriptions[c].members == live)
    {
      var live := set s | s in all && s.conversationId == c && !s.terminal;
      assert live == if c in subscriptions then subscriptions[c].members else {};
    }

    method Subscribe(conversationId: ConversationId) returns (subscription: BufferedSubscription)
      requires Valid()
      modifies this, subscriptions.Values
      ensures Valid() && fresh(subscription) && all == old(all) + {subscription}
      ensures subscription.conversationId == conversationId && subscription.State() == Opened()
    {
      var peers: SubscriberSet;
      if conversationId in subscriptions {
        peers := subscriptions[conversationId];
      } else {
        peers := new SubscriberSet(conversationId);
      }
      subscription := new BufferedSubscription(subscriberBufferSize, this, conversationId, peers);
      Admit(subscription, peers);
    }

    /** The new subscription joins its conversation's set. */
    method Admit(subscription: BufferedSubscription, peers: SubscriberSet)
      requires Valid()
      requires subscription !in all && subscription.State() == Opened() && subscription.home == peers
      requires subscription.broker == this && subscription.bufferSize == subscriberBufferSize
      requires peers.conversationId == subscription.conversationId
      requires if subscription.conversationId in subscriptions then peers == subscriptions[subscription.conversationId]
               else peers.members == {} && peers !in sets
      modifies this`subscriptions, this`all, this`sets, peers
      ensures Valid() && all == old(all) + {subscription}
    {
      peers.members := peers.members + {subscription};
      subscriptions := subscriptions[subscription.conversationId := peers];
      all, sets := all + {subscription}, sets + {peers};
    }

    /** Every live subscription of the conversation gets the event, and no other one
        changes. */
    method Publish(event: PublicEvent)
      requires Valid()
      modifies this`subscriptions, all, sets
      ensures Valid() && all == old(all)
      ensures forall s <- all :: s.State() ==
                if s.conversationId == event.conversationId then Pushed(old(s.State()), event, subscriberBufferSize)
                else old(s.State())
    {
      assert forall s <- all :: s.terminal ==> Pushed(s.State(), event, subscriberBufferSize) == s.State();
      hide Pushed;
      if event.conversationId !in subscriptions { return; }
      var targets := subscriptions[event.conversationId].members;
      var todo := targets;
      while todo != {}
        invariant Valid() && todo <= targets && unchanged(this`all)
        invariant forall s <- all :: s.State() ==
                    if s in targets && s !in todo then Pushed(old(s.State()), event, subscriberBufferSize)
                    else old(s.State())
        decreases todo
      {
        var subscription :| subscription in todo;
        subscription.Push(event);
        todo := todo - {subscription};
      }
    }
  }
}
