/** The fixed-window rate limiter: at most `max` calls of a key in a window, windows of at most
    `maxKeys` keys kept, the least recently seen key giving way. */
module RateLimiter {
  import opened Wrappers

  datatype Options = Options(windowMs: nat, max: nat, maxKeys: nat)
  datatype Window = Window(count: nat, startedAt: int, lastSeen: int)
  datatype Entry = Entry(key: string, window: Window)
  datatype Decision = Decision(allowed: bool, limit: nat, remaining: nat, resetSeconds: int)

  // ---------------------------------------------------------------- the table, in insertion order

  predicate UniqueKeys(entries: seq<Entry>) { forall i, j :: 0 <= i < j < |entries| ==> entries[i].key != entries[j].key }

  function Lookup(entries: seq<Entry>, key: string): (w: Option<Window>)
    ensures w.None? <==> forall e <- entries :: e.key != key
  {
    if entries == [] then None else if entries[0].key == key then Some(entries[0].window) else Lookup(entries[1..], key)
  }

  function Remove(entries: seq<Entry>, key: string): (r: seq<Entry>)
    ensures forall e :: e in r <==> e in entries && e.key != key
    ensures |r| <= |entries| && (Lookup(entries, key).Some? ==> |r| < |entries|)
  {
    if entries == [] then [] else if entries[0].key == key then Remove(entries[1..], key) else [entries[0]] + Remove(entries[1..], key)
  }

  function Update(entries: seq<Entry>, key: string, window: Window): (r: seq<Entry>)
    ensures |r| == |entries|
    ensures forall i :: 0 <= i < |entries| ==> r[i] == if entries[i].key == key then Entry(key, window) else entries[i]
  {
    seq(|entries|, i requires 0 <= i < |entries| => if entries[i].key == key then Entry(key, window) else entries[i])
  }

  /** The first of the entries that were last seen longest ago. */
  function Oldest(entries: seq<Entry>): (o: nat)
    requires entries != []
    ensures o < |entries|
    ensures forall j :: 0 <= j < |entries| ==> entries[o].window.lastSeen <= entries[j].window.lastSeen
    ensures forall j :: 0 <= j < o ==> entries[o].window.lastSeen < entries[j].window.lastSeen
  {
    var last := |entries| - 1;
    if last == 0 then 0
    else
      var o := Oldest(entries[..last]);
      if entries[last].window.lastSeen < entries[o].window.lastSeen then last else o
  }

  function RoomMade(entries: seq<Entry>, options: Options): seq<Entry> {
    if |entries| < options.maxKeys || entries == [] then entries else Remove(entries, entries[Oldest(entries)].key)
  }

  // ---------------------------------------------------------------- one call

  function Expired(window: Window, now: int, options: Options): bool { now >= window.startedAt + options.windowMs }

  /** The table without the caller's expired window. */
  function Others(entries: seq<Entry>, key: string): seq<Entry> {
    if Lookup(entries, key).Some? then Remove(entries, key) else entries
  }

  /** The table once the caller's window is there. */
  function Opened(entries: seq<Entry>, key: string, now: int, options: Options): seq<Entry> {
    var found := Lookup(entries, key);
    if found.Some? && !Expired(found.value, now, options) then entries
    else RoomMade(Others(entries, key), options) + [Entry(key, Window(0, now, now))]
  }

  function WindowFor(entries: seq<Entry>, key: string, now: int, options: Options): Window {
    var found := Lookup(entries, key);
    if found.Some? && !Expired(found.value, now, options) then found.value else Window(0, now, now)
  }

  function Counted(window: Window, now: int, options: Options): Window {
    window.(count := if window.count < options.max then window.count + 1 else window.count, lastSeen := now)
  }

  function Next(entries: seq<Entry>, key: string, now: int, options: Options): seq<Entry> {
    Update(Opened(entries, key, now, options), key, Counted(WindowFor(entries, key, now, options), now, options))
  }

  predicate Allows(entries: seq<Entry>, key: string, now: int, options: Options) {
    WindowFor(entries, key, now, options).count < options.max
  }

  /** `Math.ceil(ms / 1000)` */
  function SecondsFor(ms: int): int { -((-ms) / 1000) }

  function Answer(entries: seq<Entry>, key: string, now: int, options: Options): Decision {
    var window := Counted(WindowFor(entries, key, now, options), now, options);
    var seconds := SecondsFor(window.startedAt + options.windowMs - now);
    Decision(Allows(entries, key, now, options), options.max,
             if options.max > window.count then options.max - window.count else 0, if seconds > 1 then seconds else 1)
  }

  // ---------------------------------------------------------------- the object

  class FixedWindowRateLimiter {
    const options: Options
    var windows: seq<Entry>

    constructor (options: Options)
      ensures this.options == options && windows == []
    {
      this.options, windows := options, [];
    }

    method Consume(key: string, now: int) returns (decision: Decision)
      modifies this
      ensures windows == Next(old(windows), key, now, options)
      ensures decision == Answer(old(windows), key, now, options)
    {
      var state := Lookup(windows, key);
      if state.Some? && now >= state.value.startedAt + options.windowMs {
        windows := Remove(windows, key);
        state := None;
      }
      if state.None? {
        MakeRoom();
        state := Some(Window(0, now, now));
        windows := windows + [Entry(key, state.value)];
      }
      assert windows == Opened(old(windows), key, now, options) && state.value == WindowFor(old(windows), key, now, options);
      var window := state.value.(lastSeen := now);
      var allowed := window.count < options.max;
      if allowed {
        window := window.(count := window.count + 1);
      }
      windows := Update(windows, key, window);
      var left := window.startedAt + options.windowMs - now;
      var seconds := SecondsFor(left);
      return Decision(allowed, options.max, if options.max > window.count then options.max - window.count else 0,
                      if seconds > 1 then seconds else 1);
    }

    method MakeRoom()
      modifies this
      ensures windows == RoomMade(old(windows), options)
    {
      if |windows| < options.maxKeys {
        return;
      }
      var oldest := None;
      for i := 0 to |windows|
        invariant windows == old(windows)
        invariant oldest.None? <==> i == 0
        invariant oldest.Some? ==> oldest.value < i && oldest == Some(Oldest(windows[..i]))
      {
        assert windows[..i + 1][..i] == windows[..i];
        if oldest.None? || windows[i].window.lastSeen < windows[oldest.value].window.lastSeen {
          oldest := Some(i);
        }
      }
      assert windows[..|windows|] == windows;
      if oldest.Some? {
        windows := Remove(windows, windows[oldest.value].key);
      }
    }
  }

  // ---------------------------------------------------------------- the size of the table

  /** With no room at all there is still one window. */
  function Capacity(options: Options): nat { if options.maxKeys == 0 then 1 else options.maxKeys }

  lemma {:induction false} RemoveKeepsUnique(entries: seq<Entry>, key: string)
    requires UniqueKeys(entries)
    ensures UniqueKeys(Remove(entries, key))
  {
    if entries != [] {
      RemoveKeepsUnique(entries[1..], key);
      var rest := Remove(entries[1..], key);
      forall j | 0 <= j < |rest| ensures entries[0].key != rest[j].key {
        assert rest[j] in rest;
      }
    }
  }

  lemma RoomKeepsUnique(entries: seq<Entry>, key: string, options: Options)
    requires UniqueKeys(entries)
    ensures UniqueKeys(RoomMade(Others(entries, key), options))
    ensures forall e <- RoomMade(Others(entries, key), options) :: e in entries && e.key != key
  {
    var others := Others(entries, key);
    RemoveKeepsUnique(entries, key);
    if others != [] {
      RemoveKeepsUnique(others, others[Oldest(others)].key);
    }
  }

  lemma AppendKeepsUnique(entries: seq<Entry>, e: Entry)
    requires UniqueKeys(entries) && forall d <- entries :: d.key != e.key
    ensures UniqueKeys(entries + [e])
  {
    forall i, j | 0 <= i < j < |entries + [e]| ensures (entries + [e])[i].key != (entries + [e])[j].key {
      assert entries[i] in entries;
    }
  }

  lemma NextKeepsUnique(entries: seq<Entry>, key: string, now: int, options: Options)
    requires UniqueKeys(entries)
    ensures UniqueKeys(Next(entries, key, now, options))
  {
    RoomKeepsUnique(entries, key, options);
    AppendKeepsUnique(RoomMade(Others(entries, key), options), Entry(key, Window(0, now, now)));
    assert UniqueKeys(Opened(entries, key, now, options));
  }

  /** The table never holds more than `maxKeys` windows, or one where `maxKeys` is zero. */
  lemma NextKeepsSize(entries: seq<Entry>, key: string, now: int, options: Options)
    requires UniqueKeys(entries) && |entries| <= Capacity(options)
    ensures |Next(entries, key, now, options)| <= Capacity(options)
  {
    var found := Lookup(entries, key);
    if found.None? || Expired(found.value, now, options) {
      var others := Others(entries, key);
      if others != [] {
        var oldest := others[Oldest(others)];
        assert oldest in others;
        assert Lookup(others, oldest.key).Some?;
      }
    }
  }

  datatype Call = Call(key: string, now: int)

  function After(entries: seq<Entry>, calls: seq<Call>, options: Options): seq<Entry>
    decreases |calls|
  {
    if calls == [] then entries else After(Next(entries, calls[0].key, calls[0].now, options), calls[1..], options)
  }

  lemma {:induction false} SizeIsBounded(entries: seq<Entry>, calls: seq<Call>, options: Options)
    requires UniqueKeys(entries) && |entries| <= Capacity(options)
    ensures UniqueKeys(After(entries, calls, options))
    ensures |After(entries, calls, options)| <= Capacity(options)
    decreases |calls|
  {
    if calls != [] {
      NextKeepsUnique(entries, calls[0].key, calls[0].now, options);
      NextKeepsSize(entries, calls[0].key, calls[0].now, options);
      SizeIsBounded(Next(entries, calls[0].key, calls[0].now, options), calls[1..], options);
    }
  }

  // ---------------------------------------------------------------- nothing is evicted while all keys fit

  function KeysOf(entries: seq<Entry>): set<string> { set e <- entries :: e.key }

  lemma {:induction false} CountKeys(entries: seq<Entry>)
    requires UniqueKeys(entries)
    ensures |KeysOf(entries)| == |entries|
    decreases |entries|
  {
    if entries == [] {
      assert KeysOf(entries) == {};
    } else {
      var last := |entries| - 1;
      CountKeys(entries[..last]);
      assert entries[last].key !in KeysOf(entries[..last]);
      assert KeysOf(entries) == KeysOf(entries[..last]) + {entries[last].key} by {
        forall key | key in KeysOf(entries) ensures key in KeysOf(entries[..last]) + {entries[last].key} {
          var e :| e in entries && e.key == key;
          assert e in entries[..last] || e == entries[last];
        }
      }
    }
  }

  lemma LookupIsMember(entries: seq<Entry>, key: string)
    ensures Lookup(entries, key).Some? <==> key in KeysOf(entries)
  {}

  lemma NoRoomNeeded(entries: seq<Entry>, key: string, options: Options, used: set<string>)
    requires UniqueKeys(entries) && KeysOf(entries) <= used && |used + {key}| <= Capacity(options)
    ensures RoomMade(Others(entries, key), options) == Others(entries, key)
  {
    var others := Others(entries, key);
    RemoveKeepsUnique(entries, key);
    CountKeys(others);
    assert KeysOf(others) <= used && key !in KeysOf(others);
    FewerThan(KeysOf(others), used + {key}, key);
  }

  /** While the keys used so far and the caller's fit, a call drops no one else's window. */
  lemma NoEvictionWhileKeysFit(entries: seq<Entry>, key: string, now: int, options: Options, used: set<string>)
    requires UniqueKeys(entries) && KeysOf(entries) <= used && |used + {key}| <= Capacity(options)
    ensures KeysOf(Next(entries, key, now, options)) == KeysOf(entries) + {key}
    ensures forall other: string :: other != key ==> Lookup(Next(entries, key, now, options), other) == Lookup(entries, other)
  {
    NoRoomNeeded(entries, key, options, used);
    LookupHere(entries, key, now, options);
    var next := Next(entries, key, now, options);
    forall other: string ensures other != key ==> Lookup(next, other) == Lookup(entries, other) {
      if other != key { LookupElsewhere(entries, key, now, options, other); }
    }
    forall other: string ensures other in KeysOf(next) <==> other in KeysOf(entries) + {key} {
      LookupIsMember(next, other);
      LookupIsMember(entries, other);
    }
  }

  function Used(calls: seq<Call>): set<string> { set c <- calls :: c.key }

  /** So as long as the distinct keys ever used fit, nothing is ever evicted. */
  lemma {:induction false} NoEvictionAtAll(entries: seq<Entry>, calls: seq<Call>, options: Options, key: string)
    requires UniqueKeys(entries) && |KeysOf(entries) + Used(calls)| <= Capacity(options)
    ensures Keeps(entries, calls, options, key)
    decreases |calls|
  {
    if calls != [] {
      var c := calls[0];
      assert c in calls;
      var used := KeysOf(entries);
      assert forall k :: k in used + {c.key} ==> k in KeysOf(entries) + Used(calls);
      SubsetIsSmaller(used + {c.key}, KeysOf(entries) + Used(calls));
      NoEvictionWhileKeysFit(entries, c.key, c.now, options, used);
      NextKeepsUnique(entries, c.key, c.now, options);
      var next := Next(entries, c.key, c.now, options);
      assert forall k :: k in KeysOf(next) + Used(calls[1..]) ==> k in KeysOf(entries) + Used(calls);
      SubsetIsSmaller(KeysOf(next) + Used(calls[1..]), KeysOf(entries) + Used(calls));
      NoEvictionAtAll(next, calls[1..], options, key);
    }
  }

  /** No call of another key drops the window of this one. */
  predicate Keeps(entries: seq<Entry>, calls: seq<Call>, options: Options, key: string)
    decreases |calls|
  {
    calls != [] ==>
      var next := Next(entries, calls[0].key, calls[0].now, options);
      (calls[0].key != key ==> Lookup(next, key) == Lookup(entries, key)) && Keeps(next, calls[1..], options, key)
  }

  lemma FewerThan(a: set<string>, b: set<string>, x: string)
    requires a <= b && x in b && x !in a
    ensures |a| < |b|
  {
    SubsetIsSmaller(a, b - {x});
  }

  lemma {:induction false} SubsetIsSmaller(a: set<string>, b: set<string>)
    requires a <= b
    ensures |a| <= |b|
    decreases |a|
  {
    if a != {} {
      var x :| x in a;
      SubsetIsSmaller(a - {x}, b - {x});
    }
  }

  lemma {:induction false} UpdateLookup(entries: seq<Entry>, key: string, window: Window, other: string)
    ensures Lookup(Update(entries, key, window), other) ==
      if other == key && Lookup(entries, key).Some? then Some(window) else Lookup(entries, other)
  {
    if entries != [] {
      UpdateLookup(entries[1..], key, window, other);
      assert Update(entries, key, window)[1..] == Update(entries[1..], key, window);
    }
  }

  lemma {:induction false} RemoveLookup(entries: seq<Entry>, key: string, other: string)
    ensures Lookup(Remove(entries, key), other) == if other == key then None else Lookup(entries, other)
  {
    if entries != [] {
      RemoveLookup(entries[1..], key, other);
    }
  }

  lemma {:induction false} AppendLookup(entries: seq<Entry>, e: Entry, other: string)
    ensures Lookup(entries + [e], other) ==
      if Lookup(entries, other).Some? then Lookup(entries, other) else if e.key == other then Some(e.window) else None
  {
    if entries == [] {
      assert entries + [e] == [e];
    } else {
      assert (entries + [e])[1..] == entries[1..] + [e];
      AppendLookup(entries[1..], e, other);
    }
  }

  /** A call leaves the window of another key alone, or evicts it. */
  lemma LookupElsewhere(entries: seq<Entry>, key: string, now: int, options: Options, other: string)
    requires other != key
    ensures Lookup(Next(entries, key, now, options), other) in {Lookup(entries, other), None}
    ensures RoomMade(Others(entries, key), options) == Others(entries, key) ==> Lookup(Next(entries, key, now, options), other) == Lookup(entries, other)
  {
    var others := Others(entries, key);
    RemoveLookup(entries, key, other);
    if others != [] {
      RemoveLookup(others, others[Oldest(others)].key, other);
    }
    AppendLookup(RoomMade(others, options), Entry(key, Window(0, now, now)), other);
    UpdateLookup(Opened(entries, key, now, options), key, Counted(WindowFor(entries, key, now, options), now, options), other);
  }

  /** A call leaves its own key with the window it counted in. */
  lemma LookupHere(entries: seq<Entry>, key: string, now: int, options: Options)
    ensures Lookup(Next(entries, key, now, options), key) == Some(Counted(WindowFor(entries, key, now, options), now, options))
  {
    var others := Others(entries, key);
    AppendLookup(RoomMade(others, options), Entry(key, Window(0, now, now)), key);
    LookupOpened(entries, key, now, options);
    UpdateLookup(Opened(entries, key, now, options), key, Counted(WindowFor(entries, key, now, options), now, options), key);
  }

  lemma LookupOpened(entries: seq<Entry>, key: string, now: int, options: Options)
    ensures Lookup(Opened(entries, key, now, options), key).Some?
  {
    var others := Others(entries, key);
    AppendLookup(RoomMade(others, options), Entry(key, Window(0, now, now)), key);
  }

  // ---------------------------------------------------------------- who is evicted

  /** When the key was last called. */
  function LastCall(calls: seq<Call>, key: string): Option<int> {
    if calls == [] then None
    else if calls[|calls| - 1].key == key then Some(calls[|calls| - 1].now)
    else LastCall(calls[..|calls| - 1], key)
  }

  /** Windows remember when their keys were last called. */
  ghost predicate Remembers(entries: seq<Entry>, past: seq<Call>) {
    forall key: string :: Lookup(entries, key).Some? ==> LastCall(past, key) == Some(Lookup(entries, key).value.lastSeen)
  }

  lemma NextRemembers(entries: seq<Entry>, past: seq<Call>, c: Call, options: Options)
    requires Remembers(entries, past)
    ensures Remembers(Next(entries, c.key, c.now, options), past + [c])
  {
    var next := Next(entries, c.key, c.now, options);
    LookupHere(entries, c.key, c.now, options);
    assert (past + [c])[..|past|] == past;
    forall key: string | Lookup(next, key).Some? ensures LastCall(past + [c], key) == Some(Lookup(next, key).value.lastSeen) {
      if key != c.key { LookupElsewhere(entries, c.key, c.now, options, key); }
    }
  }

  lemma {:induction false} AlwaysRemembers(entries: seq<Entry>, past: seq<Call>, calls: seq<Call>, options: Options)
    requires Remembers(entries, past)
    ensures Remembers(After(entries, calls, options), past + calls)
    decreases |calls|
  {
    hide Next, Remembers;
    if calls == [] {
      assert past + calls == past;
    } else {
      NextRemembers(entries, past, calls[0], options);
      AlwaysRemembers(Next(entries, calls[0].key, calls[0].now, options), past + [calls[0]], calls[1..], options);
      assert past + [calls[0]] + calls[1..] == past + calls;
    }
  }

  lemma {:induction false} LookupHit(entries: seq<Entry>, i: nat)
    requires UniqueKeys(entries) && i < |entries|
    ensures Lookup(entries, entries[i].key) == Some(entries[i].window)
  {
    if i > 0 {
      assert entries[0].key != entries[i].key;
      assert entries[1..][i - 1] == entries[i];
      LookupHit(entries[1..], i - 1);
    }
  }

  /** Over any calls from an empty table: a key whose window goes by another's call had been called no later
      than any other key that has one. */
  lemma EvictedIsLeastRecent(calls: seq<Call>, c: Call, options: Options, gone: string, other: string)
    requires var entries := After([], calls, options);
      && gone != c.key && other != c.key && Lookup(entries, gone).Some? && Lookup(entries, other).Some?
      && Lookup(Next(entries, c.key, c.now, options), gone).None?
    ensures LastCall(calls, gone).Some? && LastCall(calls, other).Some? && LastCall(calls, gone).value <= LastCall(calls, other).value
  {
    var entries := After([], calls, options);
    AlwaysRemembers([], [], calls, options);
    assert [] + calls == calls;
    SizeIsBounded([], calls, options);
    hide Next, After;
    OldestGoes(entries, c.key, c.now, options, gone, other);
  }

  lemma OldestGoes(entries: seq<Entry>, key: string, now: int, options: Options, gone: string, other: string)
    requires UniqueKeys(entries) && gone != key && other != key && Lookup(entries, gone).Some? && Lookup(entries, other).Some?
    requires Lookup(Next(entries, key, now, options), gone).None?
    ensures Lookup(entries, gone).value.lastSeen <= Lookup(entries, other).value.lastSeen
  {
    var others := Others(entries, key);
    RemoveLookup(entries, key, gone);
    RemoveLookup(entries, key, other);
    RemoveKeepsUnique(entries, key);
    assert Lookup(others, gone) == Lookup(entries, gone) && Lookup(others, other) == Lookup(entries, other);
    LookupElsewhere(entries, key, now, options, gone);
    hide Next;
    var o := Oldest(others);
    GoneIsOldest(entries, key, now, options, gone);
    LookupHit(others, o);
    var e :| e in others && e.key == other;
    var i :| 0 <= i < |others| && others[i] == e;
    LookupHit(others, i);
  }

  lemma GoneIsOldest(entries: seq<Entry>, key: string, now: int, options: Options, gone: string)
    requires gone != key && Lookup(entries, gone).Some? && Lookup(Next(entries, key, now, options), gone).None?
    ensures var others := Others(entries, key); others != [] && others[Oldest(others)].key == gone
  {
    var others := Others(entries, key);
    RemoveLookup(entries, key, gone);
    if others != [] { RemoveLookup(others, others[Oldest(others)].key, gone); }
    AppendLookup(RoomMade(others, options), Entry(key, Window(0, now, now)), gone);
    UpdateLookup(Opened(entries, key, now, options), key, Counted(WindowFor(entries, key, now, options), now, options), gone);
  }

  // ---------------------------------------------------------------- how much a key can get

  predicate Ordered(calls: seq<Call>, from: int)
    decreases |calls|
  {
    calls != [] ==> from <= calls[0].now && Ordered(calls[1..], calls[0].now)
  }

  predicate Gets(entries: seq<Entry>, c: Call, options: Options, key: string, lo: int, hi: int) {
    c.key == key && lo <= c.now <= hi && Allows(entries, key, c.now, options)
  }

  /** How many calls of the key between `lo` and `hi`, both included, are allowed. */
  function Granted(entries: seq<Entry>, calls: seq<Call>, options: Options, key: string, lo: int, hi: int): nat
    decreases |calls|
  {
    if calls == [] then 0
    else
      (if Gets(entries, calls[0], options, key, lo, hi) then 1 else 0)
      + Granted(Next(entries, calls[0].key, calls[0].now, options), calls[1..], options, key, lo, hi)
  }

  lemma {:induction false} NothingLater(entries: seq<Entry>, calls: seq<Call>, options: Options, key: string, from: int, lo: int, hi: int)
    requires Ordered(calls, from) && hi < from
    ensures Granted(entries, calls, options, key, lo, hi) == 0
    decreases |calls|
  {
    if calls != [] {
      NothingLater(Next(entries, calls[0].key, calls[0].now, options), calls[1..], options, key, calls[0].now, lo, hi);
    }
  }

  function Rest(window: Window, options: Options): nat { if options.max > window.count then options.max - window.count else 0 }

  /** The window reaches past the interval: only what is left in it can still be granted. */
  lemma {:induction false} WithinOneWindow(entries: seq<Entry>, calls: seq<Call>, options: Options, key: string, from: int, lo: int, hi: int)
    requires Ordered(calls, from) && Keeps(entries, calls, options, key)
    requires Lookup(entries, key).Some? && hi < Lookup(entries, key).value.startedAt + options.windowMs
    ensures Granted(entries, calls, options, key, lo, hi) <= Rest(Lookup(entries, key).value, options)
    decreases |calls|
  {
    hide Next;
    if calls != [] {
      var c := calls[0];
      var next := Next(entries, c.key, c.now, options);
      LookupHere(entries, c.key, c.now, options);
      if c.now > hi {
        NothingLater(next, calls[1..], options, key, c.now, lo, hi);
      } else {
        WithinOneWindow(next, calls[1..], options, key, c.now, lo, hi);
      }
    }
  }

  /** The window reaches past the start of the interval: what is left in it, and one more window. */
  lemma {:induction false} AcrossOneBoundary(entries: seq<Entry>, calls: seq<Call>, options: Options, key: string, from: int, lo: int, hi: int)
    requires Ordered(calls, from) && Keeps(entries, calls, options, key) && hi <= lo + options.windowMs
    requires Lookup(entries, key).Some? && lo < Lookup(entries, key).value.startedAt + options.windowMs
    ensures Granted(entries, calls, options, key, lo, hi) <= Rest(Lookup(entries, key).value, options) + options.max
    decreases |calls|
  {
    hide Next;
    if calls != [] {
      var c := calls[0];
      var next := Next(entries, c.key, c.now, options);
      LookupHere(entries, c.key, c.now, options);
      if c.now > hi {
        NothingLater(next, calls[1..], options, key, c.now, lo, hi);
      } else if c.key == key && Expired(Lookup(entries, key).value, c.now, options) {
        WithinOneWindow(next, calls[1..], options, key, c.now, lo, hi);
      } else {
        AcrossOneBoundary(next, calls[1..], options, key, c.now, lo, hi);
      }
    }
  }

  /** Whatever the table holds, a key that is never evicted gets at most twice the limit in any
      closed interval as long as a window. */
  lemma {:induction false} AtMostTwiceTheLimit(entries: seq<Entry>, calls: seq<Call>, options: Options, key: string, from: int, lo: int, hi: int)
    requires Ordered(calls, from) && Keeps(entries, calls, options, key) && options.windowMs > 0
    requires hi <= lo + options.windowMs
    ensures Granted(entries, calls, options, key, lo, hi) <= 2 * options.max
    decreases |calls|
  {
    hide Next;
    var found := Lookup(entries, key);
    if found.Some? && lo < found.value.startedAt + options.windowMs {
      AcrossOneBoundary(entries, calls, options, key, from, lo, hi);
    } else if calls != [] {
      var c := calls[0];
      var next := Next(entries, c.key, c.now, options);
      LookupHere(entries, c.key, c.now, options);
      if c.key == key && lo <= c.now {
        AcrossOneBoundary(next, calls[1..], options, key, c.now, lo, hi);
      } else {
        AtMostTwiceTheLimit(next, calls[1..], options, key, c.now, lo, hi);
      }
    }
  }

  /** In particular from an empty table, while the keys ever used fit. */
  lemma LimiterBound(calls: seq<Call>, options: Options, key: string, from: int, lo: int)
    requires Ordered(calls, from) && |Used(calls)| <= Capacity(options) && options.windowMs > 0
    ensures Granted([], calls, options, key, lo, lo + options.windowMs) <= 2 * options.max
  {
    hide Granted, Next, Keeps, Ordered;
    assert KeysOf([]) + Used(calls) == Used(calls);
    NoEvictionAtAll([], calls, options, key);
    AtMostTwiceTheLimit([], calls, options, key, from, lo, lo + options.windowMs);
  }

  function Repeated(key: string, now: int, n: nat): seq<Call> { seq(n, _ => Call(key, now)) }

  /** The remaining number is exact: of further calls at the same time just that many are allowed. */
  lemma RemainingIsExact(entries: seq<Entry>, key: string, now: int, options: Options, n: nat)
    requires options.windowMs > 0
    ensures var left := Answer(entries, key, now, options).remaining;
      Granted(Next(entries, key, now, options), Repeated(key, now, n), options, key, now, now) == if n < left then n else left
  {
    LookupHere(entries, key, now, options);
    var found := Lookup(entries, key);
    assert found.Some? && !Expired(found.value, now, options) ==> now < found.value.startedAt + options.windowMs;
    GrantedNow(Next(entries, key, now, options), key, now, options, n);
  }

  lemma {:induction false} GrantedNow(entries: seq<Entry>, key: string, now: int, options: Options, n: nat)
    requires Lookup(entries, key).Some? && !Expired(Lookup(entries, key).value, now, options)
    ensures var left := Rest(Lookup(entries, key).value, options);
      Granted(entries, Repeated(key, now, n), options, key, now, now) == if n < left then n else left
    decreases n
  {
    hide Next;
    if n > 0 {
      LookupHere(entries, key, now, options);
      assert Repeated(key, now, n)[1..] == Repeated(key, now, n - 1);
      GrantedNow(Next(entries, key, now, options), key, now, options, n - 1);
    }
  }

  /** Waiting for the announced time is enough: a refused caller is allowed then, whatever others do
      meanwhile. */
  lemma WaitingIsEnough(entries: seq<Entry>, key: string, now: int, options: Options, calls: seq<Call>, later: int)
    requires options.max > 0 && !Answer(entries, key, now, options).allowed
    requires forall c <- calls :: c.key != key
    requires later >= now + 1000 * Answer(entries, key, now, options).resetSeconds
    ensures Answer(After(Next(entries, key, now, options), calls, options), key, later, options).allowed
  {
    LookupHere(entries, key, now, options);
    OthersKeepOrEvict(Next(entries, key, now, options), calls, options, key);
    SecondsCover(WindowFor(entries, key, now, options).startedAt + options.windowMs - now);
  }

  lemma {:induction false} OthersKeep(entries: seq<Entry>, calls: seq<Call>, options: Options, key: string)
    requires Keeps(entries, calls, options, key) && forall c <- calls :: c.key != key
    ensures Lookup(After(entries, calls, options), key) == Lookup(entries, key)
    decreases |calls|
  {
    hide Next, Lookup;
    if calls != [] {
      assert calls[0] in calls;
      OthersKeep(Next(entries, calls[0].key, calls[0].now, options), calls[1..], options, key);
    }
  }

  /** And no shorter time is: a refused caller that is not forgotten is still refused one second earlier. */
  lemma LessIsNotEnough(entries: seq<Entry>, key: string, now: int, options: Options, calls: seq<Call>)
    requires !Answer(entries, key, now, options).allowed && forall c <- calls :: c.key != key
    requires Keeps(Next(entries, key, now, options), calls, options, key)
    ensures var earlier := now + 1000 * (Answer(entries, key, now, options).resetSeconds - 1);
      !Answer(After(Next(entries, key, now, options), calls, options), key, earlier, options).allowed
  {
    LookupHere(entries, key, now, options);
    OthersKeep(Next(entries, key, now, options), calls, options, key);
    SecondsCover(WindowFor(entries, key, now, options).startedAt + options.windowMs - now);
    hide Next, After, Lookup;
  }

  /** The announced limit is what a key without a window is granted at once. */
  lemma LimitIsGranted(entries: seq<Entry>, key: string, now: int, options: Options, n: nat)
    requires Lookup(entries, key).None? && options.windowMs > 0
    ensures var limit := Answer(entries, key, now, options).limit;
      Granted(entries, Repeated(key, now, n), options, key, now, now) == if n < limit then n else limit
  {
    if n > 0 {
      var calls := Repeated(key, now, n);
      assert calls[0] == Call(key, now) && calls[1..] == Repeated(key, now, n - 1);
      RemainingIsExact(entries, key, now, options, n - 1);
      hide Next, Lookup;
    }
  }

  lemma SecondsCover(ms: int)
    ensures 1000 * SecondsFor(ms) >= ms && 1000 * SecondsFor(ms) < ms + 1000
  {}

  lemma {:induction false} OthersKeepOrEvict(entries: seq<Entry>, calls: seq<Call>, options: Options, key: string)
    requires forall c <- calls :: c.key != key
    ensures Lookup(After(entries, calls, options), key) in {Lookup(entries, key), None}
    decreases |calls|
  {
    if calls != [] {
      var c := calls[0];
      assert c in calls;
      LookupElsewhere(entries, c.key, c.now, options, key);
      OthersKeepOrEvict(Next(entries, c.key, c.now, options), calls[1..], options, key);
    }
  }

  // ---------------------------------------------------------------- with one key too many

  /** The table holds just these keys, in this order, all seen now in windows opened now. */
  predicate Ring(entries: seq<Entry>, keys: seq<string>, now: int) {
    |entries| == |keys| && Distinct(keys)
    && forall i :: 0 <= i < |keys| ==> entries[i].key == keys[i] && Fresh(entries[i].window, now)
  }

  predicate Fresh(window: Window, now: int) { window.startedAt == now && window.lastSeen == now }

  predicate Distinct(keys: seq<string>) { forall i, j :: 0 <= i < j < |keys| ==> keys[i] != keys[j] }

  lemma {:induction false} RemoveAbsent(entries: seq<Entry>, key: string)
    requires forall e <- entries :: e.key != key
    ensures Remove(entries, key) == entries
  {
    if entries != [] {
      RemoveAbsent(entries[1..], key);
    }
  }

  /** All were seen at the same time, so the first gives way. */
  lemma FirstGivesWay(entries: seq<Entry>, keys: seq<string>, now: int, options: Options)
    requires Ring(entries, keys, now) && keys != [] && |keys| >= options.maxKeys
    ensures RoomMade(entries, options) == entries[1..]
  {
    var o := Oldest(entries);
    assert o == 0 by {
      assert entries[0].window.lastSeen == entries[o].window.lastSeen;
    }
    RemoveAbsent(entries[1..], entries[0].key);
  }

  function Inserted(keys: seq<string>, key: string, options: Options): seq<string> {
    (if |keys| < options.maxKeys || keys == [] then keys else keys[1..]) + [key]
  }

  lemma AbsentOpens(entries: seq<Entry>, key: string, now: int, options: Options)
    requires (forall e <- entries :: e.key != key) && options.max >= 1
    ensures Next(entries, key, now, options) == Update(RoomMade(entries, options) + [Entry(key, Window(0, now, now))], key, Window(1, now, now))
    ensures Allows(entries, key, now, options) && WindowFor(entries, key, now, options) == Window(0, now, now)
  {
    assert Lookup(entries, key).None?;
    hide Lookup, Update, RoomMade, Remove;
  }

  lemma NotInRing(entries: seq<Entry>, keys: seq<string>, key: string, now: int)
    requires Ring(entries, keys, now) && key !in keys
    ensures forall e <- entries :: e.key != key
  {
    forall e | e in entries ensures e.key != key {
      var i :| 0 <= i < |entries| && entries[i] == e;
      assert keys[i] in keys;
    }
  }

  lemma NewKey(entries: seq<Entry>, keys: seq<string>, key: string, now: int, options: Options)
    requires Ring(entries, keys, now) && key !in keys && options.max >= 1
    ensures Ring(Next(entries, key, now, options), Inserted(keys, key, options), now) && Allows(entries, key, now, options)
    ensures Lookup(Next(entries, key, now, options), key) == Some(Window(1, now, now))
  {
    NotInRing(entries, keys, key, now);
    AbsentOpens(entries, key, now, options);
    LookupHere(entries, key, now, options);
    hide Next, Allows, WindowFor, Lookup, Update, Ring, RoomMade;
    if keys != [] && |keys| >= options.maxKeys {
      FirstGivesWay(entries, keys, now, options);
      RingShrinks(entries, keys, now);
      RingGrows(entries[1..], keys[1..], key, Window(1, now, now), now);
    } else {
      assert RoomMade(entries, options) == entries by { RoomIsLeft(entries, keys, now, options); }
      RingGrows(entries, keys, key, Window(1, now, now), now);
    }
  }

  lemma RoomIsLeft(entries: seq<Entry>, keys: seq<string>, now: int, options: Options)
    requires Ring(entries, keys, now) && (|keys| < options.maxKeys || keys == [])
    ensures RoomMade(entries, options) == entries
  {}

  lemma RingShrinks(entries: seq<Entry>, keys: seq<string>, now: int)
    requires Ring(entries, keys, now) && keys != []
    ensures Ring(entries[1..], keys[1..], now) && forall key: string :: key !in keys ==> key !in keys[1..]
  {}

  lemma RingGrows(kept: seq<Entry>, keys: seq<string>, key: string, window: Window, now: int)
    requires Ring(kept, keys, now) && key !in keys && Fresh(window, now)
    ensures Ring(Update(kept + [Entry(key, Window(0, now, now))], key, window), keys + [key], now)
  {
    var before := kept + [Entry(key, Window(0, now, now))];
    var next := Update(before, key, window);
    forall i | 0 <= i < |keys + [key]| ensures next[i].key == (keys + [key])[i] && Fresh(next[i].window, now) {
      if i < |keys| { assert before[i] == kept[i] && keys[i] in keys; }
    }
    forall i, j | 0 <= i < j < |keys + [key]| ensures (keys + [key])[i] != (keys + [key])[j] {
      assert (keys + [key])[i] == keys[i] && keys[i] in keys;
    }
  }

  lemma {:induction false} RingLookup(entries: seq<Entry>, keys: seq<string>, key: string, now: int)
    requires Ring(entries, keys, now) && key in keys
    ensures Lookup(entries, key).Some? && Fresh(Lookup(entries, key).value, now)
  {
    if entries[0].key != key {
      assert key in keys[1..];
      RingLookup(entries[1..], keys[1..], key, now);
    }
  }

  lemma KnownKey(entries: seq<Entry>, keys: seq<string>, key: string, now: int, options: Options)
    requires Ring(entries, keys, now) && key in keys && options.windowMs > 0
    ensures Ring(Next(entries, key, now, options), keys, now)
  {
    RingLookup(entries, keys, key, now);
  }

  lemma {:induction false} KnownKeyRepeated(entries: seq<Entry>, keys: seq<string>, key: string, now: int, options: Options, n: nat)
    requires Ring(entries, keys, now) && key in keys && options.windowMs > 0
    ensures Ring(After(entries, Repeated(key, now, n), options), keys, now)
    decreases n
  {
    hide Next, Ring;
    if n > 0 {
      KnownKey(entries, keys, key, now, options);
      assert Repeated(key, now, n)[1..] == Repeated(key, now, n - 1);
      KnownKeyRepeated(Next(entries, key, now, options), keys, key, now, options, n - 1);
    }
  }

  /** A key that is not there gets its whole limit, and pushes the first key out if there is no room. */
  lemma WholeLimit(entries: seq<Entry>, keys: seq<string>, key: string, now: int, options: Options)
    requires Ring(entries, keys, now) && key !in keys && options.max >= 1 && options.windowMs > 0
    ensures Granted(entries, Repeated(key, now, options.max), options, key, now, now) == options.max
    ensures Ring(After(entries, Repeated(key, now, options.max), options), Inserted(keys, key, options), now)
  {
    hide Next, Ring;
    var calls, next := Repeated(key, now, options.max), Next(entries, key, now, options);
    assert calls[1..] == Repeated(key, now, options.max - 1) && calls[0] == Call(key, now);
    NewKey(entries, keys, key, now, options);
    GrantedNow(next, key, now, options, options.max - 1);
    KnownKeyRepeated(next, Inserted(keys, key, options), key, now, options, options.max - 1);
  }

  lemma {:induction false} GrantedMore(entries: seq<Entry>, a: seq<Call>, b: seq<Call>, options: Options, key: string, lo: int, hi: int)
    ensures Granted(entries, a + b, options, key, lo, hi)
      == Granted(entries, a, options, key, lo, hi) + Granted(After(entries, a, options), b, options, key, lo, hi)
    ensures After(entries, a + b, options) == After(After(entries, a, options), b, options)
    decreases |a|
  {
    hide Next;
    if a == [] {
      assert a + b == b;
    } else {
      assert (a + b)[1..] == a[1..] + b;
      GrantedMore(Next(entries, a[0].key, a[0].now, options), a[1..], b, options, key, lo, hi);
    }
  }

  /** One call of each. */
  function Once(names: seq<string>, now: int): seq<Call> { seq(|names|, i requires 0 <= i < |names| => Call(names[i], now)) }

  /** The table before name `j` is called, in the first round and in a later one. */
  function KeysAt(names: seq<string>, first: bool, j: nat): seq<string>
    requires names != [] && j <= |names|
  {
    if j == |names| then names[1..] else if first then names[..j] else names[j + 1..] + names[..j]
  }

  lemma NextIsOut(names: seq<string>, first: bool, j: nat)
    requires Distinct(names) && j < |names|
    ensures names[j] !in KeysAt(names, first, j)
  {
    var keys, after := KeysAt(names, first, j), |names| - (j + 1);
    forall k | 0 <= k < |keys| ensures keys[k] != names[j] {
      if first { assert keys[k] == names[k]; }
      else if k < after { assert keys[k] == names[j + 1 + k]; }
      else { assert keys[k] == names[k - after]; }
    }
  }

  lemma LastOfRound(names: seq<string>, first: bool)
    requires |names| >= 2
    ensures var j := |names| - 1; KeysAt(names, first, j)[1..] + [names[j]] == names[1..]
  {
    var j := |names| - 1;
    assert names[j + 1..] == [] && [] + names[..j] == names[..j];
    assert names[..j][1..] == names[1..j] && names[1..j] + [names[j]] == names[1..];
  }

  lemma NextOfRound(names: seq<string>, first: bool, j: nat)
    requires j + 1 < |names|
    ensures var keys := KeysAt(names, first, j); (if first then keys else keys[1..]) + [names[j]] == KeysAt(names, first, j + 1)
  {
    assert names[..j] + [names[j]] == names[..j + 1];
    if !first {
      assert KeysAt(names, first, j)[1..] == names[j + 2..] + names[..j];
      assert names[j + 2..] + names[..j] + [names[j]] == names[j + 2..] + names[..j + 1];
    }
  }

  lemma NextInRing(names: seq<string>, first: bool, j: nat, options: Options)
    requires Distinct(names) && |names| == Capacity(options) + 1 && j < |names|
    ensures names[j] !in KeysAt(names, first, j)
    ensures Inserted(KeysAt(names, first, j), names[j], options) == KeysAt(names, first, j + 1)
  {
    var keys := KeysAt(names, first, j);
    assert |keys| == if first then j else |names| - 1;
    NextIsOut(names, first, j);
    if j == |names| - 1 {
      assert KeysAt(names, first, j + 1) == names[1..];
      LastOfRound(names, first);
      hide KeysAt, Distinct;
    } else {
      NextOfRound(names, first, j);
      hide KeysAt, Distinct;
    }
  }

  lemma {:induction false} RestOfRound(entries: seq<Entry>, names: seq<string>, first: bool, j: nat, now: int, options: Options)
    requires Distinct(names) && |names| == Capacity(options) + 1 && j <= |names| && options.max >= 1
    requires Ring(entries, KeysAt(names, first, j), now)
    ensures Ring(After(entries, Once(names[j..], now), options), names[1..], now)
    decreases |names| - j
  {
    hide Next, Ring, Distinct, Inserted;
    if j == |names| {
      assert Once(names[j..], now) == [];
    } else {
      NextInRing(names, first, j, options);
      NewKey(entries, KeysAt(names, first, j), names[j], now, options);
      hide KeysAt;
      var calls := Once(names[j..], now);
      assert calls[0] == Call(names[j], now) && calls[1..] == Once(names[j + 1..], now);
      RestOfRound(Next(entries, names[j], now, options), names, first, j + 1, now, options);
    }
  }

  /** The first name uses up its limit, and every other one is called once. */
  function Round(names: seq<string>, now: int, options: Options): seq<Call>
    requires names != []
  {
    Repeated(names[0], now, options.max) + Once(names[1..], now)
  }

  lemma OneRound(entries: seq<Entry>, names: seq<string>, first: bool, now: int, options: Options)
    requires Distinct(names) && |names| == Capacity(options) + 1 && options.max >= 1 && options.windowMs > 0
    requires Ring(entries, KeysAt(names, first, 0), now)
    ensures Granted(entries, Round(names, now, options), options, names[0], now, now) >= options.max
    ensures Ring(After(entries, Round(names, now, options), options), names[1..], now)
  {
    hide Next, Ring, Distinct, Inserted, KeysAt;
    var key := names[0];
    NextInRing(names, first, 0, options);
    WholeLimit(entries, KeysAt(names, first, 0), key, now, options);
    RestOfRound(After(entries, Repeated(key, now, options.max), options), names, first, 1, now, options);
    GrantedMore(entries, Repeated(key, now, options.max), Once(names[1..], now), options, key, now, now);
  }

  lemma RingStarts(names: seq<string>, now: int)
    requires |names| >= 2 && Distinct(names)
    ensures Ring([], KeysAt(names, true, 0), now) && KeysAt(names, false, 0) == names[1..]
  {
    assert names[1..] + names[..0] == names[1..];
  }

  /** Three rounds of one key more than there is room for, all at one instant. */
  function ThreeRounds(names: seq<string>, now: int, options: Options): seq<Call>
    requires names != []
  {
    Round(names, now, options) + (Round(names, now, options) + Round(names, now, options))
  }

  lemma EvictionForgets(names: seq<string>, now: int, options: Options)
    requires Distinct(names) && |names| == Capacity(options) + 1 && options.max >= 1 && options.windowMs > 0
    ensures Granted([], ThreeRounds(names, now, options), options, names[0], now, now) >= 3 * options.max
  {
    hide Next, Ring, Distinct, Inserted, KeysAt, Round;
    var round := Round(names, now, options);
    RingStarts(names, now);
    OneRound([], names, true, now, options);
    var one := After([], round, options);
    OneRound(one, names, false, now, options);
    var two := After(one, round, options);
    OneRound(two, names, false, now, options);
    GrantedMore([], round, round + round, options, names[0], now, now);
    GrantedMore(one, round, round, options, names[0], now, now);
  }

  predicate AllAt(calls: seq<Call>, now: int) { forall c <- calls :: c.now == now }

  lemma RoundsAreOfNames(names: seq<string>, now: int, options: Options)
    requires names != []
    ensures AllAt(ThreeRounds(names, now, options), now) && forall c <- ThreeRounds(names, now, options) :: c.key in names
  {
    var round := Round(names, now, options);
    forall c | c in round ensures c.now == now && c.key in names {
      if c in Once(names[1..], now) {
        var i :| 0 <= i < |names[1..]| && c == Call(names[1..][i], now);
        assert names[1..][i] in names;
      }
    }
    assert forall c :: c in ThreeRounds(names, now, options) ==> c in round;
  }

  lemma {:induction false} AtOneInstant(entries: seq<Entry>, calls: seq<Call>, options: Options, key: string, now: int, hi: int)
    requires AllAt(calls, now) && now <= hi
    ensures Ordered(calls, now) && Granted(entries, calls, options, key, now, hi) == Granted(entries, calls, options, key, now, now)
    decreases |calls|
  {
    hide Next;
    if calls != [] {
      assert calls[0] in calls;
      AtOneInstant(Next(entries, calls[0].key, calls[0].now, options), calls[1..], options, key, now, hi);
    }
  }

  lemma {:induction false} PickNames(keys: set<string>, n: nat) returns (names: seq<string>)
    requires n <= |keys|
    ensures |names| == n && Distinct(names) && forall name <- names :: name in keys
    decreases n
  {
    if n == 0 {
      names := [];
    } else {
      var key :| key in keys;
      var rest := PickNames(keys - {key}, n - 1);
      names := [key] + rest;
      forall i, j | 0 <= i < j < |names| ensures names[i] != names[j] {
        assert rest[j - 1] in keys - {key};
      }
    }
  }

  predicate TwiceAtMost(calls: seq<Call>, options: Options, key: string, lo: int) {
    Granted([], calls, options, key, lo, lo + options.windowMs) <= 2 * options.max
  }

  /** What the limiter promises the callers of a set of keys. */
  ghost predicate Limits(keys: set<string>, options: Options) {
    forall calls: seq<Call>, key: string, from: int, lo: int ::
      Ordered(calls, from) && Used(calls) <= keys ==> TwiceAtMost(calls, options, key, lo)
  }

  lemma TooManyKeysBreakIt(keys: set<string>, options: Options)
    requires options.max >= 1 && options.windowMs > 0 && |keys| > Capacity(options)
    ensures !Limits(keys, options)
  {
    var names := PickNames(keys, Capacity(options) + 1);
    var calls := ThreeRounds(names, 0, options);
    EvictionForgets(names, 0, options);
    RoundsAreOfNames(names, 0, options);
    hide ThreeRounds, Distinct;
    AtOneInstant([], calls, options, names[0], 0, options.windowMs);
    assert Used(calls) <= keys;
    assert Ordered(calls, 0) && !TwiceAtMost(calls, options, names[0], 0);
  }

  /** The bound is kept for the callers of a set of keys if and only if the table has room for all of them. */
  lemma LimitsIff(keys: set<string>, options: Options)
    requires options.max >= 1 && options.windowMs > 0
    ensures Limits(keys, options) <==> |keys| <= Capacity(options)
  {
    if |keys| <= Capacity(options) {
      forall calls: seq<Call>, key: string, from: int, lo: int | Ordered(calls, from) && Used(calls) <= keys
        ensures TwiceAtMost(calls, options, key, lo)
      {
        SubsetIsSmaller(Used(calls), keys);
        LimiterBound(calls, options, key, from, lo);
      }
    } else {
      TooManyKeysBreakIt(keys, options);
    }
  }
}
