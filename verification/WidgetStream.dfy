/** The direct chat widget's reader: it rewrites CRLF in its buffer after every read and cuts the
    buffer at blank lines. */
module WidgetStream {
  import opened Wrappers

  const MAX_FRAME := 65_536

  /** `replaceAll('\r\n', '\n')` */
  function Normalised(s: string): string {
    if s == "" then ""
    else if |s| >= 2 && s[0] == '\r' && s[1] == '\n' then ['\n'] + Normalised(s[2..])
    else [s[0]] + Normalised(s[1..])
  }

  predicate BlankLineAt(s: string, k: nat) { k + 1 < |s| && s[k] == '\n' && s[k + 1] == '\n' }

  /** The first index of a blank line's two line feeds, or -1. */
  function Boundary(s: string): (i: int)
    ensures i == -1 || (0 <= i && BlankLineAt(s, i))
    ensures forall k: nat :: k < (if i < 0 then |s| else i) ==> !BlankLineAt(s, k)
  {
    if |s| < 2 then -1
    else if s[0] == '\n' && s[1] == '\n' then 0
    else
      var rest := Boundary(s[1..]);
      assert forall k: nat :: 0 < k && BlankLineAt(s, k) ==> BlankLineAt(s[1..], k - 1);
      if rest < 0 then -1 else assert BlankLineAt(s[1..], rest); rest + 1
  }

  function Frames(s: string): seq<string>
    decreases |s|
  {
    var i := Boundary(s);
    if i < 0 then [] else [s[..i]] + Frames(s[i + 2..])
  }

  function Rest(s: string): string
    decreases |s|
  {
    var i := Boundary(s);
    if i < 0 then s else Rest(s[i + 2..])
  }

  /** The part of `s` that its frames were cut from. */
  function Cut(s: string): string
    decreases |s|
  {
    var i := Boundary(s);
    if i < 0 then "" else s[..i + 2] + Cut(s[i + 2..])
  }

  lemma BoundaryIs(s: string, i: nat)
    requires BlankLineAt(s, i) && forall k: nat :: k < i ==> !BlankLineAt(s, k)
    ensures Boundary(s) == i
  {}

  lemma {:induction false} CutAndRest(s: string)
    ensures Cut(s) + Rest(s) == s
    decreases |s|
  {
    var i := Boundary(s);
    if i >= 0 {
      CutAndRest(s[i + 2..]);
      assert s == s[..i + 2] + s[i + 2..];
    }
  }

  /** Only what is left over matters for what comes next. */
  lemma {:induction false} FramesExtend(a: string, b: string)
    ensures Frames(a + b) == Frames(a) + Frames(Rest(a) + b) && Rest(a + b) == Rest(Rest(a) + b)
    decreases |a|
  {
    var i := Boundary(a);
    if i >= 0 {
      assert BlankLineAt(a, i);
      forall k: nat | k < i ensures !BlankLineAt(a + b, k) {
        assert BlankLineAt(a + b, k) ==> BlankLineAt(a, k);
      }
      BoundaryIs(a + b, i);
      assert (a + b)[..i] == a[..i] && (a + b)[i + 2..] == a[i + 2..] + b;
      FramesExtend(a[i + 2..], b);
    } else {
      assert [] + Frames(a + b) == Frames(a + b);
    }
  }

  // ---------------------------------------------------------------- rewriting line ends

  predicate CrLfAt(s: string, k: nat) { k + 1 < |s| && s[k] == '\r' && s[k + 1] == '\n' }

  predicate NoCrLf(s: string) { forall k: nat :: k < |s| ==> !CrLfAt(s, k) }

  predicate CrCrLfAt(s: string, k: nat) { k + 2 < |s| && s[k] == '\r' && s[k + 1] == '\r' && s[k + 2] == '\n' }

  /** Never two carriage returns before a line feed. */
  predicate NoCrCrLf(s: string) { forall k: nat :: k < |s| ==> !CrCrLfAt(s, k) }

  lemma StillNone(s: string, n: nat)
    requires n <= |s|
    ensures NoCrCrLf(s) ==> NoCrCrLf(s[n..])
    ensures NoCrLf(s) ==> NoCrLf(s[n..])
  {
    forall k: nat | k < |s[n..]| ensures CrCrLfAt(s[n..], k) ==> CrCrLfAt(s, k + n) {}
    forall k: nat | k < |s[n..]| ensures CrLfAt(s[n..], k) ==> CrLfAt(s, k + n) {}
  }

  function Head(s: string): string
    requires s != ""
  {
    if CrLfAt(s, 0) then "\n" else [s[0]]
  }

  function HeadLength(s: string): nat { if CrLfAt(s, 0) then 2 else 1 }

  lemma NormalisedStep(s: string)
    requires s != ""
    ensures HeadLength(s) <= |s| && Normalised(s) == Head(s) + Normalised(s[HeadLength(s)..])
  {}

  lemma {:induction false} NormalisedHasNoCrLf(s: string)
    requires NoCrCrLf(s)
    ensures NoCrLf(Normalised(s))
  {
    if s != "" {
      var n := HeadLength(s);
      NormalisedStep(s);
      StillNone(s, n);
      NormalisedHasNoCrLf(s[n..]);
      var rest := Normalised(s[n..]);
      FirstOfNormalised(s);
      forall k: nat | k < |Normalised(s)| ensures !CrLfAt(Normalised(s), k) {
        assert k > 0 ==> (CrLfAt(Normalised(s), k) <==> CrLfAt(rest, k - 1));
      }
    }
  }

  /** A carriage return that stays is not followed by a line feed. */
  lemma FirstOfNormalised(s: string)
    requires NoCrCrLf(s) && s != ""
    ensures !CrLfAt(Normalised(s), 0)
  {
    NormalisedStep(s);
    assert !CrCrLfAt(s, 0);
    if !CrLfAt(s, 0) && |s| > 1 {
      NormalisedStep(s[1..]);
    }
  }

  lemma NormalisedCons(c: char, s: string)
    requires !CrLfAt([c] + s, 0)
    ensures Normalised([c] + s) == [c] + Normalised(s)
  {
    assert ([c] + s)[1..] == s;
  }

  lemma StepOfMore(a: string, b: string)
    requires |a| >= 2
    ensures Normalised(a + b) == Head(a) + Normalised(a[HeadLength(a)..] + b)
  {
    NormalisedStep(a + b);
    assert CrLfAt(a + b, 0) <==> CrLfAt(a, 0);
    assert (a + b)[HeadLength(a)..] == a[HeadLength(a)..] + b;
  }

  lemma StepOfRewritten(a: string, b: string)
    requires NoCrCrLf(a) && |a| >= 2
    ensures Normalised(Normalised(a) + b) == Head(a) + Normalised(Normalised(a[HeadLength(a)..]) + b)
  {
    NormalisedStep(a);
    KeptHead(a, b);
    hide Normalised, NoCrCrLf;
    var head, rest := Head(a)[0], Normalised(a[HeadLength(a)..]) + b;
    assert Normalised(a) + b == [head] + rest;
    NormalisedCons(head, rest);
  }

  /** Rewriting what is already rewritten, together with more, is rewriting it all. */
  lemma {:induction false} NormalisedAgain(a: string, b: string)
    requires NoCrCrLf(a)
    ensures Normalised(a + b) == Normalised(Normalised(a) + b)
    decreases |a|
  {
    if a == "" {
      assert a + b == b && Normalised(a) + b == b;
    } else if |a| == 1 {
      assert Normalised(a) == a;
    } else {
      hide Normalised, NoCrCrLf;
      StillNone(a, HeadLength(a));
      NormalisedAgain(a[HeadLength(a)..], b);
      StepOfMore(a, b);
      StepOfRewritten(a, b);
    }
  }

  lemma KeptHead(a: string, b: string)
    requires NoCrCrLf(a) && |a| >= 2
    ensures !CrLfAt(Normalised(a) + b, 0)
  {
    FirstOfNormalised(a);
    NormalisedStep(a);
    if !CrLfAt(a, 0) {
      NormalisedStep(a[1..]);
    }
  }

  lemma NormalisedSplits(a: string, b: string)
    requires NoCrLf(a) && !EndsInReturn(a)
    ensures Normalised(a + b) == a + Normalised(b)
  {
    Unchanged(a);
    RewrittenApart(a, b);
  }

  lemma {:induction false} CutEndsInLineFeed(s: string)
    requires Cut(s) != ""
    ensures Cut(s)[|Cut(s)| - 1] == '\n'
    decreases |s|
  {
    var i := Boundary(s);
    if Cut(s[i + 2..]) != "" {
      CutEndsInLineFeed(s[i + 2..]);
    }
  }

  /** One read: what was rewritten and cut before need not be kept. */
  lemma ReadStep(past: string, chunk: string)
    requires NoCrCrLf(past)
    ensures var buffer := Normalised(Rest(Normalised(past)) + chunk);
      Frames(Normalised(past + chunk)) == Frames(Normalised(past)) + Frames(buffer) && Rest(Normalised(past + chunk)) == Rest(buffer)
  {
    var n := Normalised(past);
    var cut, rest := Cut(n), Rest(n);
    NormalisedAgain(past, chunk);
    CutAndRest(n);
    assert n + chunk == cut + (rest + chunk);
    NormalisedHasNoCrLf(past);
    CutHasNoCrLf(n);
    if cut != "" {
      CutEndsInLineFeed(n);
    }
    NormalisedSplits(cut, rest + chunk);
    CutFrames(n);
    FramesExtend(cut, Normalised(rest + chunk));
    assert "" + Normalised(rest + chunk) == Normalised(rest + chunk);
  }

  lemma CutHasNoCrLf(s: string)
    requires NoCrLf(s)
    ensures NoCrLf(Cut(s))
  {
    CutAndRest(s);
    forall k: nat | k < |Cut(s)| ensures CrLfAt(Cut(s), k) ==> CrLfAt(s, k) {}
  }

  lemma {:induction false} CutFrames(s: string)
    ensures Frames(Cut(s)) == Frames(s) && Rest(Cut(s)) == ""
    decreases |s|
  {
    var i := Boundary(s);
    if i >= 0 {
      CutFrames(s[i + 2..]);
      var cut := Cut(s);
      assert cut[..i] == s[..i] && cut[i + 2..] == Cut(s[i + 2..]);
      assert BlankLineAt(cut, i);
      forall k: nat | k < i ensures !BlankLineAt(cut, k) {
        assert BlankLineAt(cut, k) ==> BlankLineAt(s, k);
      }
      BoundaryIs(cut, i);
    }
  }

  // ---------------------------------------------------------------- the reader

  function Text(chunks: seq<string>): string
    decreases |chunks|
  {
    if chunks == [] then "" else Text(chunks[..|chunks| - 1]) + chunks[|chunks| - 1]
  }

  /** `frame.trim() === ''`, for the white space of ASCII. */
  predicate IsBlank(frame: string) { forall c <- frame :: c in {' ', '\t', '\n', '\r', '\U{000B}', '\U{000C}'} }

  function Spoken(frames: seq<string>): seq<string> {
    if frames == [] then [] else (if IsBlank(frames[0]) then [] else [frames[0]]) + Spoken(frames[1..])
  }

  lemma {:induction false} SpokenMore(a: seq<string>, b: seq<string>)
    ensures Spoken(a + b) == Spoken(a) + Spoken(b)
  {
    if a == [] {
      assert a + b == b;
    } else {
      assert (a + b)[1..] == a[1..] + b;
      SpokenMore(a[1..], b);
    }
  }

  /** Handed over are exactly the frames with a character that is not white space. */
  lemma {:induction false} SpokenExactly(frames: seq<string>, frame: string)
    ensures frame in Spoken(frames) <==>
      frame in frames && exists c <- frame :: c != ' ' && c != '\t' && c != '\n' && c != '\r' && c != '\U{000B}' && c != '\U{000C}'
  {
    if frames != [] {
      SpokenExactly(frames[1..], frame);
    }
  }

  lemma PrefixHasNone(chunks: seq<string>, k: nat)
    requires k <= |chunks| && NoCrCrLf(Text(chunks))
    ensures NoCrCrLf(Text(chunks[..k]))
    decreases |chunks| - k
  {
    if k < |chunks| {
      PrefixHasNone(chunks, k + 1);
      var shorter, longer := Text(chunks[..k]), Text(chunks[..k + 1]);
      assert chunks[..k + 1][..k] == chunks[..k];
      assert longer == shorter + chunks[k];
      forall j: nat | j < |shorter| ensures CrCrLfAt(shorter, j) ==> CrCrLfAt(longer, j) {}
    } else {
      assert chunks[..k] == chunks;
    }
  }

  datatype Error = FrameTooLarge | InvalidStream

  /** What the reads cut and leave over, sizes aside. */
  function FramesRead(chunks: seq<string>): (seq<string>, string)
    decreases |chunks|
  {
    if chunks == [] then ([], "")
    else
      var (frames, buffer) := FramesRead(chunks[..|chunks| - 1]);
      var whole := Normalised(buffer + chunks[|chunks| - 1]);
      (frames + Frames(whole), Rest(whole))
  }

  /** The buffer that read `k` starts to cut. */
  function Buffered(chunks: seq<string>, k: nat): string
    requires k < |chunks|
  {
    Normalised(FramesRead(chunks[..k]).1 + chunks[k])
  }

  predicate TooLong(s: string) { |s| > MAX_FRAME }

  /** Read `k` meets a frame over the limit or leaves more than the limit in the buffer. */
  predicate Overflows(chunks: seq<string>, k: nat)
    requires k < |chunks|
  {
    (exists f <- Frames(Buffered(chunks, k)) :: TooLong(f)) || TooLong(Rest(Buffered(chunks, k)))
  }

  predicate Accepted(chunks: seq<string>) { forall k :: 0 <= k < |chunks| ==> !Overflows(chunks, k) }

  /** The frames before the first that is too long. */
  function Fitting(frames: seq<string>): seq<string> {
    if frames == [] || TooLong(frames[0]) then [] else [frames[0]] + Fitting(frames[1..])
  }

  /** What is handed over: all that earlier reads cut, and of the read that fails what came before. */
  function Delivered(chunks: seq<string>): seq<string>
    decreases |chunks|
  {
    if chunks == [] then []
    else
      var past := chunks[..|chunks| - 1];
      if Accepted(past) then FramesRead(past).0 + Fitting(Frames(Buffered(chunks, |chunks| - 1))) else Delivered(past)
  }

  lemma {:induction false} AllFit(frames: seq<string>)
    requires forall f <- frames :: !TooLong(f)
    ensures Fitting(frames) == frames
  {
    if frames != [] {
      assert frames[0] in frames;
      AllFit(frames[1..]);
    }
  }

  lemma SamePast(chunks: seq<string>, n: nat, k: nat)
    requires k < n <= |chunks|
    ensures Overflows(chunks[..n], k) == Overflows(chunks, k) && Buffered(chunks[..n], k) == Buffered(chunks, k)
  {
    assert chunks[..n][..k] == chunks[..k];
  }

  lemma AcceptedMore(chunks: seq<string>, n: nat)
    requires n < |chunks|
    ensures Accepted(chunks[..n + 1]) <==> Accepted(chunks[..n]) && !Overflows(chunks, n)
  {
    hide Overflows;
    var past, more := chunks[..n], chunks[..n + 1];
    SamePast(chunks, n + 1, n);
    forall k: nat | k < n ensures Overflows(more, k) == Overflows(past, k) {
      SamePast(chunks, n + 1, k);
      SamePast(chunks, n, k);
    }
    if Accepted(past) && !Overflows(more, n) {
      forall k: nat | k < |more| ensures !Overflows(more, k) {
        if k < n { assert !Overflows(past, k); }
      }
    }
  }

  lemma {:induction false} RefusedStays(chunks: seq<string>, n: nat)
    requires n <= |chunks| && !Accepted(chunks[..n])
    ensures !Accepted(chunks) && Delivered(chunks) == Delivered(chunks[..n])
    decreases |chunks|
  {
    hide Overflows;
    if n == |chunks| {
      assert chunks[..n] == chunks;
    } else {
      var past := chunks[..|chunks| - 1];
      assert past[..n] == chunks[..n];
      RefusedStays(past, n);
      AcceptedMore(chunks, |chunks| - 1);
      assert chunks[..|chunks|] == chunks;
    }
  }

  lemma {:induction false} DeliversAll(chunks: seq<string>)
    requires Accepted(chunks)
    ensures Delivered(chunks) == FramesRead(chunks).0
  {
    if chunks != [] {
      var n := |chunks| - 1;
      assert chunks[..n + 1] == chunks;
      AcceptedMore(chunks, n);
      AllFit(Frames(Buffered(chunks, n)));
    }
  }

  function Kept(frame: string): seq<string> { if IsBlank(frame) then [] else [frame] }

  /** What cutting the buffer gives, all at once. */
  predicate Drains(buffer: string, frames: seq<string>, left: string, tooLarge: bool) {
    && frames == Spoken(Fitting(Frames(buffer)))
    && (tooLarge <==> exists f <- Frames(buffer) :: TooLong(f))
    && (!tooLarge ==> left == Rest(buffer))
  }

  lemma DrainsNothing(buffer: string)
    requires Boundary(buffer) < 0
    ensures Drains(buffer, [], buffer, false)
  {}

  lemma DrainsTooLarge(buffer: string, left: string)
    requires Boundary(buffer) >= 0 && TooLong(buffer[..Boundary(buffer)])
    ensures Drains(buffer, [], left, true)
  {
    assert Frames(buffer)[0] == buffer[..Boundary(buffer)];
  }

  lemma DrainsOne(buffer: string, frames: seq<string>, left: string, tooLarge: bool)
    requires Boundary(buffer) >= 0 && !TooLong(buffer[..Boundary(buffer)])
    requires Drains(buffer[Boundary(buffer) + 2..], frames, left, tooLarge)
    ensures Drains(buffer, Kept(buffer[..Boundary(buffer)]) + frames, left, tooLarge)
  {
    hide IsBlank;
    var frame, rest := buffer[..Boundary(buffer)], Frames(buffer[Boundary(buffer) + 2..]);
    assert Frames(buffer) == [frame] + rest && Frames(buffer)[1..] == rest;
    assert Fitting([frame] + rest) == [frame] + Fitting(rest);
    SpokenHead(frame, Fitting(rest));
    assert forall f :: f in [frame] + rest <==> f == frame || f in rest;
  }

  lemma SpokenHead(frame: string, rest: seq<string>)
    ensures Spoken([frame] + rest) == Kept(frame) + Spoken(rest)
  {
    assert ([frame] + rest)[1..] == rest;
  }

  /** What is still to be cut, after `frames`, is what is left to do. */
  ghost predicate Remains(whole: string, frames: seq<string>, buffer: string) {
    forall more: seq<string>, left: string, tooLarge: bool ::
      Drains(buffer, more, left, tooLarge) ==> Drains(whole, frames + more, left, tooLarge)
  }

  lemma RemainsOne(whole: string, frames: seq<string>, buffer: string)
    requires Remains(whole, frames, buffer) && Boundary(buffer) >= 0 && !TooLong(buffer[..Boundary(buffer)])
    ensures Remains(whole, frames + Kept(buffer[..Boundary(buffer)]), buffer[Boundary(buffer) + 2..])
  {
    hide Drains, Kept;
    var frame, rest := buffer[..Boundary(buffer)], buffer[Boundary(buffer) + 2..];
    forall more: seq<string>, left: string, tooLarge: bool | Drains(rest, more, left, tooLarge)
      ensures Drains(whole, frames + Kept(frame) + more, left, tooLarge)
    {
      DrainsOne(buffer, more, left, tooLarge);
      assert frames + (Kept(frame) + more) == frames + Kept(frame) + more;
    }
  }

  /** Cuts the frames out of what one read left in the buffer. */
  method Drain(whole: string) returns (frames: seq<string>, buffer: string, tooLarge: bool)
    ensures Drains(whole, frames, buffer, tooLarge)
  {
    hide Drains, IsBlank;
    frames, buffer, tooLarge := [], whole, false;
    var boundary := Boundary(buffer);
    assert Remains(whole, [], whole) by {
      assert forall more: seq<string> :: [] + more == more;
    }
    while boundary >= 0
      invariant boundary == Boundary(buffer) && Remains(whole, frames, buffer)
      decreases |buffer|
    {
      var frame := buffer[..boundary];
      ghost var before := buffer;
      buffer := buffer[boundary + 2..];
      if |frame| > MAX_FRAME {
        DrainsTooLarge(before, buffer);
        assert frames + [] == frames;
        return frames, buffer, true;
      }
      RemainsOne(whole, frames, before);
      assert frames + Kept(frame) == if IsBlank(frame) then frames else frames + [frame];
      if !IsBlank(frame) {
        frames := frames + [frame];
      }
      boundary := Boundary(buffer);
    }
    DrainsNothing(buffer);
    assert frames + [] == frames;
  }

  lemma ReadMore(chunks: seq<string>, k: nat)
    requires k < |chunks|
    ensures var whole := Buffered(chunks, k);
      && FramesRead(chunks[..k + 1]) == (FramesRead(chunks[..k]).0 + Frames(whole), Rest(whole))
      && (Accepted(chunks[..k]) ==> Delivered(chunks[..k + 1]) == FramesRead(chunks[..k]).0 + Fitting(Frames(whole)))
  {
    assert chunks[..k + 1][..k] == chunks[..k];
    SamePast(chunks, k + 1, k);
  }

  lemma ReadDrained(chunks: seq<string>, k: nat, frames: seq<string>, left: string, tooLarge: bool)
    requires k < |chunks| && Accepted(chunks[..k]) && Drains(Buffered(chunks, k), frames, left, tooLarge)
    ensures Spoken(Delivered(chunks[..k + 1])) == Spoken(Delivered(chunks[..k])) + frames
    ensures Accepted(chunks[..k + 1]) <==> !tooLarge && !TooLong(left)
    ensures !tooLarge ==> left == FramesRead(chunks[..k + 1]).1
  {
    hide Delivered, FramesRead, Frames, Rest, Buffered;
    ReadMore(chunks, k);
    AcceptedMore(chunks, k);
    DeliversAll(chunks[..k]);
    SpokenMore(Delivered(chunks[..k]), Fitting(Frames(Buffered(chunks, k))));
  }

  /** The reader fails for size exactly when some read overflows, and otherwise for an unfinished frame
      exactly when what is left over is not blank; either way it has handed over the non-blank frames
      that were cut before. The last read is the decoder's flush. */
  method ReadEventStream(chunks: seq<string>) returns (frames: seq<string>, error: Option<Error>)
    ensures error == Some(FrameTooLarge) <==> !Accepted(chunks)
    ensures error == Some(InvalidStream) <==> Accepted(chunks) && !IsBlank(FramesRead(chunks).1)
    ensures frames == Spoken(if Accepted(chunks) then FramesRead(chunks).0 else Delivered(chunks))
  {
    hide IsBlank, Spoken, Delivered, Accepted, Drains, Normalised;
    frames := [];
    var buffer := "";
    assert Accepted([]) && Spoken(Delivered([])) == [] by { NothingRead(); }
    for k := 0 to |chunks|
      invariant Accepted(chunks[..k]) && frames == Spoken(Delivered(chunks[..k])) && buffer == FramesRead(chunks[..k]).1
    {
      buffer := Normalised(buffer + chunks[k]);
      var more, left, tooLarge := Drain(buffer);
      ReadDrained(chunks, k, more, left, tooLarge);
      frames, buffer := frames + more, left;
      if tooLarge || |buffer| > MAX_FRAME {
        RefusedStays(chunks, k + 1);
        return frames, Some(FrameTooLarge);
      }
    }
    assert chunks[..|chunks|] == chunks;
    DeliversAll(chunks);
    return frames, if IsBlank(buffer) then None else Some(InvalidStream);
  }

  lemma NothingRead()
    ensures Accepted([]) && Spoken(Delivered([])) == []
  {}

  // ---------------------------------------------------------------- which texts are read the same in every way

  /** Never two carriage returns before a line feed: then all reads together cut what the whole text gives. */
  lemma {:induction false} WholeTextIsRead(chunks: seq<string>)
    requires NoCrCrLf(Text(chunks))
    ensures FramesRead(chunks) == (Frames(Normalised(Text(chunks))), Rest(Normalised(Text(chunks))))
    decreases |chunks|
  {
    if chunks != [] {
      var n := |chunks| - 1;
      PrefixHasNone(chunks, n);
      WholeTextIsRead(chunks[..n]);
      hide Frames, Rest, Normalised;
      ReadStep(Text(chunks[..n]), chunks[n]);
    }
  }

  predicate EndsInReturn(s: string) { s != "" && s[|s| - 1] == '\r' }

  /** Two parts are rewritten apart, unless a CRLF is torn between them. */
  lemma {:induction false} RewrittenApart(a: string, b: string)
    requires !EndsInReturn(a) || b == "" || b[0] != '\n'
    ensures Normalised(a + b) == Normalised(a) + Normalised(b)
    decreases |a|
  {
    if a == "" {
      assert a + b == b;
    } else if |a| == 1 {
      assert a == [a[0]];
      NormalisedCons(a[0], b);
      assert a[1..] == "";
    } else {
      hide Normalised, Head;
      var rest := a[HeadLength(a)..];
      assert EndsInReturn(rest) ==> EndsInReturn(a);
      StepOfMore(a, b);
      NormalisedStep(a);
      RewrittenApart(rest, b);
    }
  }

  lemma {:induction false} RewritingShortens(s: string)
    ensures |Normalised(s)| <= |s|
    ensures !NoCrLf(s) ==> |Normalised(s)| < |s|
    decreases |s|
  {
    if s != "" {
      var n := HeadLength(s);
      NormalisedStep(s);
      RewritingShortens(s[n..]);
      if !CrLfAt(s, 0) && !NoCrLf(s) {
        var k: nat :| k < |s| && CrLfAt(s, k);
        assert CrLfAt(s[1..], k - 1);
      }
    }
  }

  /** Characters cut and left over. */
  function Size(frames: seq<string>): nat { if frames == [] then 0 else |frames[0]| + 2 + Size(frames[1..]) }

  lemma {:induction false} SizeIsKept(s: string)
    ensures Size(Frames(s)) + |Rest(s)| == |s|
    decreases |s|
  {
    var i := Boundary(s);
    if i >= 0 {
      SizeIsKept(s[i + 2..]);
      assert Frames(s)[1..] == Frames(s[i + 2..]);
    }
  }

  lemma {:induction false} SizesAdd(a: seq<string>, b: seq<string>)
    ensures Size(a + b) == Size(a) + Size(b)
  {
    if a == [] {
      assert a + b == b;
    } else {
      assert (a + b)[1..] == a[1..] + b;
      SizesAdd(a[1..], b);
    }
  }

  /** A CRLF at the end stays in the buffer. */
  lemma {:induction false} TailIsLeft(s: string)
    requires |s| >= 2 && s[|s| - 2] == '\r' && s[|s| - 1] == '\n'
    ensures |Rest(s)| >= 2 && Rest(s)[|Rest(s)| - 2] == '\r' && Rest(s)[|Rest(s)| - 1] == '\n'
    decreases |s|
  {
    var i := Boundary(s);
    if i >= 0 {
      assert i + 1 != |s| - 1 && i + 1 != |s| - 2;
      TailIsLeft(s[i + 2..]);
    }
  }

  lemma CrCrLfRewritten()
    ensures Normalised("\r\r\n") == "\r\n" && Normalised("\r\n") == "\n"
  {
    assert "\r\n"[2..] == "" && ['\r'] + "\r\n" == "\r\r\n" && ['\r'] + "\n" == "\r\n";
    assert Normalised("\r\n") == "\n";
    NormalisedCons('\r', "\r\n");
  }

  /** After two carriage returns and a line feed the rewritten text ends in a CRLF again. */
  lemma RewrittenOnce(before: string)
    ensures var n := Normalised(before + "\r\r\n"); |n| >= 2 && n[|n| - 2] == '\r' && n[|n| - 1] == '\n'
  {
    hide Normalised;
    RewrittenApart(before, "\r\r\n");
    CrCrLfRewritten();
  }

  /** The two ways to read a text that has two carriage returns before a line feed. */
  lemma ReadTwiceShrinks(before: string, after: string)
    ensures var p := before + "\r\r\n"; FramesRead([p, after]) != FramesRead([p + after])
  {
    var p := before + "\r\r\n";
    var n := Normalised(p);
    ReadOne(p);
    ReadOne(p + after);
    assert [p, after][..1] == [p];
    RewrittenOnce(before);
    TailIsLeft(n);
    hide Normalised, Frames, Rest;
    var left := Rest(n);
    RewrittenApart(p, after);
    RewrittenApart(left, after);
    assert CrLfAt(left, |left| - 2);
    RewritingShortens(left);
    SizeIsKept(n);
    SizeIsKept(Normalised(p + after));
    SizeIsKept(Normalised(left + after));
    SizesAdd(Frames(n), Frames(Normalised(left + after)));
  }

  lemma TextOfTwo(a: string, b: string)
    ensures Text([a, b]) == a + b
  {
    TextOfOne(a);
    assert [a, b][..1] == [a];
  }

  ghost predicate ReadTheSame(text: string) {
    forall chunks: seq<string> :: Text(chunks) == text ==> FramesRead(chunks) == FramesRead([text])
  }

  /** What has been cut and what is left over, once a text has been received, depends on nothing but
      the text if and only if it never has two carriage returns before a line feed. */
  lemma ReadTheSameIff(text: string)
    ensures ReadTheSame(text) <==> NoCrCrLf(text)
  {
    TextOfOne(text);
    if NoCrCrLf(text) {
      forall chunks: seq<string> | Text(chunks) == text ensures FramesRead(chunks) == FramesRead([text]) {
        WholeTextIsRead(chunks);
        WholeTextIsRead([text]);
      }
    } else {
      var k: nat :| k < |text| && CrCrLfAt(text, k);
      var before, after := text[..k], text[k + 3..];
      assert before + "\r\r\n" + after == text;
      TextOfTwo(before + "\r\r\n", after);
      ReadTwiceShrinks(before, after);
      assert !ReadTheSame(text);
    }
  }

  /** A stream where it shows: the second read rewrites what the first left over once more, and the
      flush finds nothing to rewrite. */
  lemma ReadsMatterWithCrCrLf(name: string)
    requires '\n' !in name && '\r' !in name
    ensures Text([name + "\r\r\n\n"]) == Text([name + "\r\r\n", "\n"])
    ensures FramesRead([name + "\r\r\n\n"]) == ([name + "\r"], "")
    ensures FramesRead([name + "\r\r\n", "\n"]) == ([name], "")
  {
    var first, text := name + "\r\r\n", name + "\r\r\n\n";
    TextOfOne(text);
    TextOfOne(first);
    assert [first, "\n"][..1] == [first];
    assert first + "\n" == text;
    ReadOne(text);
    ReadOne(first);
    Rewritings(name);
    OneFrame(name + "\r");
    OneFrame(name);
    NoFrame(name + "\r\n");
    assert name + "\r\n" + "\n" == name + "\r\n\n" == name + "\r" + "\n\n";
    assert [] + [name] == [name];
  }

  lemma TextOfOne(chunk: string)
    ensures Text([chunk]) == chunk
  {
    assert [chunk][..0] == [] && "" + chunk == chunk;
  }

  lemma ReadOne(chunk: string)
    ensures FramesRead([chunk]) == (Frames(Normalised(chunk)), Rest(Normalised(chunk)))
  {
    assert [chunk][..0] == [] && "" + chunk == chunk && [] + Frames(Normalised(chunk)) == Frames(Normalised(chunk));
  }

  lemma Rewritings(name: string)
    requires '\n' !in name && '\r' !in name
    ensures Normalised(name + "\r\r\n\n") == name + "\r\n\n" && Normalised(name + "\r\r\n") == name + "\r\n"
    ensures Normalised(name + "\r\n\n") == name + "\n\n"
  {
    forall k: nat | k < |name| ensures !CrLfAt(name, k) { assert name[k] in name; }
    assert name != "" ==> name[|name| - 1] in name;
    NormalisedSplits(name, "\r\r\n\n");
    NormalisedSplits(name, "\r\r\n");
    NormalisedSplits(name, "\r\n\n");
    assert Normalised("\n") == "\n" && "\r\n"[2..] == "" && "\r\n\n"[2..] == "\n";
    assert Normalised("\r\n") == "\n" && Normalised("\r\n\n") == "\n\n";
    NormalisedCons('\r', "\r\n");
    NormalisedCons('\r', "\r\n\n");
    assert ['\r'] + "\r\n" == "\r\r\n" && ['\r'] + "\r\n\n" == "\r\r\n\n";
    assert ['\r'] + "\n" == "\r\n" && ['\r'] + "\n\n" == "\r\n\n";
  }

  lemma OneFrame(frame: string)
    requires '\n' !in frame
    ensures Frames(frame + "\n\n") == [frame] && Rest(frame + "\n\n") == ""
  {
    var s := frame + "\n\n";
    forall k: nat | k < |frame| ensures !BlankLineAt(s, k) { assert s[k] in frame; }
    assert BlankLineAt(s, |frame|);
    BoundaryIs(s, |frame|);
    assert s[..|frame|] == frame && s[|frame| + 2..] == "";
  }

  lemma NoFrame(s: string)
    requires |s| >= 1 && '\n' !in s[..|s| - 1]
    ensures Frames(s) == [] && Rest(s) == s
  {
    forall k: nat | k < |s| ensures !BlankLineAt(s, k) {
      if k < |s| - 1 { assert s[k] in s[..|s| - 1]; }
    }
  }

  // ---------------------------------------------------------------- which texts are accepted in every way

  /** Character `n` completes a blank line. */
  predicate CutAt(text: string, n: nat)
    requires n < |text|
  {
    Frames(Normalised(text[..n + 1])) != Frames(Normalised(text[..n]))
  }

  function FrameCutAt(text: string, n: nat): string
    requires n < |text|
  {
    var frames := Frames(Normalised(text[..n + 1]));
    if frames == [] then "" else frames[|frames| - 1]
  }

  /** How much of the blank line is in the buffer before its last line feed: a line feed, and the
      carriage return of a CRLF. */
  function Terminator(text: string, n: nat): nat
    requires n < |text|
  {
    if EndsInReturn(text[..n]) then 2 else 1
  }

  /** Every frame fits together with its terminator, and so does what is left over. */
  predicate FitsHoweverRead(text: string) {
    && !TooLong(Rest(Normalised(text)))
    && forall n: nat :: n < |text| && CutAt(text, n) ==> |FrameCutAt(text, n)| + Terminator(text, n) <= MAX_FRAME
  }

  lemma {:induction false} Unchanged(s: string)
    requires NoCrLf(s)
    ensures Normalised(s) == s
  {
    if s != "" {
      assert !CrLfAt(s, 0);
      StillNone(s, 1);
      Unchanged(s[1..]);
    }
  }

  lemma {:induction false} RewrittenEnd(s: string)
    ensures EndsInReturn(Normalised(s)) <==> EndsInReturn(s)
    ensures Normalised(s) == "" <==> s == ""
    decreases |s|
  {
    if s != "" {
      NormalisedStep(s);
      RewrittenEnd(s[HeadLength(s)..]);
    }
  }

  lemma LineEndCompleted(line: string)
    requires NoCrLf(line + "\r")
    ensures Normalised(line + "\r\n") == line + "\n"
  {
    forall k: nat | k < |line| ensures !CrLfAt(line, k) { assert CrLfAt(line, k) ==> CrLfAt(line + "\r", k); }
    hide Normalised, NoCrLf;
    assert NoCrLf(line);
    Unchanged(line);
    RewrittenApart(line, "\r\n");
    CrCrLfRewritten();
  }

  lemma OnePlain(r: string, c: char)
    requires NoCrLf(r) && (c != '\n' || !EndsInReturn(r))
    ensures Normalised(r + [c]) == r + [c]
  {
    var s := r + [c];
    forall k: nat | k < |s| ensures !CrLfAt(s, k) { assert CrLfAt(s, k) ==> CrLfAt(r, k) || k == |r| - 1; }
    Unchanged(s);
  }

  lemma ReturnThenFeed(r: string)
    requires EndsInReturn(r)
    ensures r == r[..|r| - 1] + "\r" && r + ['\n'] == r[..|r| - 1] + "\r\n"
  {}

  /** The buffer after one more character: a pending carriage return becomes part of the line feed. */
  lemma OneMore(r: string, c: char)
    requires NoCrLf(r)
    ensures Normalised(r + [c]) == if c == '\n' && EndsInReturn(r) then r[..|r| - 1] + [c] else r + [c]
  {
    hide Normalised, NoCrLf;
    if c == '\n' && EndsInReturn(r) {
      ReturnThenFeed(r);
      hide EndsInReturn;
      LineEndCompleted(r[..|r| - 1]);
      assert "\n" == [c];
    } else {
      OnePlain(r, c);
    }
  }

  lemma {:induction false} NoBlankLineLeft(s: string)
    ensures Boundary(Rest(s)) < 0
    decreases |s|
  {
    if Boundary(s) >= 0 {
      NoBlankLineLeft(s[Boundary(s) + 2..]);
    }
  }

  lemma BlankLineAtEnd(s: string)
    requires forall k: nat :: BlankLineAt(s, k) ==> k == |s| - 2
    ensures |s| >= 2 && BlankLineAt(s, |s| - 2) ==> Frames(s) == [s[..|s| - 2]] && Rest(s) == ""
    ensures |s| < 2 || !BlankLineAt(s, |s| - 2) ==> Frames(s) == [] && Rest(s) == s
  {
    if |s| >= 2 && BlankLineAt(s, |s| - 2) {
      BoundaryIs(s, |s| - 2);
      assert s[|s| - 2 + 2..] == "";
      assert Frames("") == [] && Rest("") == "";
    } else {
      assert Boundary(s) < 0;
    }
  }

  /** The buffer's own frames after one more character. */
  lemma OneMoreCuts(r: string, c: char)
    requires NoCrLf(r) && Boundary(r) < 0
    ensures var buffer := Normalised(r + [c]);
      || (Frames(buffer) == [] && |Rest(buffer)| >= |r|)
      || (exists f :: Frames(buffer) == [f] && Rest(buffer) == "" && |r| == |f| + if EndsInReturn(r) then 2 else 1)
  {
    var buffer := Normalised(r + [c]);
    OneMore(r, c);
    forall k: nat | BlankLineAt(buffer, k) ensures k == |buffer| - 2 {
      if k < |buffer| - 2 {
        assert buffer[k] == r[k] && buffer[k + 1] == r[k + 1];
        assert BlankLineAt(r, k);
      }
    }
    BlankLineAtEnd(buffer);
    if Frames(buffer) != [] {
      assert |buffer[..|buffer| - 2]| == |r| - if EndsInReturn(r) then 2 else 1;
    }
  }

  lemma LeftoverIsPlain(past: string)
    requires NoCrCrLf(past)
    ensures var r := Rest(Normalised(past)); NoCrLf(r) && Boundary(r) < 0 && (EndsInReturn(r) <==> EndsInReturn(past))
  {
    var n := Normalised(past);
    NormalisedHasNoCrLf(past);
    NoBlankLineLeft(n);
    RewrittenEnd(past);
    CutAndRest(n);
    StillNone(n, |Cut(n)|);
    assert n[|Cut(n)|..] == Rest(n);
    if Rest(n) == "" && n != "" {
      CutEndsInLineFeed(n);
    }
  }

  lemma NoneBefore(text: string, n: nat)
    requires NoCrCrLf(text) && n <= |text|
    ensures NoCrCrLf(text[..n])
  {
    forall j: nat | j < n ensures CrCrLfAt(text[..n], j) ==> CrCrLfAt(text, j) {}
  }

  /** One character cuts at most one frame, just then as long as the buffer less its terminator; otherwise
      the buffer does not shrink. */
  lemma OneCharacter(text: string, n: nat)
    requires NoCrCrLf(text) && n < |text|
    ensures var r, next := Rest(Normalised(text[..n])), Normalised(text[..n + 1]);
      if CutAt(text, n) then
        Frames(next) == Frames(Normalised(text[..n])) + [FrameCutAt(text, n)] && |r| == |FrameCutAt(text, n)| + Terminator(text, n)
      else |Rest(next)| >= |r|
  {
    var past := text[..n];
    var r := Rest(Normalised(past));
    assert text[..n + 1] == past + [text[n]];
    NoneBefore(text, n);
    LeftoverIsPlain(past);
    hide Frames, Rest, Normalised, NoCrCrLf, NoCrLf, Boundary;
    OneMoreCuts(r, text[n]);
    ReadStep(past, [text[n]]);
    assert forall frames: seq<string> :: frames + [] == frames;
  }

  lemma {:induction false} FramesFit(text: string, n: nat)
    requires NoCrCrLf(text) && FitsHoweverRead(text) && n <= |text|
    ensures forall f <- Frames(Normalised(text[..n])) :: !TooLong(f)
  {
    if n > 0 {
      FramesFit(text, n - 1);
      OneCharacter(text, n - 1);
    }
  }

  lemma {:induction false} LeftoverFits(text: string, n: nat)
    requires NoCrCrLf(text) && FitsHoweverRead(text) && n <= |text|
    ensures !TooLong(Rest(Normalised(text[..n])))
    decreases |text| - n
  {
    if n == |text| {
      assert text[..n] == text;
    } else {
      OneCharacter(text, n);
      LeftoverFits(text, n + 1);
    }
  }

  lemma {:induction false} ReadSoFar(chunks: seq<string>, k: nat) returns (n: nat)
    requires k <= |chunks|
    ensures n <= |Text(chunks)| && Text(chunks[..k]) == Text(chunks)[..n]
    decreases |chunks| - k
  {
    if k == |chunks| {
      assert chunks[..k] == chunks;
      n := |Text(chunks)|;
    } else {
      n := ReadSoFar(chunks, k + 1);
      assert chunks[..k + 1][..k] == chunks[..k];
      n := |Text(chunks[..k])|;
    }
  }

  lemma FittingIsAccepted(chunks: seq<string>)
    requires NoCrCrLf(Text(chunks)) && FitsHoweverRead(Text(chunks))
    ensures Accepted(chunks)
  {
    var text := Text(chunks);
    forall k: nat | k < |chunks| ensures !Overflows(chunks, k) {
      var n := ReadSoFar(chunks, k + 1);
      PrefixHasNone(chunks, k + 1);
      WholeTextIsRead(chunks[..k + 1]);
      FramesFit(text, n);
      LeftoverFits(text, n);
      ReadMore(chunks, k);
    }
  }

  /** A single read: what it needs is needed in every way of reading. */
  lemma OneReadAccepts(text: string)
    ensures Accepted([text]) <==> !TooLong(Rest(Normalised(text))) && forall f <- Frames(Normalised(text)) :: !TooLong(f)
  {
    assert [text][..0] == [] && "" + text == text;
    assert Buffered([text], 0) == Normalised(text);
    assert Accepted([text]) <==> !Overflows([text], 0);
  }

  lemma {:induction false} AcceptedNeeds(chunks: seq<string>)
    requires Accepted(chunks)
    ensures !TooLong(FramesRead(chunks).1) && forall f <- FramesRead(chunks).0 :: !TooLong(f)
  {
    if chunks != [] {
      var n := |chunks| - 1;
      assert chunks[..n + 1] == chunks;
      AcceptedMore(chunks, n);
      AcceptedNeeds(chunks[..n]);
      ReadMore(chunks, n);
    }
  }

  lemma FirstReadAccepts(a: string, b: string)
    requires Accepted([a, b])
    ensures !TooLong(Rest(Normalised(a)))
  {
    assert [a, b][..1] == [a];
    AcceptedMore([a, b], 1);
    assert [a, b][..2] == [a, b];
    OneReadAccepts(a);
  }

  lemma CutBetweenReads(text: string, n: nat)
    requires NoCrCrLf(text) && n < |text| && CutAt(text, n) && |FrameCutAt(text, n)| + Terminator(text, n) > MAX_FRAME
    ensures !Accepted([text[..n], text[n..]])
  {
    hide Frames, Normalised, Accepted, NoCrCrLf;
    OneCharacter(text, n);
    if Accepted([text[..n], text[n..]]) {
      FirstReadAccepts(text[..n], text[n..]);
    }
  }

  lemma SomeReadsRefuse(text: string) returns (chunks: seq<string>)
    requires NoCrCrLf(text) && !FitsHoweverRead(text)
    ensures Text(chunks) == text && !Accepted(chunks)
  {
    hide Frames, Normalised, Accepted, NoCrCrLf, Rest, Text, FrameCutAt, Terminator, CutAt;
    if TooLong(Rest(Normalised(text))) {
      TextOfOne(text);
      OneReadAccepts(text);
      chunks := [text];
    } else {
      var n: nat :| n < |text| && CutAt(text, n) && |FrameCutAt(text, n)| + Terminator(text, n) > MAX_FRAME;
      CutBetweenReads(text, n);
      TextOfTwo(text[..n], text[n..]);
      assert text[..n] + text[n..] == text;
      chunks := [text[..n], text[n..]];
    }
  }

  ghost predicate AcceptedHoweverRead(text: string) { forall chunks: seq<string> :: Text(chunks) == text ==> Accepted(chunks) }

  /** A text is accepted however it is read if and only if every frame fits with its terminator. */
  lemma AcceptedHoweverReadIff(text: string)
    requires NoCrCrLf(text)
    ensures AcceptedHoweverRead(text) <==> FitsHoweverRead(text)
  {
    hide NoCrCrLf, FitsHoweverRead, Text, Accepted;
    if FitsHoweverRead(text) {
      forall chunks: seq<string> | Text(chunks) == text ensures Accepted(chunks) {
        FittingIsAccepted(chunks);
      }
    } else {
      var chunks := SomeReadsRefuse(text);
      assert Text(chunks) == text && !Accepted(chunks);
    }
  }

  /** So whether it is accepted depends on the reads exactly if it is accepted in one and does not fit. */
  lemma AcceptanceIsTheSameIff(text: string)
    requires NoCrCrLf(text)
    ensures (forall chunks: seq<string> :: Text(chunks) == text ==> Accepted(chunks) == Accepted([text]))
      <==> (Accepted([text]) ==> FitsHoweverRead(text))
  {
    AcceptedHoweverReadIff(text);
    TextOfOne(text);
    hide FitsHoweverRead, Accepted, Text, Frames, Rest, Normalised, NoCrCrLf;
    if !Accepted([text]) {
      forall chunks: seq<string> | Text(chunks) == text ensures !Accepted(chunks) {
        if Accepted(chunks) {
          AcceptedNeeds(chunks);
          WholeTextIsRead(chunks);
          OneReadAccepts(text);
        }
      }
    }
  }

  lemma PlainLine(name: string, ends: string)
    requires '\n' !in name && '\r' !in name && '\r' !in ends
    ensures Normalised(name + ends) == name + ends
  {
    var s := name + ends;
    forall k: nat | k < |s| ensures !CrLfAt(s, k) {
      assert s[k] in name || s[k] in ends;
    }
    Unchanged(s);
  }

  /** A frame of exactly the limit is accepted when its blank line comes with it, and refused when the
      last line feed comes in a read of its own. */
  lemma LimitDependsOnReads(frame: string)
    requires |frame| == MAX_FRAME && '\n' !in frame && '\r' !in frame
    ensures Text([frame + "\n\n"]) == Text([frame + "\n", "\n"])
    ensures Accepted([frame + "\n\n"]) && !Accepted([frame + "\n", "\n"])
  {
    hide Accepted, Frames, Rest, Normalised, Text;
    PlainLine(frame, "\n\n");
    PlainLine(frame, "\n");
    OneFrame(frame);
    assert (frame + "\n")[..|frame + "\n"| - 1] == frame;
    NoFrame(frame + "\n");
    OneReadAccepts(frame + "\n\n");
    TextOfOne(frame + "\n\n");
    TextOfTwo(frame + "\n", "\n");
    assert frame + "\n" + "\n" == frame + "\n\n";
    if Accepted([frame + "\n", "\n"]) {
      FirstReadAccepts(frame + "\n", "\n");
    }
  }
}
