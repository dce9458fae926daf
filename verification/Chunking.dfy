/**
 * The result of the message loop does not depend on how the server's bytes were cut into
 * WebSocket messages, and exactly where the source falls short of that.
 */
module Chunking {
  import opened Bytes
  import opened Client
  import opened Decoders
  import opened Hextile
  import opened Rects

  // ---------------------------------------------------------------- one step, more bytes

  lemma MessageStable(cfg: Config, c: State, q: seq<byte>, x: seq<byte>)
    requires |q| >= 1 && Message(cfg, c, q).Next?
    ensures Message(cfg, c, q + x) == Message(cfg, c, q)
  {
    hide UpdateHeader, CutText, Fence, Xvp, EndOfContinuousUpdates;
    MessagePartsStable(cfg, c, q, x);
  }

  lemma MessagePartsStable(cfg: Config, c: State, q: seq<byte>, x: seq<byte>)
    requires |q| >= 1
    ensures UpdateHeader(c, q).Next? ==> UpdateHeader(c, q + x) == UpdateHeader(c, q)
    ensures CutText(cfg, c, q).Next? ==> CutText(cfg, c, q + x) == CutText(cfg, c, q)
    ensures Fence(c, q).Next? ==> Fence(c, q + x) == Fence(c, q)
    ensures Xvp(c, q).Next? ==> Xvp(c, q + x) == Xvp(c, q)
  {
    hide Signed32;
    SliceStable(q, x);
  }

  lemma RectHeaderStable(c: State, q: seq<byte>, x: seq<byte>)
    requires RectHeader(c, q).Next?
    ensures RectHeader(c, q + x) == RectHeader(c, q)
  {
    hide Signed32;
  }

  lemma PseudoStable(cfg: Config, c: State, q: seq<byte>, x: seq<byte>)
    ensures CursorRect(c, q).Next? ==> CursorRect(c, q + x) == CursorRect(c, q)
    ensures NameRect(c, q).Next? ==> NameRect(c, q + x) == NameRect(c, q)
    ensures LedRect(c, q).Next? ==> LedRect(c, q + x) == LedRect(c, q)
    ensures ExtendedSize(cfg, c, q).Next? ==> ExtendedSize(cfg, c, q + x) == ExtendedSize(cfg, c, q)
  {
    hide *;
    CursorStable(c, q, x);
    NameStable(c, q, x);
    ExtendedSizeStable(cfg, c, q, x);
  }

  lemma CursorStable(c: State, q: seq<byte>, x: seq<byte>)
    ensures CursorRect(c, q).Next? ==> CursorRect(c, q + x) == CursorRect(c, q)
  {
    hide EndRectOutput, PixelBytes, MaskBytes;
    SliceStable(q, x);
  }

  lemma NameStable(c: State, q: seq<byte>, x: seq<byte>)
    ensures NameRect(c, q).Next? ==> NameRect(c, q + x) == NameRect(c, q)
    ensures LedRect(c, q).Next? ==> LedRect(c, q + x) == LedRect(c, q)
  {
    hide EndRectOutput, Bit;
    SliceStable(q, x);
  }

  lemma ExtendedSizeStable(cfg: Config, c: State, q: seq<byte>, x: seq<byte>)
    ensures ExtendedSize(cfg, c, q).Next? ==> ExtendedSize(cfg, c, q + x) == ExtendedSize(cfg, c, q)
  {
    hide EndRectOutput, ScreenLayoutOutput, ScreenLayout, Complete;
    if |q| >= 4 && |q| >= ScreensEnd(q[0]) {
      ScreenLayoutStable(c, q, x);
    }
  }

  lemma ScreenLayoutStable(c: State, q: seq<byte>, x: seq<byte>)
    requires |q| >= 4 && |q| >= ScreensEnd(q[0])
    ensures ScreenLayout(c, q + x) == ScreenLayout(c, q)
  {
    hide U32, ResizeRefused;
    if q[0] > 0 {
      U32Stable(q, x, 4);
      U32Stable(q, x, 16);
    }
  }

  lemma U32Stable(q: seq<byte>, x: seq<byte>, at: nat)
    requires at + 4 <= |q|
    ensures U32((q + x)[at..]) == U32(q[at..])
  {
  }

  lemma DecodersStable(cfg: Config, c: State, q: seq<byte>, x: seq<byte>)
    ensures RawRect(cfg, c, q).Next? ==> RawRect(cfg, c, q + x) == RawRect(cfg, c, q)
    ensures CopyRect(c, q).Next? ==> CopyRect(c, q + x) == CopyRect(c, q)
    ensures RreRect(c, q).Next? ==> RreRect(c, q + x) == RreRect(c, q)
    ensures HextileRect(c, q).Next? ==> HextileRect(c, q + x) == HextileRect(c, q)
  {
    hide RawStep, CopyRectStep, RreStep, HexStep, EndRectOutput;
    if RawRect(cfg, c, q).Next? { RawStepStable(c.lines, c.rect, cfg.depth8, q, x); }
    if CopyRect(c, q).Next? { CopyRectStepStable(c.rect, q, x); }
    if RreRect(c, q).Next? { RreStepStable(c.subrects, c.rect, q, x); }
    if HextileRect(c, q).Next? { HexStepStable(c.hex, c.rect, q, x); }
  }

  /** A step that could be taken is taken in the same way however many bytes follow. */
  lemma StepStable(cfg: Config, c: State, q: seq<byte>, x: seq<byte>)
    requires Step(cfg, c, q).Next?
    ensures Step(cfg, c, q + x) == Step(cfg, c, q)
  {
    hide Message, RectHeader;
    hide CursorRect, NameRect, ExtendedSize, LedRect, RawRect, CopyRect, RreRect, HextileRect;
    hide EndRectOutput, ResizeOutput, Foreign;
    if c.rects == 0 {
      MessageStable(cfg, c, q, x);
    } else if c.encoding.None? {
      RectHeaderStable(c, q, x);
    } else {
      PseudoStable(cfg, c, q, x);
      DecodersStable(cfg, c, q, x);
    }
  }

  // ---------------------------------------------------------------- runs

  lemma RunUnfolds(cfg: Config, c: State, q: seq<byte>)
    ensures var r := Step(cfg, c, q);
            if r.Blocked? then Run(cfg, c, q) == Result(c, q, [])
            else r.n <= |q| && Run(cfg, c, q) == Prepend(r.out, Run(cfg, r.c, q[r.n..]))
  {
    hide Step;
    if Step(cfg, c, q).Next? {
      StepProgress(cfg, c, q);
    }
  }

  lemma {:induction false} RunEndsBlocked(cfg: Config, c: State, q: seq<byte>)
    ensures var r := Run(cfg, c, q);
            Step(cfg, r.c, r.rest).Blocked?
    decreases |q|, Rank(c)
  {
    hide Step, Run, Rank;
    RunUnfolds(cfg, c, q);
    var r := Step(cfg, c, q);
    if r.Next? {
      StepProgress(cfg, c, q);
      RunEndsBlocked(cfg, r.c, q[r.n..]);
    }
  }

  lemma PrependPrepend(a: seq<Output>, b: seq<Output>, r: Result)
    ensures Prepend(a, Prepend(b, r)) == Prepend(a + b, r)
    ensures Prepend([], r) == r
  {
    assert a + (b + r.out) == a + b + r.out;
  }

  /** Handling some bytes and then more is handling them together: what the client holds
      between messages is enough to resume. */
  lemma {:induction false} RunResumes(cfg: Config, c: State, q: seq<byte>, x: seq<byte>)
    ensures var r := Run(cfg, c, q);
            Run(cfg, c, q + x) == Prepend(r.out, Run(cfg, r.c, r.rest + x))
    decreases |q|, Rank(c)
  {
    hide Step, Run, Rank;
    RunUnfolds(cfg, c, q);
    var s := Step(cfg, c, q);
    if s.Next? {
      StepStable(cfg, c, q, x);
      StepProgress(cfg, c, q);
      RunUnfolds(cfg, c, q + x);
      DropStable(q, x, s.n);
      RunResumes(cfg, s.c, q[s.n..], x);
      var r := Run(cfg, s.c, q[s.n..]);
      PrependPrepend(s.out, r.out, Run(cfg, r.c, r.rest + x));
    } else {
      PrependPrepend([], [], Run(cfg, c, q + x));
    }
  }

  // ---------------------------------------------------------------- feeding messages

  /** One WebSocket message. Once the connection has been torn down the socket's handler is
      gone and nothing more is received. */
  function Feed(cfg: Config, r: Result, chunk: seq<byte>): Result {
    if r.c.failed then r else Prepend(r.out, Run(cfg, r.c, r.rest + chunk))
  }

  function FeedAll(cfg: Config, r: Result, chunks: seq<seq<byte>>): Result
    decreases |chunks|
  {
    if |chunks| == 0 then r else FeedAll(cfg, Feed(cfg, r, chunks[0]), chunks[1..])
  }

  ghost predicate Idle(cfg: Config, r: Result) {
    Step(cfg, r.c, r.rest).Blocked?
  }

  lemma FeedStaysIdle(cfg: Config, r: Result, chunk: seq<byte>)
    requires Idle(cfg, r)
    ensures Idle(cfg, Feed(cfg, r, chunk))
  {
    hide Run, Step;
    RunEndsBlocked(cfg, r.c, r.rest + chunk);
  }

  /** Everything the server sends, in one message. */
  function Whole(cfg: Config, r: Result, stream: seq<byte>): Result {
    Feed(cfg, r, stream)
  }

  /** As long as the connection stands, any cutting gives what one message would give. */
  lemma {:induction false} ChunksAreOneMessage(cfg: Config, r: Result, chunks: seq<seq<byte>>)
    requires Idle(cfg, r) && !FeedAll(cfg, r, chunks).c.failed
    ensures FeedAll(cfg, r, chunks) == Whole(cfg, r, Concat(chunks))
    decreases |chunks|
  {
    hide Run, Step;
    if |chunks| == 0 {
      RunUnfolds(cfg, r.c, r.rest + []);
      assert r.rest + [] == r.rest && r.out + [] == r.out;
    } else {
      var r1 := Feed(cfg, r, chunks[0]);
      if r1.c.failed {
        FailureLasts(cfg, r1, chunks[1..]);
      }
      FeedStaysIdle(cfg, r, chunks[0]);
      ChunksAreOneMessage(cfg, r1, chunks[1..]);
      FeedFeed(cfg, r, chunks[0], Concat(chunks[1..]));
    }
  }

  /** Two messages, the first of which does not end the connection, are one. */
  lemma FeedFeed(cfg: Config, r: Result, a: seq<byte>, b: seq<byte>)
    requires !Feed(cfg, r, a).c.failed
    ensures Feed(cfg, Feed(cfg, r, a), b) == Feed(cfg, r, a + b)
  {
    hide Run, Step;
    var q := r.rest + a;
    RunResumes(cfg, r.c, q, b);
    assert q + b == r.rest + (a + b);
    var r1 := Run(cfg, r.c, q);
    PrependPrepend(r.out, r1.out, Run(cfg, r1.c, r1.rest + b));
  }

  lemma {:induction false} FailureLasts(cfg: Config, r: Result, chunks: seq<seq<byte>>)
    requires r.c.failed
    ensures FeedAll(cfg, r, chunks) == r
    decreases |chunks|
  {
    if |chunks| > 0 {
      FailureLasts(cfg, r, chunks[1..]);
    }
  }

  // ---------------------------------------------------------------- failures

  /** The outputs up to and including the disconnect event, all of them if there is none. */
  function UpToDisconnect(out: seq<Output>): seq<Output> {
    if |out| == 0 then []
    else if out[0].Disconnect? then [out[0]]
    else [out[0]] + UpToDisconnect(out[1..])
  }

  /** A failed state and a recorded disconnect event go together, and there is one at most. */
  ghost predicate Honest(r: Result) {
    && (r.c.failed <==> Disconnect in r.out)
    && (forall i, j | 0 <= i < |r.out| && 0 <= j < |r.out| :: r.out[i] == r.out[j] == Disconnect ==> i == j)
  }

  /** A step tears the connection down at most once, and its disconnect event is the last
      thing it does. */
  lemma StepHonest(cfg: Config, c: State, q: seq<byte>)
    requires Step(cfg, c, q).Next?
    ensures var r := Step(cfg, c, q);
            if c.failed then r.c.failed && Disconnect !in r.out
            else (r.c.failed && r.out == [Disconnect]) || (!r.c.failed && Disconnect !in r.out)
  {
    hide Message, RectBody;
    if c.rects == 0 {
      MessageHonest(cfg, c, q);
    } else if c.encoding.Some? {
      BodyHonest(cfg, c, c.encoding.value, q);
    }
  }

  ghost predicate HonestStep(c: State, r: StepResult) {
    r.Next? ==>
      if c.failed then r.c.failed && Disconnect !in r.out
      else (r.c.failed && r.out == [Disconnect]) || (!r.c.failed && Disconnect !in r.out)
  }

  lemma MessageHonest(cfg: Config, c: State, q: seq<byte>)
    requires |q| >= 1
    ensures HonestStep(c, Message(cfg, c, q))
  {
    hide UpdateHeader, CutText, Fence, Xvp, EndOfContinuousUpdates;
    UpdateHonest(c, q);
    TextHonest(cfg, c, q);
    FenceHonest(c, q);
    XvpHonest(c, q);
  }

  lemma UpdateHonest(c: State, q: seq<byte>)
    requires |q| >= 1
    ensures HonestStep(c, UpdateHeader(c, q))
  {
    hide U16;
  }

  lemma TextHonest(cfg: Config, c: State, q: seq<byte>)
    requires |q| >= 1
    ensures HonestStep(c, CutText(cfg, c, q))
  {
    hide Signed32, U32;
  }

  lemma FenceHonest(c: State, q: seq<byte>)
    requires |q| >= 1
    ensures HonestStep(c, Fence(c, q))
  {
    hide U32;
  }

  lemma XvpHonest(c: State, q: seq<byte>)
    requires |q| >= 1
    ensures HonestStep(c, Xvp(c, q))
    ensures HonestStep(c, EndOfContinuousUpdates(c))
  {
  }

  lemma BodyHonest(cfg: Config, c: State, e: int, q: seq<byte>)
    ensures HonestStep(c, RectBody(cfg, c, e, q))
  {
    hide CursorRect, NameRect, ExtendedSize, LedRect, RawRect, CopyRect, RreRect, HextileRect, Foreign;
    hide Complete, ResizeOutput;
    PseudoHonest(cfg, c, q);
    DecodersHonest(cfg, c, q);
    ResizeHonest(c, c.rect.w, c.rect.h);
    CompleteHonest(c.(rects := 1), 0, []);
    CompleteHonest(c.(qemuExtKey := true), 0, []);
    CompleteHonest(Resize(c, c.rect.w, c.rect.h), 0, ResizeOutput(c, c.rect.w, c.rect.h));
  }

  lemma PseudoHonest(cfg: Config, c: State, q: seq<byte>)
    ensures HonestStep(c, CursorRect(c, q))
    ensures HonestStep(c, NameRect(c, q))
    ensures HonestStep(c, LedRect(c, q))
    ensures HonestStep(c, ExtendedSize(cfg, c, q))
  {
    hide *;
    CursorHonest(c, q);
    NameHonest(c, q);
    SizeHonest(cfg, c, q);
  }

  lemma CompleteHonest(c: State, n: nat, out: seq<Output>)
    requires Disconnect !in out
    ensures Disconnect !in Complete(c, n, out).out && Complete(c, n, out).c.failed == c.failed
  {
    hide Request;
    assert Disconnect !in Request(EndRect(c)) by { RequestHonest(EndRect(c)); }
    assert Disconnect !in Request(c) by { RequestHonest(c); }
  }

  lemma RequestHonest(c: State)
    ensures Disconnect !in Request(c)
  {
  }

  lemma CursorHonest(c: State, q: seq<byte>)
    ensures HonestStep(c, CursorRect(c, q))
  {
    hide Complete, PixelBytes, MaskBytes;
    var r := CursorRect(c, q);
    if r.Next? {
      var pixels, mask := PixelBytes(c.rect.w, c.rect.h), MaskBytes(c.rect.w, c.rect.h);
      CompleteHonest(c, pixels + mask,
                     [Cursor(c.rect.x, c.rect.y, c.rect.w, c.rect.h, q[..pixels], q[pixels..pixels + mask])]);
    }
  }

  lemma NameHonest(c: State, q: seq<byte>)
    ensures HonestStep(c, NameRect(c, q))
    ensures HonestStep(c, LedRect(c, q))
  {
    hide Complete, U32, Bit;
    if |q| >= 4 && |q| >= 4 + U32(q) {
      CompleteHonest(c, 4 + U32(q), [DesktopName(q[4..4 + U32(q)])]);
    }
    if |q| >= 1 {
      CompleteHonest(c.(locks := Some((Bit(q[0], 1), Bit(q[0], 2)))), 1, []);
    }
  }

  lemma ResizeHonest(c: State, w: nat, h: nat)
    ensures Disconnect !in ResizeOutput(c, w, h)
  {
  }

  lemma SizeHonest(cfg: Config, c: State, q: seq<byte>)
    ensures HonestStep(c, ExtendedSize(cfg, c, q))
  {
    hide Complete, ScreenLayoutOutput, U32, ScreenLayout;
    if |q| >= 4 && |q| >= ScreensEnd(q[0]) {
      var c' := ScreenLayout(c, q);
      LayoutKeepsFailed(c, q);
      LayoutHonest(cfg, c, c');
      CompleteHonest(c', ScreensEnd(q[0]), ScreenLayoutOutput(cfg, c, c'));
    }
  }

  lemma LayoutKeepsFailed(c: State, q: seq<byte>)
    requires |q| >= 4 && |q| >= ScreensEnd(q[0])
    ensures ScreenLayout(c, q).failed == c.failed
  {
    hide U32, ResizeRefused;
  }

  lemma LayoutHonest(cfg: Config, c: State, c': State)
    ensures Disconnect !in ScreenLayoutOutput(cfg, c, c')
  {
    hide ResizeOutput;
    ResizeHonest(c, c.rect.w, c.rect.h);
  }

  lemma DecodersHonest(cfg: Config, c: State, q: seq<byte>)
    ensures HonestStep(c, RawRect(cfg, c, q))
    ensures HonestStep(c, CopyRect(c, q))
    ensures HonestStep(c, RreRect(c, q))
    ensures HonestStep(c, HextileRect(c, q))
  {
    hide *;
    HextileHonest(c, q);
    RawHonest(cfg, c, q);
    RreHonest(c, q);
    CopyHonest(c, q);
  }

  lemma HextileHonest(c: State, q: seq<byte>)
    ensures HonestStep(c, HextileRect(c, q))
  {
    hide HexStep, Complete;
    HexHonest(c.hex, c.rect, q);
    var p := HexStep(c.hex, c.rect, q);
    if p.Done? { CompleteHonest(c.(hex := p.s), p.n, p.out); }
  }

  lemma RawHonest(cfg: Config, c: State, q: seq<byte>)
    ensures HonestStep(c, RawRect(cfg, c, q))
  {
    hide RawStep, Complete;
    RectsHonest(cfg, c, q);
    var p := RawStep(c.lines, c.rect, cfg.depth8, q);
    if p.Done? { CompleteHonest(c.(lines := p.s), p.n, p.out); }
  }

  lemma RreHonest(c: State, q: seq<byte>)
    ensures HonestStep(c, RreRect(c, q))
  {
    hide RreStep, Complete;
    RectsHonest(Config(false, false, false), c, q);
    var p := RreStep(c.subrects, c.rect, q);
    if p.Done? { CompleteHonest(c.(subrects := p.s), p.n, p.out); }
  }

  lemma CopyHonest(c: State, q: seq<byte>)
    ensures HonestStep(c, CopyRect(c, q))
  {
    hide CopyRectStep, Complete;
    RectsHonest(Config(false, false, false), c, q);
    var p := CopyRectStep(c.rect, q);
    if p.Done? { CompleteHonest(c, p.n, p.out); }
  }

  lemma RectsHonest(cfg: Config, c: State, q: seq<byte>)
    ensures var p := RawStep(c.lines, c.rect, cfg.depth8, q); !p.Wait? ==> !p.Throw? && Disconnect !in p.out
    ensures var p := RreStep(c.subrects, c.rect, q); !p.Wait? ==> !p.Throw? && Disconnect !in p.out
    ensures var p := CopyRectStep(c.rect, q); !p.Wait? ==> !p.Throw? && Disconnect !in p.out
  {
    hide RawLine, U32, U16;
  }

  lemma HexHonest(s: Hex, r: Rect, q: seq<byte>)
    ensures var p := HexStep(s, r, q);
            !p.Wait? ==> Disconnect !in p.out && (p.Throw? ==> p.out == [])
  {
    hide TileBytes, ReadColors, RawLine, Bit, TileRect, TotalTiles;
  }

  lemma {:induction false} RunHonest(cfg: Config, c: State, q: seq<byte>, out: seq<Output>)
    requires Honest(Result(c, q, out))
    ensures Honest(Prepend(out, Run(cfg, c, q)))
    decreases |q|, Rank(c)
  {
    hide Step, Run, Rank;
    RunUnfolds(cfg, c, q);
    var s := Step(cfg, c, q);
    if s.Next? {
      StepProgress(cfg, c, q);
      StepHonest(cfg, c, q);
      RunHonest(cfg, s.c, q[s.n..], out + s.out);
      PrependPrepend(out, s.out, Run(cfg, s.c, q[s.n..]));
    } else {
      assert out + [] == out;
    }
  }

  lemma {:induction false} FeedAllHonest(cfg: Config, r: Result, chunks: seq<seq<byte>>)
    requires Honest(r)
    ensures Honest(FeedAll(cfg, r, chunks))
    decreases |chunks|
  {
    hide Run;
    if |chunks| > 0 {
      if !r.c.failed {
        RunHonest(cfg, r.c, r.rest + chunks[0], r.out);
      }
      FeedAllHonest(cfg, Feed(cfg, r, chunks[0]), chunks[1..]);
    }
  }

  // ---------------------------------------------------------------- any cutting

  /** Cut or not, the client does the same things in the same order, only perhaps less: after
      a failure, what was in the same message as the failing bytes is still acted upon. */
  lemma {:induction false} CutIsPrefixOfWhole(cfg: Config, r: Result, chunks: seq<seq<byte>>)
    requires Idle(cfg, r)
    ensures FeedAll(cfg, r, chunks).out <= Whole(cfg, r, Concat(chunks)).out
    decreases |chunks|
  {
    hide Run, Step;
    if |chunks| == 0 || r.c.failed {
      if r.c.failed { FailureLasts(cfg, r, chunks); }
    } else {
      var a, b := chunks[0], Concat(chunks[1..]);
      var r1 := Feed(cfg, r, a);
      FeedStaysIdle(cfg, r, a);
      if r1.c.failed {
        FailureLasts(cfg, r1, chunks[1..]);
        RunResumes(cfg, r.c, r.rest + a, b);
        assert r.rest + a + b == r.rest + (a + b);
      } else {
        FeedFeed(cfg, r, a, b);
        CutIsPrefixOfWhole(cfg, r1, chunks[1..]);
      }
    }
  }

  lemma CutFailsAlike(cfg: Config, r: Result, chunks: seq<seq<byte>>)
    requires Idle(cfg, r) && Honest(r)
    ensures FeedAll(cfg, r, chunks).c.failed == Whole(cfg, r, Concat(chunks)).c.failed
  {
    hide Run, Step;
    FeedAllHonest(cfg, r, chunks);
    FeedAllHonest(cfg, r, [Concat(chunks)]);
    assert FeedAll(cfg, r, [Concat(chunks)]) == Whole(cfg, r, Concat(chunks));
    if FeedAll(cfg, r, chunks).c.failed {
      CutIsPrefixOfWhole(cfg, r, chunks);
    } else {
      ChunksAreOneMessage(cfg, r, chunks);
    }
  }

  lemma {:induction false} UpToDisconnectOfPrefix(a: seq<Output>, b: seq<Output>)
    requires a <= b && (Disconnect in a || a == b)
    ensures UpToDisconnect(a) == UpToDisconnect(b)
  {
    if |a| > 0 && !a[0].Disconnect? {
      UpToDisconnectOfPrefix(a[1..], b[1..]);
    }
  }

  /** Chunking independence. For any two cuttings of the same server bytes the client
      performs the same display operations, sends the same messages and raises the same
      events up to and including the disconnect event; without a failure all of it, and the
      state it ends in, is the same. */
  lemma ChunkingIndependence(cfg: Config, r: Result, chunks1: seq<seq<byte>>, chunks2: seq<seq<byte>>)
    requires Idle(cfg, r) && Honest(r) && Concat(chunks1) == Concat(chunks2)
    ensures var r1, r2 := FeedAll(cfg, r, chunks1), FeedAll(cfg, r, chunks2);
            && UpToDisconnect(r1.out) == UpToDisconnect(r2.out)
            && r1.c.failed == r2.c.failed
            && (!r1.c.failed ==> r1 == r2)
  {
    hide Run, Step, UpToDisconnect;
    CutIsWhole(cfg, r, chunks1);
    CutIsWhole(cfg, r, chunks2);
  }

  lemma CutIsWhole(cfg: Config, r: Result, chunks: seq<seq<byte>>)
    requires Idle(cfg, r) && Honest(r)
    ensures var r1, w := FeedAll(cfg, r, chunks), Whole(cfg, r, Concat(chunks));
            && UpToDisconnect(r1.out) == UpToDisconnect(w.out)
            && r1.c.failed == w.c.failed
            && (!r1.c.failed ==> r1 == w)
  {
    hide Run, Step, UpToDisconnect, Whole;
    CutFailsAlike(cfg, r, chunks);
    CutIsPrefixOfWhole(cfg, r, chunks);
    FeedAllHonest(cfg, r, chunks);
    if !FeedAll(cfg, r, chunks).c.failed {
      ChunksAreOneMessage(cfg, r, chunks);
    }
    UpToDisconnectOfPrefix(FeedAll(cfg, r, chunks).out, Whole(cfg, r, Concat(chunks)).out);
  }

  // ---------------------------------------------------------------- after a failure

  function Singles(stream: seq<byte>): seq<seq<byte>> {
    if |stream| == 0 then [] else [[stream[0]]] + Singles(stream[1..])
  }

  lemma {:induction false} SinglesConcat(stream: seq<byte>)
    ensures Concat(Singles(stream)) == stream
  {
    if |stream| > 0 {
      SinglesConcat(stream[1..]);
    }
  }

  lemma {:induction false} SinglesSplit(a: seq<byte>, b: seq<byte>)
    ensures Singles(a + b) == Singles(a) + Singles(b)
  {
    if |a| > 0 {
      SinglesSplit(a[1..], b);
      assert (a + b)[1..] == a[1..] + b;
    } else {
      assert a + b == b;
    }
  }

  lemma {:induction false} FeedAllSplit(cfg: Config, r: Result, a: seq<seq<byte>>, b: seq<seq<byte>>)
    ensures FeedAll(cfg, r, a + b) == FeedAll(cfg, FeedAll(cfg, r, a), b)
    decreases |a|
  {
    hide Feed;
    if |a| > 0 {
      FeedAllSplit(cfg, Feed(cfg, r, a[0]), a[1..], b);
      assert (a + b)[1..] == a[1..] + b;
    } else {
      assert a + b == b;
    }
  }

  /** Byte by byte the client does least. */
  lemma {:induction false} SinglesAreLeast(cfg: Config, r: Result, chunks: seq<seq<byte>>)
    requires Idle(cfg, r) && Honest(r)
    ensures FeedAll(cfg, r, Singles(Concat(chunks))).out <= FeedAll(cfg, r, chunks).out
    decreases |chunks|
  {
    hide Run, Step, Honest, UpToDisconnect;
    if |chunks| > 0 {
      var a, b := chunks[0], Concat(chunks[1..]);
      SinglesSplit(a, b);
      FeedAllSplit(cfg, r, Singles(a), Singles(b));
      SinglesConcat(a);
      CutIsPrefixOfWhole(cfg, r, Singles(a));
      CutIsWhole(cfg, r, Singles(a));
      FeedStaysIdle(cfg, r, a);
      FeedAllHonest(cfg, r, [a]);
      var r1, s1 := Feed(cfg, r, a), FeedAll(cfg, r, Singles(a));
      assert FeedAll(cfg, r, [a]) == r1;
      if r1.c.failed {
        FailureLasts(cfg, r1, chunks[1..]);
        FailureLasts(cfg, s1, Singles(b));
      } else {
        SinglesAreLeast(cfg, r1, chunks[1..]);
      }
    }
  }

  lemma SinglesDecide(cfg: Config, r: Result, stream: seq<byte>)
    requires Idle(cfg, r) && Honest(r)
    ensures (forall chunks: seq<seq<byte>> | Concat(chunks) == stream
        :: FeedAll(cfg, r, chunks).out == Whole(cfg, r, stream).out)
       <==> FeedAll(cfg, r, Singles(stream)).out == Whole(cfg, r, stream).out
  {
    hide Run, Step, Honest;
    SinglesConcat(stream);
    if FeedAll(cfg, r, Singles(stream)).out == Whole(cfg, r, stream).out {
      forall chunks: seq<seq<byte>> | Concat(chunks) == stream
        ensures FeedAll(cfg, r, chunks).out == Whole(cfg, r, stream).out
      {
        SinglesAreLeast(cfg, r, chunks);
        CutIsPrefixOfWhole(cfg, r, chunks);
      }
    }
  }

  /** Byte `k - 1` of the stream is the one on which the connection fails. */
  ghost predicate FailsOn(cfg: Config, r: Result, stream: seq<byte>, k: nat) {
    0 < k <= |stream| && !Feed(cfg, r, stream[..k - 1]).c.failed && Feed(cfg, r, stream[..k]).c.failed
  }

  /** What the loop goes on to do, after that byte, with what it has not read and the rest of the stream. */
  ghost function Afterlife(cfg: Config, r: Result, stream: seq<byte>, k: nat): seq<Output>
    requires k <= |stream|
  {
    var f := Feed(cfg, r, stream[..k]);
    Run(cfg, f.c, f.rest + stream[k..]).out
  }

  /** One message is the failing prefix and its afterlife. */
  lemma WholeIsFailureAndAfterlife(cfg: Config, r: Result, stream: seq<byte>, k: nat)
    requires !r.c.failed && k <= |stream|
    ensures Whole(cfg, r, stream).out == Feed(cfg, r, stream[..k]).out + Afterlife(cfg, r, stream, k)
  {
    hide Run, Step;
    RunResumes(cfg, r.c, r.rest + stream[..k], stream[k..]);
    assert r.rest + stream[..k] + stream[k..] == r.rest + stream;
  }

  lemma FeedOne(cfg: Config, r: Result, chunk: seq<byte>)
    ensures FeedAll(cfg, r, [chunk]) == Feed(cfg, r, chunk)
  {
    hide Feed;
    assert FeedAll(cfg, Feed(cfg, r, chunk), [chunk][1..]) == Feed(cfg, r, chunk);
  }

  /** Up to a point where the connection stands, byte by byte is one message. */
  lemma SinglesOfGood(cfg: Config, r: Result, a: seq<byte>)
    requires Idle(cfg, r) && Honest(r) && !Feed(cfg, r, a).c.failed
    ensures FeedAll(cfg, r, Singles(a)) == Feed(cfg, r, a)
  {
    hide Run, Step, Honest, Singles, FeedAll;
    SinglesConcat(a);
    CutFailsAlike(cfg, r, Singles(a));
    ChunksAreOneMessage(cfg, r, Singles(a));
  }

  lemma SinglesTriple(a: seq<byte>, x: byte, b: seq<byte>)
    ensures Singles(a + [x] + b) == Singles(a) + [[x]] + Singles(b)
  {
    SinglesSplit(a + [x], b);
    SinglesSplit(a, [x]);
    assert Singles([x]) == [[x]] + Singles([]);
    hide Singles;
  }

  /** Byte by byte nothing comes after the failing byte. */
  lemma SinglesEndThere(cfg: Config, r: Result, stream: seq<byte>, k: nat)
    requires Idle(cfg, r) && Honest(r) && FailsOn(cfg, r, stream, k)
    ensures FeedAll(cfg, r, Singles(stream)) == Feed(cfg, r, stream[..k])
  {
    var a, x, b := stream[..k - 1], stream[k - 1], stream[k..];
    hide Run, Step, Honest, Singles, FeedAll, Feed, Idle;
    assert a + [x] == stream[..k] && stream[..k] + b == stream;
    SinglesTriple(a, x, b);
    SinglesOfGood(cfg, r, a);
    FeedAllSplit(cfg, r, Singles(a) + [[x]], Singles(b));
    FeedAllSplit(cfg, r, Singles(a), [[x]]);
    FeedOne(cfg, Feed(cfg, r, a), [x]);
    FeedFeed(cfg, r, a, [x]);
    FailureLasts(cfg, Feed(cfg, r, stream[..k]), Singles(b));
  }

  lemma EmptyFeed(cfg: Config, r: Result)
    requires Idle(cfg, r)
    ensures Feed(cfg, r, []).c == r.c
  {
    hide Step, Run;
    RunUnfolds(cfg, r.c, r.rest + []);
    assert r.rest + [] == r.rest;
  }

  /** A byte that fails a prefix of the stream fails the stream. */
  lemma FailsOnPrefix(cfg: Config, r: Result, stream: seq<byte>, n: nat, k: nat)
    requires n <= |stream| && FailsOn(cfg, r, stream[..n], k)
    ensures FailsOn(cfg, r, stream, k)
  {
    assert stream[..n][..k] == stream[..k] && stream[..n][..k - 1] == stream[..k - 1];
    hide Feed;
  }

  lemma FailsOnLast(cfg: Config, r: Result, stream: seq<byte>)
    requires |stream| > 0 && !Feed(cfg, r, stream[..|stream| - 1]).c.failed && Feed(cfg, r, stream).c.failed
    ensures FailsOn(cfg, r, stream, |stream|)
  {
    assert stream[..|stream|] == stream;
    hide Feed;
  }

  lemma {:induction false} FailingByteExists(cfg: Config, r: Result, stream: seq<byte>) returns (k: nat)
    requires Idle(cfg, r) && !r.c.failed && Feed(cfg, r, stream).c.failed
    ensures FailsOn(cfg, r, stream, k)
    decreases |stream|
  {
    hide *;
    EmptyFeed(cfg, r);
    assert |stream| > 0;
    var n := |stream| - 1;
    if Feed(cfg, r, stream[..n]).c.failed {
      k := FailingByteExists(cfg, r, stream[..n]);
      FailsOnPrefix(cfg, r, stream, n, k);
    } else {
      k := |stream|;
      FailsOnLast(cfg, r, stream);
    }
  }

  /**
   * The whole record, also past the disconnect event, is independent of the cutting exactly
   * when the loop does nothing after the byte on which the connection fails, if there is one.
   */
  lemma IndependentExactlyWhen(cfg: Config, r: Result, stream: seq<byte>)
    requires Idle(cfg, r) && Honest(r)
    ensures (forall chunks: seq<seq<byte>> | Concat(chunks) == stream
        :: FeedAll(cfg, r, chunks).out == Whole(cfg, r, stream).out)
       <==> (forall k: nat | FailsOn(cfg, r, stream, k) :: Afterlife(cfg, r, stream, k) == [])
  {
    hide Run, Step, Honest;
    SinglesDecide(cfg, r, stream);
    SinglesConcat(stream);
    if !r.c.failed {
      forall k: nat | FailsOn(cfg, r, stream, k)
        ensures FeedAll(cfg, r, Singles(stream)).out == Whole(cfg, r, stream).out
            <==> Afterlife(cfg, r, stream, k) == []
      {
        SinglesEndThere(cfg, r, stream, k);
        WholeIsFailureAndAfterlife(cfg, r, stream, k);
        hide Feed, Afterlife;
      }
      if Feed(cfg, r, stream).c.failed {
        var k := FailingByteExists(cfg, r, stream);
      } else {
        CutFailsAlike(cfg, r, Singles(stream));
        ChunksAreOneMessage(cfg, r, Singles(stream));
      }
    } else {
      FailureLasts(cfg, r, Singles(stream));
    }
  }

  // ---------------------------------------------------------------- soft failures

  /** The two messages that report a failure and let the loop go on: a type that is not known, and
      an illegal XVP operation. */
  predicate Soft(c: State, q: seq<byte>) {
    && c.rects == 0 && |q| >= 1
    && (q[0] !in [0, 1, 2, 3, 150, 248, 250] || (q[0] == 250 && |q| >= 4 && q[3] > 1))
  }

  /** The loop never comes to one. */
  ghost predicate NeverSoft(cfg: Config, c: State, q: seq<byte>)
    decreases |q|, Rank(c)
  {
    match Step(cfg, c, q)
    case Blocked => true
    case Next(c', n, _) =>
      StepProgress(cfg, c, q);
      !Soft(c, q) && NeverSoft(cfg, c', q[n..])
  }

  lemma NeverSoftUnfolds(cfg: Config, c: State, q: seq<byte>)
    ensures var s := Step(cfg, c, q);
            s.Next? ==> s.n <= |q| && (NeverSoft(cfg, c, q) <==> !Soft(c, q) && NeverSoft(cfg, s.c, q[s.n..]))
  {
    hide Step, Soft;
    if Step(cfg, c, q).Next? { StepProgress(cfg, c, q); }
  }

  /** Every other failure ends the loop. */
  lemma FailureHalts(cfg: Config, c: State, q: seq<byte>)
    requires Step(cfg, c, q).Next? && !c.failed && Step(cfg, c, q).c.failed
    ensures Step(cfg, c, q).c.halted <==> !Soft(c, q)
  {
    hide Message, RectBody, RectHeader;
    if c.rects == 0 {
      MessageFails(cfg, c, q);
    } else if c.encoding.Some? {
      BodyFails(cfg, c, c.encoding.value, q);
    } else {
      HeaderHonest(c, q);
    }
  }

  lemma HeaderHonest(c: State, q: seq<byte>)
    ensures RectHeader(c, q).Next? ==> RectHeader(c, q).c.failed == c.failed
  {
    hide Signed32, U32, U16;
  }

  lemma MessageFails(cfg: Config, c: State, q: seq<byte>)
    requires |q| >= 1 && !c.failed && !c.halted && c.rects == 0
    requires Message(cfg, c, q).Next? && Message(cfg, c, q).c.failed
    ensures Message(cfg, c, q).c.halted <==> !Soft(c, q)
  {
    hide U32, U16, Signed32, Request;
  }

  /** A step that fails the connection ends the loop. */
  predicate FailsHard(r: StepResult) { r.Next? && r.c.failed ==> r.c.halted }

  lemma BodyFails(cfg: Config, c: State, e: int, q: seq<byte>)
    requires !c.failed
    ensures FailsHard(RectBody(cfg, c, e, q))
  {
    hide CursorRect, NameRect, ExtendedSize, LedRect, RawRect, CopyRect, RreRect, HextileRect, Foreign;
    hide Complete, ResizeOutput, FailsHard;
    CursorFails(c, q);
    NameFails(c, q);
    SizeFails(cfg, c, q);
    RawFails(cfg, c, q);
    CopyFails(c, q);
    RreFails(c, q);
    HextileFails(c, q);
    CompleteFails(c.(rects := 1), 0, []);
    CompleteFails(c.(qemuExtKey := true), 0, []);
    CompleteFails(Resize(c, c.rect.w, c.rect.h), 0, ResizeOutput(c, c.rect.w, c.rect.h));
    OtherFails(c);
  }

  lemma OtherFails(c: State)
    ensures FailsHard(Fail(c, 0, true)) && FailsHard(Next(c.(halted := true), 0, [Unmodelled]))
  {
  }

  lemma CompleteFails(c: State, n: nat, out: seq<Output>)
    requires !c.failed
    ensures FailsHard(Complete(c, n, out))
  {
    hide EndRectOutput;
  }

  lemma CursorFails(c: State, q: seq<byte>)
    requires !c.failed
    ensures FailsHard(CursorRect(c, q))
  {
    hide PixelBytes, MaskBytes, EndRectOutput;
  }

  lemma NameFails(c: State, q: seq<byte>)
    requires !c.failed
    ensures FailsHard(NameRect(c, q)) && FailsHard(LedRect(c, q))
  {
    hide U32, Bit, EndRectOutput;
  }

  lemma SizeFails(cfg: Config, c: State, q: seq<byte>)
    requires !c.failed
    ensures FailsHard(ExtendedSize(cfg, c, q))
  {
    if |q| >= 4 && |q| >= ScreensEnd(q[0]) { LayoutKeepsFailed(c, q); }
    hide ScreenLayoutOutput, ScreenLayout, EndRectOutput;
  }

  lemma RawFails(cfg: Config, c: State, q: seq<byte>)
    requires !c.failed
    ensures FailsHard(RawRect(cfg, c, q))
  {
    hide RawStep, EndRectOutput;
  }

  lemma CopyFails(c: State, q: seq<byte>)
    requires !c.failed
    ensures FailsHard(CopyRect(c, q))
  {
    hide CopyRectStep, EndRectOutput;
  }

  lemma RreFails(c: State, q: seq<byte>)
    requires !c.failed
    ensures FailsHard(RreRect(c, q))
  {
    hide RreStep, EndRectOutput;
  }

  lemma HextileFails(c: State, q: seq<byte>)
    requires !c.failed
    ensures FailsHard(HextileRect(c, q))
  {
    hide HexStep, EndRectOutput;
  }

  lemma {:induction false} NeverSoftHalts(cfg: Config, c: State, q: seq<byte>)
    requires NeverSoft(cfg, c, q) && !c.failed
    ensures Run(cfg, c, q).c.failed ==> Run(cfg, c, q).c.halted
    decreases |q|, Rank(c)
  {
    hide Step, Run, Rank, Soft, NeverSoft;
    RunUnfolds(cfg, c, q);
    NeverSoftUnfolds(cfg, c, q);
    var s := Step(cfg, c, q);
    if s.Next? {
      StepProgress(cfg, c, q);
      if s.c.failed {
        FailureHalts(cfg, c, q);
        HaltedRun(cfg, s.c, q[s.n..]);
      } else {
        NeverSoftHalts(cfg, s.c, q[s.n..]);
      }
    }
  }

  lemma HaltedRun(cfg: Config, c: State, q: seq<byte>)
    requires c.halted
    ensures Run(cfg, c, q) == Result(c, q, [])
  {
    hide Message, RectHeader, RectBody;
  }

  lemma {:induction false} NeverSoftPrefix(cfg: Config, c: State, q: seq<byte>, x: seq<byte>)
    requires NeverSoft(cfg, c, q + x)
    ensures NeverSoft(cfg, c, q)
    decreases |q|, Rank(c)
  {
    hide Step, Rank;
    var s := Step(cfg, c, q);
    if s.Next? {
      StepStable(cfg, c, q, x);
      StepProgress(cfg, c, q);
      NeverSoftUnfolds(cfg, c, q + x);
      NeverSoftUnfolds(cfg, c, q);
      DropStable(q, x, s.n);
      if Soft(c, q) { SoftStable(c, q, x); }
      hide NeverSoft, Soft;
      NeverSoftPrefix(cfg, s.c, q[s.n..], x);
    }
  }

  lemma SoftStable(c: State, q: seq<byte>, x: seq<byte>)
    requires Soft(c, q)
    ensures Soft(c, q + x)
  {
  }

  /** Without an unknown message type or an illegal XVP operation the whole record is the same for every cutting. */
  lemma IndependentWithoutSoftFailure(cfg: Config, r: Result, chunks: seq<seq<byte>>)
    requires Idle(cfg, r) && Honest(r) && NeverSoft(cfg, r.c, r.rest + Concat(chunks))
    ensures FeedAll(cfg, r, chunks).out == Whole(cfg, r, Concat(chunks)).out
  {
    var stream := Concat(chunks);
    hide Run, Step, Honest, Soft, NeverSoft;
    forall k: nat | FailsOn(cfg, r, stream, k)
      ensures Afterlife(cfg, r, stream, k) == []
    {
      var f := Feed(cfg, r, stream[..k]);
      assert r.rest + stream[..k] + stream[k..] == r.rest + stream;
      NeverSoftPrefix(cfg, r.c, r.rest + stream[..k], stream[k..]);
      NeverSoftHalts(cfg, r.c, r.rest + stream[..k]);
      HaltedRun(cfg, f.c, f.rest + stream[k..]);
    }
    IndependentExactlyWhen(cfg, r, stream);
  }

  // ---------------------------------------------------------------- what is left of a long fence

  /** The payload of a fence past its first 64 bytes is handled as messages of its own. */
  lemma LongFenceRunsOn(cfg: Config, c: State, q: seq<byte>)
    requires c.rects == 0 && !c.halted
    requires |q| >= 9 && |q| >= 9 + q[8] as int && q[0] == 248 && q[8] > 64 && U32(q[4..]) >= 0x8000_0000
    ensures var c' := c.(supportsFence := true);
            Run(cfg, c, q) == Prepend(Send(c, ClientFence(U32(q[4..]) % 4, q[9..73])), Run(cfg, c', q[73..]))
  {
    hide Run, U32;
    RunUnfolds(cfg, c, q);
  }

  /** So a bell that the server put into a fence rings. */
  lemma FenceRings(cfg: Config, c: State, payload: seq<byte>)
    requires c.rects == 0 && !c.halted && !c.failed && |payload| == 65 && payload[64] == 2
    ensures Run(cfg, c, [248, 0, 0, 0, 128, 0, 0, 1, 65] + payload).out == [ClientFence(1, payload[..64]), Bell]
  {
    hide Run, Step;
    var q := [248, 0, 0, 0, 128, 0, 0, 1, 65] + payload;
    FenceBytes([248, 0, 0, 0, 128, 0, 0, 1, 65], payload);
    LongFenceRunsOn(cfg, c, q);
    SmallSteps(cfg, c.(supportsFence := true));
    hide U32;
  }

  lemma FenceBytes(head: seq<byte>, payload: seq<byte>)
    requires |head| == 9 && head[4] == 128 && head[5] == 0 && head[6] == 0 && head[7] == 1
    requires |payload| == 65 && payload[64] == 2
    ensures var q := head + payload;
            |q| == 74 && q[0] == head[0] && q[8] == head[8] && U32(q[4..]) == 0x8000_0001 && q[9..73] == payload[..64]
                && q[73..] == [2]
  {
    var q := head + payload;
    assert q[4] == 128 && q[5] == 0 && q[6] == 0 && q[7] == 1;
  }

  /** A client between two messages, with nothing unread. */
  function Fresh(w: nat, h: nat): Result {
    Result(State(0, Rect(0, 0, 0, 0), None, 0, 0, INITIAL, w, h,
                 false, false, false, false, 0, 0, false, 0, None, false, false), [], [])
  }

  /** The source does fall short of full independence: after an unknown message type it
      reports failure but keeps handling the rest of the same WebSocket message, here a
      bell, which it would not even receive in a message of its own. */
  lemma FailureActsOnItsOwnMessage(cfg: Config)
    ensures var r := Fresh(0, 0);
            && Idle(cfg, r) && Honest(r)
            && FeedAll(cfg, r, [[7, 2]]).out == [Disconnect, Bell]
            && FeedAll(cfg, r, [[7], [2]]).out == [Disconnect]
  {
    hide Run, Step;
    var r := Fresh(0, 0);
    var f := r.c.(failed := true);
    SmallSteps(cfg, r.c);
    SmallSteps(cfg, f);
    assert [7, 2][1..] == [2] && [2][1..] == [] && [7][1..] == [];
    assert r.rest + [7, 2] == [7, 2] && r.rest + [7] == [7];
    assert [[7], [2]][1..] == [[2]];
    FailureLasts(cfg, Feed(cfg, r, [7]), [[2]]);
    assert FeedAll(cfg, r, [[7], [2]]) == FeedAll(cfg, Feed(cfg, r, [7]), [[2]]);
    assert FeedAll(cfg, r, [[7, 2]]) == FeedAll(cfg, Feed(cfg, r, [7, 2]), []);
  }

  /** The runs of that example. */
  lemma SmallSteps(cfg: Config, c: State)
    requires c.rects == 0 && !c.halted
    ensures Step(cfg, c, []).Blocked? && Run(cfg, c, []) == Result(c, [], [])
    ensures Run(cfg, c, [2]) == Result(c, [], [Bell])
    ensures var f := c.(failed := true);
            Run(cfg, c, [7]) == Result(f, [], Send(c, Disconnect))
            && Run(cfg, c, [7, 2]) == Result(f, [], Send(c, Disconnect) + [Bell])
  {
    hide Run;
    var f := c.(failed := true);
    RunUnfolds(cfg, c, []);
    RunUnfolds(cfg, f, []);
    RunUnfolds(cfg, c, [2]);
    RunUnfolds(cfg, f, [2]);
    RunUnfolds(cfg, c, [7]);
    RunUnfolds(cfg, c, [7, 2]);
    assert [7, 2][1..] == [2] && [2][1..] == [] && [7][1..] == [];
  }
}
