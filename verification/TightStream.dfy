/**
 * The filter state machine of the Tight decoder (tight.js): what it keeps between calls while
 * the bytes of a rectangle arrive. zlib is a function of everything fed to a stream since its
 * last reset; module Tight says what the filters make of the inflated data.
 */
module TightStream {
  import opened Bytes
  import Rects
  import Tight

  /** Compressed data given to a stream, and the number of bytes asked of it. */
  datatype Feed = Feed(data: seq<byte>, size: nat)

  /** What a stream inflates last, after all it was given since its reset; none when zlib throws. */
  type Zlib = seq<Feed> -> Option<seq<byte>>

  type Streams = s: seq<seq<Feed>> | |s| == 4 witness [[], [], [], []]

  datatype State = State(ctl: Option<byte>, filter: Option<byte>, numColors: nat, palette: seq<byte>, len: nat,
                         streams: Streams)

  /** What a rectangle draws; pixel data with the filter and the palette it goes through. */
  datatype Drawn =
    | Fill(color: seq<byte>)
    | Jpeg(data: seq<byte>)
    | Pixels(filter: byte, data: seq<byte>, palette: seq<byte>, numColors: nat)

  /** One piece of a rectangle: its bytes are not all there, it was read, or it was the last. */
  datatype Turn =
    | Wait
    | More(s: State, n: nat)
    | Done(s: State, n: nat, drawn: seq<Drawn>)
    | Throw

  // ---------------------------------------------------------------- steps between waits

  function ResetStreams(streams: Streams, ctl: byte): Streams {
    [if Bit(ctl, 0) then [] else streams[0], if Bit(ctl, 1) then [] else streams[1],
     if Bit(ctl, 2) then [] else streams[2], if Bit(ctl, 3) then [] else streams[3]]
  }

  datatype Input = Missing | Size(len: nat, n: nat) | Ready(data: seq<byte>, n: nat)

  /** `_readData`: a length of zero is complete at once. */
  function Compressed(len: nat, q: seq<byte>): (i: Input)
    ensures i.Size? ==> 0 < i.n <= |q|
    ensures i.Ready? ==> 0 < i.n <= |q|
  {
    if len == 0 then
      var l := Tight.ReadLength(q);
      if l.Unknown? then Missing
      else if l.value == 0 then Ready([], l.size)
      else Size(l.value, l.size)
    else if |q| < len then Missing
    else Ready(q[..len], len)
  }

  /** A rectangle of one of the filters is complete. */
  function Finish(s: State, n: nat, drawn: seq<Drawn>): Turn {
    Done(s.(ctl := None, filter := None), n, drawn)
  }

  /** Data of `need` bytes, sent as they are when there are fewer than twelve. */
  function Filtered(z: Zlib, s: State, id: nat, filter: byte, need: nat, q: seq<byte>): Turn
    requires id < 4
  {
    var after := if filter == 1 then s.(numColors := 0) else s;
    if need < 12 then
      if |q| < need then Wait
      else Finish(after, need, [Pixels(filter, q[..need], s.palette, s.numColors)])
    else
      var i := Compressed(s.len, q);
      if i.Missing? then Wait
      else if i.Size? then More(s.(len := i.len), i.n)
      else
        var fed := s.streams[id] + [Feed(i.data, need)];
        var out := z(fed);
        if out.None? || |out.value| != need then Throw
        else Finish(after.(len := 0, streams := s.streams[id := fed]), i.n,
                    [Pixels(filter, out.value, s.palette, s.numColors)])
  }

  function PaletteStep(z: Zlib, s: State, id: nat, w: nat, h: nat, q: seq<byte>): Turn
    requires id < 4
  {
    if s.numColors == 0 then
      if |q| < 1 then Wait
      else
        var n := 3 * (q[0] as int + 1);
        if |q| < 1 + n then Wait
        else More(s.(numColors := q[0] as int + 1,
                     palette := q[1..1 + n] + (if n <= |s.palette| then s.palette[n..] else [])), 1 + n)
    else
      var need := Tight.PaletteBytes(w, h, s.numColors);
      if need == 0 then Finish(s, 0, []) else Filtered(z, s, id, 1, need, q)
  }

  function BasicStep(z: Zlib, s: State, ctl: byte, w: nat, h: nat, q: seq<byte>): Turn
    requires ctl < 8
  {
    if s.filter.None? then
      if Bit(ctl, 2) then
        if |q| < 1 then Wait else More(s.(filter := Some(q[0])), 1)
      else More(s.(filter := Some(0)), 0)
    else if s.filter.value == 1 then PaletteStep(z, s, ctl % 4, w, h, q)
    else if s.filter.value == 0 || s.filter.value == 2 then
      if 3 * Tight.Count(w, h) == 0 then Finish(s, 0, [])
      else Filtered(z, s, ctl % 4, s.filter.value, 3 * Tight.Count(w, h), q)
    else Throw
  }

  function Step(z: Zlib, s: State, w: nat, h: nat, q: seq<byte>): Turn {
    if s.ctl.None? then
      if |q| < 1 then Wait
      else More(s.(ctl := Some(q[0] / 16), streams := ResetStreams(s.streams, q[0])), 1)
    else
      var ctl := s.ctl.value;
      if ctl == 8 then
        if |q| < 3 then Wait else Done(s.(ctl := None), 3, [Fill(q[..3])])
      else if ctl == 9 then
        var i := Compressed(s.len, q);
        if i.Missing? then Wait
        else if i.Size? then More(s.(len := i.len), i.n)
        else Done(s.(ctl := None, len := 0), i.n, [Jpeg(i.data)])
      else if ctl < 8 then BasicStep(z, s, ctl, w, h, q)
      else Throw
  }

  /** A step reads no more than there is, and reads nothing only to take the implicit filter. */
  lemma StepReads(z: Zlib, s: State, w: nat, h: nat, q: seq<byte>)
    ensures var p := Step(z, s, w, h, q);
            (p.More? || p.Done? ==> p.n <= |q|) && (p.More? && p.n == 0 ==> s.filter.None? && p.s.filter.Some?)
  {
  }

  // ---------------------------------------------------------------- calls of decodeRect

  datatype Outcome = Outcome(status: Rects.Status, s: State, rest: seq<byte>, drawn: seq<Drawn>)

  /** One call of `decodeRect` on the unread bytes. */
  function Run(z: Zlib, s: State, w: nat, h: nat, q: seq<byte>): Outcome
    decreases |q|, if s.filter.None? then 1 else 0
  {
    StepReads(z, s, w, h, q);
    match Step(z, s, w, h, q)
    case Wait => Outcome(Rects.Waiting, s, q, [])
    case More(t, n) => Run(z, t, w, h, q[n..])
    case Done(t, n, drawn) => Outcome(Rects.Finished, t, q[n..], drawn)
    case Throw => Outcome(Rects.Thrown, s, q, [])
  }

  /** Bytes that come later do not change a step that could be taken. */
  lemma StepStable(z: Zlib, s: State, w: nat, h: nat, q: seq<byte>, x: seq<byte>)
    requires !Step(z, s, w, h, q).Wait?
    ensures Step(z, s, w, h, q + x) == Step(z, s, w, h, q)
  {
    CompressedStable(s.len, q, x);
    FrontStable(q, x);
    hide Compressed;
    if s.ctl.Some? && s.ctl.value < 8 && s.filter.Some? {
      if s.filter.value == 1 {
        PaletteStable(z, s, s.ctl.value % 4, w, h, q, x);
      } else if 3 * Tight.Count(w, h) != 0 && s.filter.value in {0, 2} {
        FilteredStable(z, s, s.ctl.value % 4, s.filter.value, 3 * Tight.Count(w, h), q, x);
      }
      hide Filtered, PaletteStep;
    }
  }

  lemma FrontStable(q: seq<byte>, x: seq<byte>)
    ensures |q| > 0 ==> (q + x)[0] == q[0]
    ensures forall n | 0 <= n <= |q| :: (q + x)[..n] == q[..n]
    ensures forall n | 1 <= n <= |q| :: (q + x)[1..n] == q[1..n]
  {
  }

  lemma CompressedStable(len: nat, q: seq<byte>, x: seq<byte>)
    ensures !Compressed(len, q).Missing? ==> Compressed(len, q + x) == Compressed(len, q)
  {
    FrontStable(q, x);
  }

  lemma FilteredStable(z: Zlib, s: State, id: nat, filter: byte, need: nat, q: seq<byte>, x: seq<byte>)
    requires id < 4 && !Filtered(z, s, id, filter, need, q).Wait?
    ensures Filtered(z, s, id, filter, need, q + x) == Filtered(z, s, id, filter, need, q)
  {
    CompressedStable(s.len, q, x);
    FrontStable(q, x);
    hide Compressed;
  }

  lemma PaletteStable(z: Zlib, s: State, id: nat, w: nat, h: nat, q: seq<byte>, x: seq<byte>)
    requires id < 4 && !PaletteStep(z, s, id, w, h, q).Wait?
    ensures PaletteStep(z, s, id, w, h, q + x) == PaletteStep(z, s, id, w, h, q)
  {
    if s.numColors == 0 {
      FrontStable(q, x);
    } else {
      var need := Tight.PaletteBytes(w, h, s.numColors);
      if need != 0 {
        FilteredStable(z, s, id, 1, need, q, x);
      }
    }
    hide Filtered;
  }

  /** A call that had to wait goes on where it stopped: the split between calls does not matter. */
  lemma {:induction false} RunResumes(z: Zlib, s: State, w: nat, h: nat, q: seq<byte>, x: seq<byte>)
    ensures var d := Run(z, s, w, h, q);
            Run(z, s, w, h, q + x)
                == if d.status.Waiting? then Run(z, d.s, w, h, d.rest + x) else d.(rest := d.rest + x)
    decreases |q|, if s.filter.None? then 1 else 0
  {
    var p := Step(z, s, w, h, q);
    StepReads(z, s, w, h, q);
    if !p.Wait? {
      StepStable(z, s, w, h, q, x);
      hide Step;
      if p.More? {
        assert (q + x)[p.n..] == q[p.n..] + x;
        RunResumes(z, p.s, w, h, q[p.n..], x);
      } else if p.Done? {
        assert (q + x)[p.n..] == q[p.n..] + x;
      }
    }
  }

  /** Calls with one message's bytes more each time; once it is over, bytes only queue up. */
  function Calls(z: Zlib, d: Outcome, w: nat, h: nat, chunks: seq<seq<byte>>): Outcome
    decreases |chunks|
  {
    if |chunks| == 0 then d
    else if d.status.Waiting? then Calls(z, Run(z, d.s, w, h, d.rest + chunks[0]), w, h, chunks[1..])
    else Calls(z, d.(rest := d.rest + chunks[0]), w, h, chunks[1..])
  }

  /** However a rectangle's bytes are split into messages, the decoder ends in the same state with the same drawing. */
  lemma {:induction false} SplitDoesNotMatter(z: Zlib, s: State, w: nat, h: nat, q: seq<byte>, chunks: seq<seq<byte>>)
    ensures Calls(z, Run(z, s, w, h, q), w, h, chunks) == Run(z, s, w, h, q + Concat(chunks))
    decreases |chunks|
  {
    if |chunks| == 0 {
      assert q + Concat(chunks) == q;
    } else {
      hide Run, Step;
      assert q + Concat(chunks) == (q + chunks[0]) + Concat(chunks[1..]);
      CallsFirst(z, Run(z, s, w, h, q), w, h, chunks);
      hide Calls, Concat;
      RunResumes(z, s, w, h, q, chunks[0]);
      SplitDoesNotMatter(z, s, w, h, q + chunks[0], chunks[1..]);
    }
  }

  lemma CallsFirst(z: Zlib, d: Outcome, w: nat, h: nat, chunks: seq<seq<byte>>)
    requires |chunks| > 0
    ensures Calls(z, d, w, h, chunks)
         == Calls(z, if d.status.Waiting? then Run(z, d.s, w, h, d.rest + chunks[0])
             else d.(rest := d.rest + chunks[0]),
                  w, h, chunks[1..])
  {
    hide Run;
  }

  // ---------------------------------------------------------------- what is left behind

  /** A palette rectangle of no area. */
  predicate EmptyPalette(s: State, w: nat, h: nat) {
    s.numColors > 0 && Tight.PaletteBytes(w, h, s.numColors) == 0
  }

  ghost predicate MidPalette(s: State) {
    s.ctl.Some? && s.ctl.value < 8 && s.filter == Some(1)
  }

  /**
   * A palette rectangle that has its colours clears them when it is done exactly if it has an
   * area: an empty one leaves them for the next rectangle, which then reads no palette of its own.
   */
  lemma PaletteClearedExactlyWhen(z: Zlib, s: State, w: nat, h: nat, q: seq<byte>)
    requires MidPalette(s) && s.numColors > 0 && Step(z, s, w, h, q).Done?
    ensures Step(z, s, w, h, q).s.numColors == 0 <==> !EmptyPalette(s, w, h)
  {
    hide Compressed;
  }

  /**
   * Then that rectangle takes its own colour count for pixel data: with two colours left over,
   * a palette rectangle of eight pixels or fewer is finished by one byte, whatever it says.
   */
  lemma NextPaletteIsData(z: Zlib, s: State, w: nat, count: byte, rest: seq<byte>)
    requires MidPalette(s) && s.numColors == 2 && 1 <= w <= 8
    ensures Step(z, s, w, 1, [count] + rest)
         == Done(s.(ctl := None, filter := None, numColors := 0), 1, [Pixels(1, [count], s.palette, 2)])
    ensures Step(z, s.(numColors := 0), w, 1, [count] + rest).Wait? <==> |rest| < 3 * (count as int + 1)
  {
    assert ([count] + rest)[..1] == [count];
    assert Tight.PaletteBytes(w, 1, 2) == 1;
  }

  // ---------------------------------------------------------------- drawing

  /** A palette of at most 256 colours in its buffer. */
  ghost predicate Sound(s: State) {
    |s.palette| == 1024 && s.numColors <= 256
  }

  lemma StepSound(z: Zlib, s: State, w: nat, h: nat, q: seq<byte>)
    requires Sound(s)
    ensures var p := Step(z, s, w, h, q); p.More? || p.Done? ==> Sound(p.s)
  {
    hide Compressed;
  }

  /** Data of the length that its filter needs. */
  ghost predicate Fits(d: Drawn, w: nat, h: nat) {
    d.Pixels? ==>
      && |d.palette| == 1024 && Tight.Count(w, h) > 0
      && (d.filter == 0 || d.filter == 2 ==> |d.data| == 3 * Tight.Count(w, h))
      && (d.filter == 1 ==> 0 < d.numColors <= 256 && |d.data| == Tight.PaletteBytes(w, h, d.numColors))
      && d.filter <= 2
  }

  lemma FilteredFits(z: Zlib, s: State, id: nat, filter: byte, need: nat, w: nat, h: nat, q: seq<byte>)
    requires id < 4 && Sound(s) && filter <= 2 && Tight.Count(w, h) > 0
    requires if filter == 1 then s.numColors > 0 && need == Tight.PaletteBytes(w, h, s.numColors)
             else need == 3 * Tight.Count(w, h)
    ensures var p := Filtered(z, s, id, filter, need, q);
            p.Done? ==> |p.drawn| == 1 && Fits(p.drawn[0], w, h)
  {
    hide Compressed;
  }

  lemma AreaOfPalette(w: nat, h: nat, numColors: nat)
    ensures Tight.PaletteBytes(w, h, numColors) > 0 <==> Tight.Count(w, h) > 0
  {
    var row := (w * (if numColors <= 2 then 1 else 8) + 7) / 8;
    assert row > 0 <==> w > 0;
    Positive(h, w);
    Positive(h, row);
  }

  lemma Positive(a: nat, b: nat)
    ensures a * b > 0 <==> a > 0 && b > 0
  {
  }

  /** Whatever a finished rectangle draws has data of the length its filter takes. */
  lemma DrawnFits(z: Zlib, s: State, w: nat, h: nat, q: seq<byte>)
    requires Sound(s) && Step(z, s, w, h, q).Done?
    ensures forall d | d in Step(z, s, w, h, q).drawn :: Fits(d, w, h)
  {
    hide Filtered, Compressed;
    if s.ctl.value < 8 {
      var id := s.ctl.value % 4;
      if s.filter == Some(1) {
        AreaOfPalette(w, h, s.numColors);
        if Tight.Count(w, h) > 0 {
          FilteredFits(z, s, id, 1, Tight.PaletteBytes(w, h, s.numColors), w, h, q);
        }
      } else if Tight.Count(w, h) > 0 {
        FilteredFits(z, s, id, s.filter.value, 3 * Tight.Count(w, h), w, h, q);
      }
    }
  }

  /** What the pixels of a finished rectangle are, by filter. */
  ghost predicate Rendered(d: Drawn, w: nat, h: nat, img: seq<byte>)
    requires d.Pixels? && Fits(d, w, h)
  {
    && |img| == 4 * Tight.Count(w, h)
    && (d.filter == 0 ==> forall j | 0 <= j < Tight.Count(w, h) :: PixelOf(img, j) == Tight.Entry(d.data, j))
    && (d.filter == 1 && d.numColors == 2 ==> Tight.MonoRows(img, d.data, d.palette, w, h))
    && (d.filter == 1 && d.numColors != 2 ==>
          forall j | 0 <= j < Tight.Count(w, h) :: PixelOf(img, j) == Tight.IndexedEntry(d.data, d.palette, j))
    && (d.filter == 2 ==> w > 0 && img == Tight.GradientOf(d.data, w, Tight.Count(w, h)))
  }

  /** The filters on the data that the state machine hands them. */
  method Render(d: Drawn, w: nat, h: nat) returns (img: array<byte>)
    requires d.Pixels? && Fits(d, w, h)
    ensures fresh(img) && Rendered(d, w, h, img[..])
  {
    Positive(h, w);
    hide Tight.GradientOf, Tight.MonoRows, PixelOf, Tight.Entry, Tight.IndexedEntry;
    if d.filter == 0 {
      img := Tight.CopyRect(d.data, w, h);
    } else if d.filter == 2 {
      img := Tight.Gradient(d.data, w, h);
    } else if d.numColors == 2 {
      img := Tight.MonoRect(d.data, d.palette, w, h);
    } else {
      img := Tight.PaletteRect(d.data, d.palette, w, h);
    }
  }

  /**
   * Every pixel of a palette rectangle has a byte or a bit that names it exactly when the
   * palette does not have one colour, or the rectangle is one pixel wide.
   */
  lemma PaletteIsWholeExactlyWhen(d: Drawn, w: nat, h: nat)
    requires d.Pixels? && d.filter == 1 && Fits(d, w, h)
    ensures (d.numColors == 2 || |d.data| >= Tight.Count(w, h)) <==> d.numColors != 1 || w == 1
  {
    Positive(h, w);
    if d.numColors != 2 {
      Tight.IndexedDataCoversExactlyWhen(w, h, d.numColors);
    }
    hide Tight.PaletteBytes;
  }
}
