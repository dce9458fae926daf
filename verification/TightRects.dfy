/**
 * Tight rectangles as a server writes them, and what each of them draws: which control byte,
 * filter, palette and stream lead to which drawing is stated from the rectangle alone.
 */
module TightRects {
  import opened Bytes
  import Rects
  import Tight
  import opened TightStream

  /** One of the four streams, and the resets that a control byte asks for. */
  type StreamId = i: nat | i < 4
  datatype Resets = Resets(first: bool, second: bool, third: bool, fourth: bool)

  /** Pixel data, and the compressed form that is sent for it unless it is short. */
  datatype Data = Data(bytes: seq<byte>, packed: seq<byte>)

  datatype Content =
    | Solid(color: seq<byte>)
    | Photo(jpeg: seq<byte>)
    | Copied(named: bool, stream: StreamId, data: Data)
    | Indexed(stream: StreamId, colors: seq<byte>, data: Data)
    | Slopes(stream: StreamId, data: Data)

  // ---------------------------------------------------------------- bytes

  function Flag(b: bool, weight: nat): nat { if b then weight else 0 }

  function ResetBits(r: Resets): (n: nat)
    ensures n < 16
  {
    Flag(r.first, 1) + Flag(r.second, 2) + Flag(r.third, 4) + Flag(r.fourth, 8)
  }

  /** The upper half of the control byte. */
  function Kind(c: Content): (n: nat)
    ensures n < 16
  {
    match c
    case Solid(_) => 8
    case Photo(_) => 9
    case Copied(named, stream, _) => if named then 4 + stream else stream
    case Indexed(stream, _, _) => 4 + stream
    case Slopes(stream, _) => 4 + stream
  }

  /** Bytes of pixel data that a rectangle needs. */
  function Need(c: Content, w: nat, h: nat): nat {
    match c
    case Copied(_, _, _) => 3 * (h * w)
    case Indexed(_, colors, _) => if |colors| <= 6 then (w + 7) / 8 * h else w * h
    case Slopes(_, _) => 3 * (h * w)
    case _ => 0
  }

  predicate Packable(s: seq<byte>) { |s| < 0x40_0000 }

  predicate Writable(c: Content, w: nat, h: nat) {
    match c
    case Solid(color) => |color| == 3
    case Photo(jpeg) => Packable(jpeg)
    case Copied(_, _, data) => |data.bytes| == Need(c, w, h) && Packable(data.packed)
    case Indexed(_, colors, data) =>
      && |colors| % 3 == 0 && 3 <= |colors| <= 768
      && |data.bytes| == Need(c, w, h) && Packable(data.packed)
    case Slopes(_, data) => |data.bytes| == Need(c, w, h) && Packable(data.packed)
  }

  function Lengthed(s: seq<byte>): seq<byte>
    requires Packable(s)
  {
    Tight.LengthCode(|s|) + s
  }

  /** Less than twelve bytes travel as they are. */
  function DataSent(d: Data): seq<byte>
    requires Packable(d.packed)
  {
    if |d.bytes| < 12 then d.bytes else Lengthed(d.packed)
  }

  function ContentSent(c: Content, w: nat, h: nat): seq<byte>
    requires Writable(c, w, h)
  {
    match c
    case Solid(color) => color
    case Photo(jpeg) => Lengthed(jpeg)
    case Copied(named, _, data) => (if named then [0] else []) + DataSent(data)
    case Indexed(_, colors, data) => [1] + ([|colors| / 3 - 1] + (colors + DataSent(data)))
    case Slopes(_, data) => [2] + DataSent(data)
  }

  function RectSent(r: Resets, c: Content, w: nat, h: nat): seq<byte>
    requires Writable(c, w, h)
  {
    [16 * Kind(c) + ResetBits(r)] + ContentSent(c, w, h)
  }

  // ---------------------------------------------------------------- drawing and state

  /** Between two rectangles. */
  predicate Between(s: State) { s.ctl.None? && s.filter.None? && s.len == 0 }

  /** The streams that the rectangle names are emptied, and no others. */
  function Emptied(streams: Streams, r: Resets): Streams {
    [if r.first then [] else streams[0], if r.second then [] else streams[1],
     if r.third then [] else streams[2], if r.fourth then [] else streams[3]]
  }

  /** Compressed data goes to the stream that is named, and to no other. */
  function Given(streams: Streams, id: StreamId, d: Data): Streams {
    if |d.bytes| < 12 then streams else streams[id := streams[id] + [Feed(d.packed, |d.bytes|)]]
  }

  function Stored(s: State, colors: seq<byte>): seq<byte> {
    colors + if |colors| <= |s.palette| then s.palette[|colors|..] else []
  }

  /** zlib makes the bytes of the compressed form, given what the stream holds. */
  predicate Inflates(z: Zlib, streams: Streams, id: StreamId, d: Data) {
    |d.bytes| >= 12 ==> z(streams[id] + [Feed(d.packed, |d.bytes|)]) == Some(d.bytes)
  }

  predicate Sound(z: Zlib, s: State, r: Resets, c: Content) {
    match c
    case Copied(_, stream, data) => Inflates(z, Emptied(s.streams, r), stream, data)
    case Indexed(stream, _, data) => Inflates(z, Emptied(s.streams, r), stream, data)
    case Slopes(stream, data) => Inflates(z, Emptied(s.streams, r), stream, data)
    case _ => true
  }

  function Drawing(s: State, c: Content, w: nat, h: nat): seq<Drawn>
    requires Writable(c, w, h)
  {
    match c
    case Solid(color) => [Fill(color)]
    case Photo(jpeg) => [Jpeg(jpeg)]
    case Copied(_, _, data) => if w == 0 || h == 0 then [] else [Pixels(0, data.bytes, s.palette, s.numColors)]
    case Indexed(_, colors, data) =>
      if w == 0 || h == 0 then [] else [Pixels(1, data.bytes, Stored(s, colors), |colors| / 3)]
    case Slopes(_, data) => if w == 0 || h == 0 then [] else [Pixels(2, data.bytes, s.palette, s.numColors)]
  }

  /** The state after: the palette is stored, and its colour count kept by a rectangle without an area. */
  function StateAfter(s: State, r: Resets, c: Content, w: nat, h: nat): State {
    var t := s.(streams := Emptied(s.streams, r));
    match c
    case Copied(_, stream, data) => t.(streams := Given(t.streams, stream, data))
    case Indexed(stream, colors, data) =>
      t.(streams := Given(t.streams, stream, data), palette := Stored(s, colors),
         numColors := if w == 0 || h == 0 then |colors| / 3 else 0)
    case Slopes(stream, data) => t.(streams := Given(t.streams, stream, data))
    case _ => t
  }

  /** The source reads a length only when three bytes are there. */
  predicate Readable(c: Content, w: nat, h: nat, x: seq<byte>)
    requires Writable(c, w, h)
  {
    match c
    case Solid(_) => true
    case Photo(jpeg) => |Lengthed(jpeg)| + |x| >= 3
    case Copied(_, _, data) => |data.bytes| >= 12 ==> |Lengthed(data.packed)| + |x| >= 3
    case Indexed(_, _, data) => |data.bytes| >= 12 ==> |Lengthed(data.packed)| + |x| >= 3
    case Slopes(_, data) => |data.bytes| >= 12 ==> |Lengthed(data.packed)| + |x| >= 3
  }

  // ---------------------------------------------------------------- the control byte

  lemma ControlByte(r: Resets, k: nat)
    requires k < 16
    ensures var b := 16 * k + ResetBits(r);
            && b < 256 && b / 16 == k && Bit(b, 0) == r.first && Bit(b, 1) == r.second && Bit(b, 2) == r.third
            && Bit(b, 3) == r.fourth
  {
    var n := ResetBits(r);
    assert (16 * k + n) / 2 == 8 * k + n / 2 && (16 * k + n) / 4 == 4 * k + n / 4 && (16 * k + n) / 8 == 2 * k + n / 8;
    assert n % 2 == Flag(r.first, 1) && n / 2 % 2 == Flag(r.second, 1);
    assert n / 4 % 2 == Flag(r.third, 1) && n / 8 == Flag(r.fourth, 1);
    hide ResetBits;
  }

  lemma RunStep(z: Zlib, s: State, w: nat, h: nat, q: seq<byte>)
    ensures var p := Step(z, s, w, h, q);
            && (p.More? ==> p.n <= |q| && Run(z, s, w, h, q) == Run(z, p.s, w, h, q[p.n..]))
            && (p.Done? ==> p.n <= |q| && Run(z, s, w, h, q) == Outcome(Rects.Finished, p.s, q[p.n..], p.drawn))
  {
    StepReads(z, s, w, h, q);
    hide Step;
  }

  lemma ControlTaken(z: Zlib, s: State, r: Resets, c: Content, w: nat, h: nat, x: seq<byte>)
    requires Writable(c, w, h) && Between(s)
    ensures Run(z, s, w, h, RectSent(r, c, w, h) + x)
         == Run(z, s.(ctl := Some(Kind(c)), streams := Emptied(s.streams, r)), w, h, ContentSent(c, w, h) + x)
  {
    hide Kind, ResetBits, Run, ContentSent, Writable, Emptied, ResetStreams, Step;
    var b := 16 * Kind(c) + ResetBits(r);
    ControlByte(r, Kind(c));
    var body := ContentSent(c, w, h) + x;
    var q := [b] + body;
    assert RectSent(r, c, w, h) + x == q;
    assert q[0] == b && q[1..] == body;
    ControlStep(z, s, w, h, q);
    StreamsEmptied(s.streams, r, Kind(c));
    RunStep(z, s, w, h, q);
  }

  lemma ControlStep(z: Zlib, s: State, w: nat, h: nat, q: seq<byte>)
    requires s.ctl.None? && |q| >= 1
    ensures Step(z, s, w, h, q) == More(s.(ctl := Some(q[0] / 16), streams := ResetStreams(s.streams, q[0])), 1)
  {
    hide ResetStreams, BasicStep, Compressed;
  }

  lemma StreamsEmptied(streams: Streams, r: Resets, k: nat)
    requires k < 16
    ensures 16 * k + ResetBits(r) < 256 && ResetStreams(streams, 16 * k + ResetBits(r)) == Emptied(streams, r)
  {
    ControlByte(r, k);
    hide ResetBits, Bit;
  }

  // ---------------------------------------------------------------- data

  lemma LengthTaken(d: seq<byte>, x: seq<byte>)
    requires Packable(d) && |Lengthed(d)| + |x| >= 3
    ensures var q := Lengthed(d) + x;
            && (|d| == 0 ==> Compressed(0, q) == Ready([], |q| - |x|) && q[|q| - |x|..] == x)
            && (|d| > 0 ==> Compressed(0, q) == Size(|d|, |Tight.LengthCode(|d|)|)
                            && q[|Tight.LengthCode(|d|)|..] == d + x && Compressed(|d|, d + x) == Ready(d, |d|))
  {
    var q := Lengthed(d) + x;
    assert q == Tight.LengthCode(|d|) + (d + x);
    Tight.LengthRoundTrip(|d|, d + x);
    hide Tight.LengthCode, Tight.ReadLength;
    assert (d + x)[..|d|] == d;
  }

  /** A photo after its control byte. */
  lemma PhotoTaken(z: Zlib, s: State, w: nat, h: nat, jpeg: seq<byte>, x: seq<byte>)
    requires Packable(jpeg) && |Lengthed(jpeg)| + |x| >= 3 && s.ctl == Some(9) && s.len == 0
    ensures Run(z, s, w, h, Lengthed(jpeg) + x) == Outcome(Rects.Finished, s.(ctl := None), x, [Jpeg(jpeg)])
  {
    var q := Lengthed(jpeg) + x;
    LengthTaken(jpeg, x);
    hide Lengthed, Compressed, Run;
    RunStep(z, s, w, h, q);
    if |jpeg| > 0 {
      assert (jpeg + x)[|jpeg|..] == x;
      RunStep(z, s.(len := |jpeg|), w, h, jpeg + x);
    }
  }

  /** A filter is at the point of its pixel data: every step there is `Filtered`. */
  ghost predicate AtData(z: Zlib, s: State, id: StreamId, filter: byte, need: nat, w: nat, h: nat) {
    forall len: nat, q: seq<byte> :: FilterStep(z, s, len, id, filter, need, w, h, q)
  }

  ghost predicate FilterStep(z: Zlib, s: State, len: nat, id: StreamId, filter: byte, need: nat, w: nat, h: nat,
                             q: seq<byte>)
  {
    Step(z, s.(len := len), w, h, q) == Filtered(z, s.(len := len), id, filter, need, q)
  }

  lemma DataTaken(z: Zlib, s: State, id: StreamId, filter: byte, d: Data, w: nat, h: nat, x: seq<byte>)
    requires s.len == 0 && AtData(z, s, id, filter, |d.bytes|, w, h) && Inflates(z, s.streams, id, d)
    requires Packable(d.packed) && (|d.bytes| >= 12 ==> |Lengthed(d.packed)| + |x| >= 3)
    ensures Run(z, s, w, h, DataSent(d) + x)
         == Outcome(Rects.Finished,
                    s.(ctl := None, filter := None, numColors := if filter == 1 then 0 else s.numColors,
                       streams := Given(s.streams, id, d)),
                    x, [Pixels(filter, d.bytes, s.palette, s.numColors)])
  {
    var need, q := |d.bytes|, DataSent(d) + x;
    assert s.(len := 0) == s && FilterStep(z, s, 0, id, filter, need, w, h, q);
    hide Step, Run;
    RunStep(z, s, w, h, q);
    if need < 12 {
      assert q[..need] == d.bytes && q[need..] == x;
    } else {
      LengthTaken(d.packed, x);
      hide Lengthed, Compressed;
      var n := |d.packed|;
      if n > 0 {
        var q2 := d.packed + x;
        assert FilterStep(z, s, n, id, filter, need, w, h, q2);
        RunStep(z, s.(len := n), w, h, q2);
        assert q2[n..] == x;
      }
    }
  }

  // ---------------------------------------------------------------- filters

  /** A filter other than the palette's, at its data. */
  lemma PlainAtData(z: Zlib, s: State, id: StreamId, filter: byte, w: nat, h: nat)
    requires s.filter == Some(filter) && (filter == 0 || filter == 2) && h * w > 0
    requires s.ctl.Some? && s.ctl.value < 8 && s.ctl.value % 4 == id
    ensures AtData(z, s, id, filter, 3 * (h * w), w, h)
  {
    hide Filtered, PaletteStep;
  }

  lemma PaletteAtData(z: Zlib, s: State, id: StreamId, w: nat, h: nat)
    requires s.filter == Some(1) && s.numColors > 0 && Tight.PaletteBytes(w, h, s.numColors) > 0
    requires s.ctl.Some? && s.ctl.value < 8 && s.ctl.value % 4 == id
    ensures AtData(z, s, id, 1, Tight.PaletteBytes(w, h, s.numColors), w, h)
  {
    hide Filtered, Tight.PaletteBytes;
  }

  /** Pixel data of a copy or gradient rectangle, its filter known; none if it has no area. */
  lemma PlainTaken(z: Zlib, s: State, id: StreamId, filter: byte, d: Data, w: nat, h: nat, x: seq<byte>)
    requires s.len == 0 && s.filter == Some(filter) && (filter == 0 || filter == 2)
    requires s.ctl.Some? && s.ctl.value < 8 && s.ctl.value % 4 == id
    requires |d.bytes| == 3 * (h * w) && Packable(d.packed) && (|d.bytes| >= 12 ==> |Lengthed(d.packed)| + |x| >= 3)
    requires Inflates(z, s.streams, id, d)
    ensures Run(z, s, w, h, DataSent(d) + x)
         == Outcome(Rects.Finished, s.(ctl := None, filter := None, streams := Given(s.streams, id, d)), x,
                    if h * w == 0 then [] else [Pixels(filter, d.bytes, s.palette, s.numColors)])
  {
    if h * w > 0 {
      PlainAtData(z, s, id, filter, w, h);
      hide Run, AtData, Inflates;
      DataTaken(z, s, id, filter, d, w, h, x);
    } else {
      assert d.bytes == [] && DataSent(d) + x == x && x[0..] == x;
      EmptyStep(z, s, filter, w, h, x);
      hide Run, Step;
      RunStep(z, s, w, h, x);
    }
  }

  lemma EmptyStep(z: Zlib, s: State, filter: byte, w: nat, h: nat, q: seq<byte>)
    requires s.filter == Some(filter) && (filter == 0 || filter == 2) && h * w == 0 && s.ctl.Some? && s.ctl.value < 8
    ensures Step(z, s, w, h, q) == Done(s.(ctl := None, filter := None), 0, [])
  {
    hide Filtered, PaletteStep;
  }

  /** The same of a palette rectangle, its colours known. */
  lemma IndicesTaken(z: Zlib, s: State, id: StreamId, d: Data, w: nat, h: nat, x: seq<byte>)
    requires s.len == 0 && s.filter == Some(1) && s.numColors > 0
    requires s.ctl.Some? && s.ctl.value < 8 && s.ctl.value % 4 == id
    requires |d.bytes| == Tight.PaletteBytes(w, h, s.numColors) && Packable(d.packed)
    requires (|d.bytes| >= 12 ==> |Lengthed(d.packed)| + |x| >= 3) && Inflates(z, s.streams, id, d)
    ensures Run(z, s, w, h, DataSent(d) + x)
         == Outcome(Rects.Finished,
                    s.(ctl := None, filter := None, numColors := if |d.bytes| == 0 then s.numColors else 0,
                       streams := Given(s.streams, id, d)), x,
                    if |d.bytes| == 0 then [] else [Pixels(1, d.bytes, s.palette, s.numColors)])
  {
    if |d.bytes| > 0 {
      PaletteAtData(z, s, id, w, h);
      hide Run, AtData, Inflates, Tight.PaletteBytes;
      DataTaken(z, s, id, 1, d, w, h, x);
    } else {
      assert d.bytes == [] && DataSent(d) + x == x && x[0..] == x;
      EmptyIndices(z, s, w, h, x);
      hide Run, Step;
      RunStep(z, s, w, h, x);
    }
  }

  lemma EmptyIndices(z: Zlib, s: State, w: nat, h: nat, q: seq<byte>)
    requires s.filter == Some(1) && s.numColors > 0 && Tight.PaletteBytes(w, h, s.numColors) == 0
    requires s.ctl.Some? && s.ctl.value < 8
    ensures Step(z, s, w, h, q) == Done(s.(ctl := None, filter := None), 0, [])
  {
    hide Filtered, Tight.PaletteBytes;
  }

  /** The byte that names the filter. */
  lemma FilterTaken(z: Zlib, s: State, filter: byte, w: nat, h: nat, x: seq<byte>)
    requires s.ctl.Some? && 4 <= s.ctl.value < 8 && s.filter.None?
    ensures Run(z, s, w, h, [filter] + x) == Run(z, s.(filter := Some(filter)), w, h, x)
  {
    var q := [filter] + x;
    assert q[0] == filter && q[1..] == x;
    assert Bit(s.ctl.value, 2);
    assert Step(z, s, w, h, q) == More(s.(filter := Some(filter)), 1) by { hide Filtered, PaletteStep; }
    hide Run, Step;
    RunStep(z, s, w, h, q);
  }

  /** Without one, the data are copied. */
  lemma NoFilterTaken(z: Zlib, s: State, w: nat, h: nat, x: seq<byte>)
    requires s.ctl.Some? && s.ctl.value < 4 && s.filter.None?
    ensures Run(z, s, w, h, x) == Run(z, s.(filter := Some(0)), w, h, x)
  {
    assert !Bit(s.ctl.value, 2);
    assert Step(z, s, w, h, x) == More(s.(filter := Some(0)), 0) by { hide Filtered, PaletteStep; }
    hide Run, Step;
    assert x[0..] == x;
    RunStep(z, s, w, h, x);
  }

  lemma ColorsTaken(z: Zlib, s: State, colors: seq<byte>, n: nat, w: nat, h: nat, x: seq<byte>)
    requires s.ctl.Some? && s.ctl.value < 8 && s.filter == Some(1) && s.numColors == 0
    requires |colors| == 3 * n && 1 <= n <= 256
    ensures Run(z, s, w, h, [n - 1] + (colors + x))
         == Run(z, s.(numColors := n, palette := Stored(s, colors)), w, h, x)
  {
    var q := [n - 1] + (colors + x);
    assert q[1..] == colors + x && q[1..1 + |colors|] == q[1..][..|colors|] == colors;
    assert q[1 + |colors|..] == q[1..][|colors|..] == x;
    ColorsStep(z, s, colors, n, w, h, q);
    hide Run, Step, Stored;
    RunStep(z, s, w, h, q);
  }

  lemma ColorsStep(z: Zlib, s: State, colors: seq<byte>, n: nat, w: nat, h: nat, q: seq<byte>)
    requires s.ctl.Some? && s.ctl.value < 8 && s.filter == Some(1) && s.numColors == 0
    requires |colors| == 3 * n && 1 <= n <= 256 && |q| > |colors| && q[0] == n - 1 && q[1..1 + |colors|] == colors
    ensures Step(z, s, w, h, q) == More(s.(numColors := n, palette := Stored(s, colors)), 1 + |colors|)
  {
    hide Filtered, Compressed;
  }

  // ---------------------------------------------------------------- rectangles

  lemma Area(w: nat, h: nat)
    ensures h * w == 0 <==> w == 0 || h == 0
    ensures w * h == h * w
  {
  }

  /** Bytes that a palette rectangle needs, by the number of its colours. */
  lemma IndexedNeed(stream: StreamId, colors: seq<byte>, d: Data, w: nat, h: nat)
    requires |colors| % 3 == 0 && 3 <= |colors|
    ensures Tight.PaletteBytes(w, h, |colors| / 3) == Need(Indexed(stream, colors, d), w, h)
    ensures Tight.PaletteBytes(w, h, |colors| / 3) == 0 <==> w == 0 || h == 0
  {
    AreaOfPalette(w, h, |colors| / 3);
    Area(w, h);
    Area((w + 7) / 8, h);
    assert (w * 8 + 7) / 8 == w;
  }

  lemma CopiedTaken(z: Zlib, s: State, named: bool, stream: StreamId, d: Data, w: nat, h: nat, x: seq<byte>)
    requires Writable(Copied(named, stream, d), w, h) && Readable(Copied(named, stream, d), w, h, x)
    requires s.ctl == Some(if named then 4 + stream else stream) && s.filter.None? && s.len == 0
    requires Inflates(z, s.streams, stream, d)
    ensures Run(z, s, w, h, ContentSent(Copied(named, stream, d), w, h) + x)
         == Outcome(Rects.Finished, s.(ctl := None, streams := Given(s.streams, stream, d)), x,
                    if w == 0 || h == 0 then [] else [Pixels(0, d.bytes, s.palette, s.numColors)])
  {
    Area(w, h);
    hide Run, Inflates, DataSent, Lengthed;
    var data := DataSent(d);
    if named {
      assert [0] + data + x == [0] + (data + x);
      FilterTaken(z, s, 0, w, h, data + x);
    } else {
      assert [] + data + x == data + x;
      NoFilterTaken(z, s, w, h, data + x);
    }
    PlainTaken(z, s.(filter := Some(0)), stream, 0, d, w, h, x);
  }

  lemma SlopesTaken(z: Zlib, s: State, stream: StreamId, d: Data, w: nat, h: nat, x: seq<byte>)
    requires Writable(Slopes(stream, d), w, h) && Readable(Slopes(stream, d), w, h, x)
    requires s.ctl == Some(4 + stream) && s.filter.None? && s.len == 0 && Inflates(z, s.streams, stream, d)
    ensures Run(z, s, w, h, ContentSent(Slopes(stream, d), w, h) + x)
         == Outcome(Rects.Finished, s.(ctl := None, streams := Given(s.streams, stream, d)), x,
                    if w == 0 || h == 0 then [] else [Pixels(2, d.bytes, s.palette, s.numColors)])
  {
    Area(w, h);
    hide Run, Inflates, DataSent, Lengthed;
    var data := DataSent(d);
    assert [2] + data + x == [2] + (data + x);
    FilterTaken(z, s, 2, w, h, data + x);
    PlainTaken(z, s.(filter := Some(2)), stream, 2, d, w, h, x);
  }

  lemma IndexedTaken(z: Zlib, s: State, stream: StreamId, colors: seq<byte>, d: Data, w: nat, h: nat, x: seq<byte>)
    requires Writable(Indexed(stream, colors, d), w, h) && Readable(Indexed(stream, colors, d), w, h, x)
    requires s.ctl == Some(4 + stream) && s.filter.None? && s.len == 0 && s.numColors == 0
    requires Inflates(z, s.streams, stream, d)
    ensures Run(z, s, w, h, ContentSent(Indexed(stream, colors, d), w, h) + x)
         == Outcome(Rects.Finished,
                    s.(ctl := None, numColors := if w == 0 || h == 0 then |colors| / 3 else 0,
                       palette := Stored(s, colors), streams := Given(s.streams, stream, d)), x,
                    if w == 0 || h == 0 then [] else [Pixels(1, d.bytes, Stored(s, colors), |colors| / 3)])
  {
    var n := |colors| / 3;
    assert |colors| == 3 * n;
    IndexedNeed(stream, colors, d, w, h);
    hide Run, Inflates, DataSent, Lengthed, Tight.PaletteBytes, Need, Stored, Given;
    PaletteThenData(z, s, stream, colors, n, d, w, h, x);
  }

  lemma PaletteThenData(z: Zlib, s: State, id: StreamId, colors: seq<byte>, n: nat, d: Data, w: nat, h: nat,
                        x: seq<byte>)
    requires s.ctl == Some(4 + id) && s.filter.None? && s.len == 0 && s.numColors == 0
    requires |colors| == 3 * n && 1 <= n <= 256 && |d.bytes| == Tight.PaletteBytes(w, h, n) && Packable(d.packed)
    requires (|d.bytes| >= 12 ==> |Lengthed(d.packed)| + |x| >= 3) && Inflates(z, s.streams, id, d)
    ensures Run(z, s, w, h, [1] + ([n - 1] + (colors + DataSent(d))) + x)
         == Outcome(Rects.Finished,
                    s.(ctl := None, numColors := if |d.bytes| == 0 then n else 0, palette := Stored(s, colors),
                       streams := Given(s.streams, id, d)), x,
                    if |d.bytes| == 0 then [] else [Pixels(1, d.bytes, Stored(s, colors), n)])
  {
    hide Run, Inflates, DataSent, Lengthed, Tight.PaletteBytes, Stored, Given;
    var data := DataSent(d);
    Nested([1], [n - 1], colors, data, x);
    FilterTaken(z, s, 1, w, h, [n - 1] + (colors + (data + x)));
    var t := s.(filter := Some(1));
    StoredAlike(s, t, colors);
    ColorsTaken(z, t, colors, n, w, h, data + x);
    IndicesTaken(z, t.(numColors := n, palette := Stored(t, colors)), id, d, w, h, x);
  }

  lemma StoredAlike(s: State, t: State, colors: seq<byte>)
    requires s.palette == t.palette
    ensures Stored(s, colors) == Stored(t, colors)
  {
  }

  lemma Nested(a: seq<byte>, b: seq<byte>, c: seq<byte>, d: seq<byte>, x: seq<byte>)
    ensures a + (b + (c + d)) + x == a + (b + (c + (d + x)))
  {
  }

  /**
   * For every rectangle, decoding its bytes finishes, leaves what follows, and makes exactly its
   * drawing; exactly the streams it names are emptied, and its compressed data goes to its own.
   */
  lemma RectIsDrawn(z: Zlib, s: State, r: Resets, c: Content, w: nat, h: nat, x: seq<byte>)
    requires Writable(c, w, h) && Readable(c, w, h, x) && Sound(z, s, r, c)
    requires Between(s) && (c.Indexed? ==> s.numColors == 0)
    ensures Run(z, s, w, h, RectSent(r, c, w, h) + x)
         == Outcome(Rects.Finished, StateAfter(s, r, c, w, h), x, Drawing(s, c, w, h))
    ensures Between(StateAfter(s, r, c, w, h))
  {
    ControlTaken(z, s, r, c, w, h, x);
    hide Run, Emptied, RectSent, Inflates, Given, Stored, Writable, Readable, ContentSent;
    var t := s.(ctl := Some(Kind(c)), streams := Emptied(s.streams, r));
    match c
    case Solid(color) => SolidTaken(z, t, color, w, h, x);
    case Photo(jpeg) => PhotoShown(z, t, w, h, jpeg, x);
    case Copied(named, stream, data) => CopiedTaken(z, t, named, stream, data, w, h, x);
    case Indexed(stream, colors, data) => IndexedTaken(z, t, stream, colors, data, w, h, x);
    case Slopes(stream, data) => SlopesTaken(z, t, stream, data, w, h, x);
  }

  lemma SolidTaken(z: Zlib, s: State, color: seq<byte>, w: nat, h: nat, x: seq<byte>)
    requires Writable(Solid(color), w, h) && s.ctl == Some(8)
    ensures Run(z, s, w, h, ContentSent(Solid(color), w, h) + x)
         == Outcome(Rects.Finished, s.(ctl := None), x, [Fill(color)])
  {
    var q := color + x;
    assert q[..3] == color && q[3..] == x;
    hide Run;
    RunStep(z, s, w, h, q);
  }

  lemma PhotoShown(z: Zlib, s: State, w: nat, h: nat, jpeg: seq<byte>, x: seq<byte>)
    requires Writable(Photo(jpeg), w, h) && Readable(Photo(jpeg), w, h, x) && s.ctl == Some(9) && s.len == 0
    ensures Run(z, s, w, h, ContentSent(Photo(jpeg), w, h) + x)
         == Outcome(Rects.Finished, s.(ctl := None), x, [Jpeg(jpeg)])
  {
    hide Run, Lengthed;
    PhotoTaken(z, s, w, h, jpeg, x);
  }
}
