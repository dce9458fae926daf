/**
 * The ZRLE decoder: tiles of raw, packed-palette and run-length data, read from the output of
 * an inflator. What zlib makes of the compressed bytes is an abstract byte sequence.
 */
module Zrle {
  import Arith
  import opened Bytes
  import opened Rects
  import opened Websock

  /** The inflator's output that has not been read; asking for more than is left throws. */
  class Inflator {
    var output: seq<byte>

    constructor ()
      ensures output == []
    {
      output := [];
    }

    method Inflate(n: nat) returns (r: Option<seq<byte>>)
      modifies this
      ensures if n <= |old(output)| then r == Some(old(output)[..n]) && output == old(output)[n..]
              else r == None && output == old(output)
    {
      if n > |output| {
        return None;
      }
      r := Some(output[..n]);
      output := output[n..];
    }
  }

  type Pixel = p: seq<byte> | |p| == 4 witness [0, 0, 0, 0]

  function OpaquePixel(data: seq<byte>, k: nat): Pixel
    requires 3 * k + 3 <= |data|
  {
    [data[3 * k], data[3 * k + 1], data[3 * k + 2], 255]
  }

  /** A buffer whose first `n` pixels are those of RGB data, and whose others are as before. */
  ghost predicate PixelsRead(before: seq<byte>, after: seq<byte>, data: seq<byte>, n: nat) {
    && |after| == |before| && 4 * n <= |after| && 3 * n <= |data|
    && (forall k | 0 <= k < n :: PixelOf(after, k) == OpaquePixel(data, k))
    && after[4 * n..] == before[4 * n..]
  }

  // ---------------------------------------------------------------- run lengths

  datatype Parsed<+T> = Fail | Parsed(value: T, rest: seq<byte>)

  /** `_readRLELength`: bytes of 255 continue, the first other byte ends. */
  function ReadLength(s: seq<byte>): (p: Parsed<nat>)
    ensures p.Parsed? ==> p.value > 0 && |p.rest| < |s|
  {
    if |s| == 0 then Fail
    else if s[0] == 255 then
      var p := ReadLength(s[1..]);
      if p.Fail? then Fail else Parsed(p.value + 255, p.rest)
    else Parsed(s[0] as int + 1, s[1..])
  }

  /** The code of RFC 6143, section 7.7.6, for a run of `n` pixels. */
  function LengthCode(n: nat): seq<byte>
    requires n > 0
  {
    if n > 255 then [255] + LengthCode(n - 255) else [n - 1]
  }

  lemma {:induction false} LengthRoundTrip(n: nat, rest: seq<byte>)
    requires n > 0
    ensures ReadLength(LengthCode(n) + rest) == Parsed(n, rest)
    decreases n
  {
    if n > 255 {
      LengthRoundTrip(n - 255, rest);
      assert (LengthCode(n) + rest)[1..] == LengthCode(n - 255) + rest;
    } else {
      assert ([n - 1] + rest)[1..] == rest;
    }
  }

  /** No other bytes read as the same length. */
  lemma {:induction false} LengthCodeIsOnly(s: seq<byte>)
    requires ReadLength(s).Parsed?
    ensures s == LengthCode(ReadLength(s).value) + ReadLength(s).rest
  {
    var p := ReadLength(s);
    if s[0] == 255 {
      LengthCodeIsOnly(s[1..]);
      assert s == [255] + s[1..];
    } else {
      assert s == [s[0]] + s[1..];
    }
  }

  function Repeat(p: Pixel, n: nat): (t: seq<Pixel>)
    ensures |t| == n
  {
    seq(n, _ => p)
  }

  function Joined(done: seq<Pixel>, p: Parsed<seq<Pixel>>): Parsed<seq<Pixel>> {
    if p.Fail? then Fail else Parsed(done + p.value, p.rest)
  }

  // ---------------------------------------------------------------- plain runs

  /** The pixels of `_decodeRLETile`; the last run may reach past the tile. */
  function PlainRuns(s: seq<byte>, n: int): (p: Parsed<seq<Pixel>>)
    ensures p.Parsed? ==> |p.value| >= n
    decreases |s|
  {
    if n <= 0 then Parsed([], s)
    else if |s| < 3 then Fail
    else
      var l := ReadLength(s[3..]);
      if l.Fail? then Fail else Joined(Repeat(OpaquePixel(s, 0), l.value), PlainRuns(l.rest, n - l.value))
  }

  /** A run of one colour, as three bytes or as a palette index. */
  datatype Run<T> = Run(of: T, length: nat)

  type Color = c: seq<byte> | |c| == 3 witness [0, 0, 0]

  function EncodePlain(runs: seq<Run<Color>>): seq<byte>
    requires forall r | r in runs :: r.length > 0
  {
    if |runs| == 0 then [] else runs[0].of + LengthCode(runs[0].length) + EncodePlain(runs[1..])
  }

  function ExpandPlain(runs: seq<Run<Color>>): seq<Pixel> {
    if |runs| == 0 then [] else Repeat(OpaquePixel(runs[0].of, 0), runs[0].length) + ExpandPlain(runs[1..])
  }

  /** Any division of a tile into runs decodes to the tile. */
  lemma {:induction false} PlainRoundTrip(runs: seq<Run<Color>>, rest: seq<byte>)
    requires forall r | r in runs :: r.length > 0
    ensures PlainRuns(EncodePlain(runs) + rest, |ExpandPlain(runs)|) == Parsed(ExpandPlain(runs), rest)
  {
    if |runs| == 0 {
      assert [] + rest == rest;
    } else {
      var s := EncodePlain(runs) + rest;
      var tail := EncodePlain(runs[1..]) + rest;
      var code := LengthCode(runs[0].length);
      assert s == runs[0].of + (code + tail);
      assert s[..3] == runs[0].of && s[3..] == code + tail;
      assert OpaquePixel(s, 0) == OpaquePixel(runs[0].of, 0);
      LengthRoundTrip(runs[0].length, tail);
      PlainRoundTrip(runs[1..], rest);
    }
  }

  /** A tile's own runs, each as long as it goes. */
  function RunsOf(colors: seq<Color>): (runs: seq<Run<Color>>)
    ensures forall r | r in runs :: r.length > 0
  {
    if |colors| == 0 then []
    else
      var runs := RunsOf(colors[1..]);
      if |runs| > 0 && runs[0].of == colors[0]
      then [Run(colors[0], runs[0].length + 1)] + runs[1..]
      else [Run(colors[0], 1)] + runs
  }

  function OpaqueTile(colors: seq<Color>): (t: seq<Pixel>)
    ensures |t| == |colors|
  {
    if |colors| == 0 then [] else [OpaquePixel(colors[0], 0)] + OpaqueTile(colors[1..])
  }

  lemma {:induction false} RunsExpand(colors: seq<Color>)
    ensures ExpandPlain(RunsOf(colors)) == OpaqueTile(colors)
  {
    if |colors| > 0 {
      RunsExpand(colors[1..]);
      var runs := RunsOf(colors[1..]);
      var p := OpaquePixel(colors[0], 0);
      if |runs| > 0 && runs[0].of == colors[0] {
        assert Repeat(p, runs[0].length + 1) == [p] + Repeat(p, runs[0].length);
        assert ([Run(colors[0], runs[0].length + 1)] + runs[1..])[1..] == runs[1..];
      } else {
        assert Repeat(p, 1) == [p];
        assert ([Run(colors[0], 1)] + runs)[1..] == runs;
      }
    }
  }

  /** ZRLE run-length round trip: every tile comes back from its plain run-length encoding. */
  lemma TileRoundTrip(colors: seq<Color>, rest: seq<byte>)
    ensures PlainRuns(EncodePlain(RunsOf(colors)) + rest, |colors|) == Parsed(OpaqueTile(colors), rest)
  {
    RunsExpand(colors);
    PlainRoundTrip(RunsOf(colors), rest);
  }

  // ---------------------------------------------------------------- palette runs

  /** The next run: an index, with its length when the top bit is set; both are checked. */
  function FirstRun(s: seq<byte>, n: nat, size: nat): (p: Parsed<Run<nat>>)
    ensures p.Parsed? ==> p.value.of < 128 && 0 < p.value.length <= n && |p.rest| < |s|
  {
    if |s| == 0 then Fail
    else
      var index: nat := if s[0] >= 128 then s[0] - 128 else s[0];
      var l := if s[0] >= 128 then ReadLength(s[1..]) else Parsed(1, s[1..]);
      if l.Fail? || index > size || l.value > n then Fail else Parsed(Run(index, l.value), l.rest)
  }

  /** The pixels of `_decodeRLEPaletteTile`, whose palette is the front of a pixel buffer. */
  function PaletteRuns(s: seq<byte>, n: nat, palette: seq<byte>, size: nat): (p: Parsed<seq<Pixel>>)
    requires |palette| >= 512
    ensures p.Parsed? ==> |p.value| == n
    decreases |s|
  {
    if n == 0 then Parsed([], s)
    else
      var r := FirstRun(s, n, size);
      if r.Fail? then Fail
      else Joined(Repeat(PixelOf(palette, r.value.of), r.value.length),
                  PaletteRuns(r.rest, n - r.value.length, palette, size))
  }

  function EncodePaletteRuns(runs: seq<Run<byte>>): seq<byte>
    requires forall r | r in runs :: r.length > 0 && r.of < 128
  {
    if |runs| == 0 then []
    else
      PaletteCode(runs[0]) + EncodePaletteRuns(runs[1..])
  }

  function PaletteCode(r: Run<byte>): seq<byte>
    requires r.length > 0 && r.of < 128
  {
    if r.length == 1 then [r.of] else [r.of + 128] + LengthCode(r.length)
  }

  lemma PaletteRunRead(r: Run<byte>, tail: seq<byte>, n: nat, palette: seq<byte>, size: nat)
    requires |palette| >= 512 && size <= 127 && r.length > 0 && r.of < size
    ensures PaletteRuns(PaletteCode(r) + tail, r.length + n, palette, size)
         == Joined(Repeat(PixelOf(palette, r.of), r.length), PaletteRuns(tail, n, palette, size))
  {
    var s := PaletteCode(r) + tail;
    if r.length == 1 {
      assert s[1..] == tail;
    } else {
      assert s[1..] == LengthCode(r.length) + tail;
      LengthRoundTrip(r.length, tail);
    }
    hide Repeat, PixelOf, ReadLength, LengthCode;
  }

  function ExpandPaletteRuns(runs: seq<Run<byte>>, palette: seq<byte>): seq<Pixel>
    requires |palette| >= 512 && forall r | r in runs :: r.of < 128
  {
    if |runs| == 0 then []
    else Repeat(PixelOf(palette, runs[0].of), runs[0].length) + ExpandPaletteRuns(runs[1..], palette)
  }

  lemma FirstOfRuns(runs: seq<Run<byte>>, palette: seq<byte>, rest: seq<byte>)
    requires |runs| > 0 && |palette| >= 512 && forall r | r in runs :: r.length > 0 && r.of < 128
    ensures EncodePaletteRuns(runs) + rest == PaletteCode(runs[0]) + (EncodePaletteRuns(runs[1..]) + rest)
    ensures ExpandPaletteRuns(runs, palette)
        == Repeat(PixelOf(palette, runs[0].of), runs[0].length) + ExpandPaletteRuns(runs[1..], palette)
  {
    hide PaletteCode, PixelOf, Repeat;
  }

  lemma {:induction false} PaletteRoundTrip(runs: seq<Run<byte>>, palette: seq<byte>, size: nat, rest: seq<byte>)
    requires |palette| >= 512 && size <= 127
    requires forall r | r in runs :: r.length > 0 && r.of < size
    ensures var tile := ExpandPaletteRuns(runs, palette);
            PaletteRuns(EncodePaletteRuns(runs) + rest, |tile|, palette, size) == Parsed(tile, rest)
  {
    if |runs| == 0 {
      assert [] + rest == rest;
    } else {
      hide *;
      var tail := EncodePaletteRuns(runs[1..]) + rest;
      var tile := ExpandPaletteRuns(runs[1..], palette);
      FirstOfRuns(runs, palette, rest);
      PaletteRoundTrip(runs[1..], palette, size, rest);
      PaletteRunRead(runs[0], tail, |tile|, palette, size);
      JoinedIs(Repeat(PixelOf(palette, runs[0].of), runs[0].length), tile, rest);
    }
  }

  lemma JoinedIs(done: seq<Pixel>, tile: seq<Pixel>, rest: seq<byte>)
    ensures Joined(done, Parsed(tile, rest)) == Parsed(done + tile, rest)
  {
  }

  // ---------------------------------------------------------------- which palette entries a tile shows

  /** The runs of a tile, which are read without a look at the palette's colours. */
  function RunList(s: seq<byte>, n: nat, size: nat): (p: Parsed<seq<Run<nat>>>)
    ensures p.Parsed? ==> forall r | r in p.value :: r.length > 0 && r.of < 128
    decreases |s|
  {
    if n == 0 then Parsed([], s)
    else
      var r := FirstRun(s, n, size);
      if r.Fail? then Fail
      else
        var p := RunList(r.rest, n - r.value.length, size);
        if p.Fail? then Fail else Parsed([r.value] + p.value, p.rest)
  }

  function ExpandRuns(runs: seq<Run<nat>>, palette: seq<byte>): seq<Pixel>
    requires |palette| >= 512 && forall r | r in runs :: r.of < 128
  {
    if |runs| == 0 then [] else Repeat(PixelOf(palette, runs[0].of), runs[0].length) + ExpandRuns(runs[1..], palette)
  }

  lemma {:induction false} PaletteRunsAreRuns(s: seq<byte>, n: nat, palette: seq<byte>, size: nat)
    requires |palette| >= 512
    ensures var p, l := PaletteRuns(s, n, palette, size), RunList(s, n, size);
            if l.Fail? then p.Fail? else p == Parsed(ExpandRuns(l.value, palette), l.rest)
    decreases |s|
  {
    if n > 0 && FirstRun(s, n, size).Parsed? {
      var r := FirstRun(s, n, size);
      hide FirstRun, Repeat, PixelOf;
      PaletteRunsAreRuns(r.rest, n - r.value.length, palette, size);
      var p := RunList(r.rest, n - r.value.length, size);
      assert p.Parsed? ==> ([r.value] + p.value)[1..] == p.value;
    }
  }

  /** A colour that the palette has. */
  ghost predicate Has(palette: seq<byte>, size: nat, p: Pixel)
    requires |palette| >= 512 && size <= 127
  {
    exists k: nat | k < size :: p == PixelOf(palette, k)
  }

  ghost predicate AllHad(palette: seq<byte>, size: nat, tile: seq<Pixel>)
    requires |palette| >= 512 && size <= 127
  {
    forall p | p in tile :: Has(palette, size, p)
  }

  /** A palette buffer that has nothing behind the palette in common with it. */
  function Marked(size: nat): (palette: seq<byte>)
    ensures |palette| == 512
  {
    seq(512, j => if 4 * size <= j then 1 else 0)
  }

  lemma MarkedHasNot(size: nat, k: nat)
    requires size <= k <= 127
    ensures !Has(Marked(size), size, PixelOf(Marked(size), k))
  {
    forall i: nat | i < size ensures PixelOf(Marked(size), k) != PixelOf(Marked(size), i) {
      assert PixelOf(Marked(size), k)[0] == 1 && PixelOf(Marked(size), i)[0] == 0;
    }
  }

  /** An accepted run of any kind names an entry of the palette exactly when its index is not the palette's size. */
  lemma IndexAcceptedExactlyWhen(s: seq<byte>, n: nat, size: nat)
    requires size <= 127 && FirstRun(s, n, size).Parsed?
    ensures (forall palette: seq<byte> | |palette| >= 512
        :: Has(palette, size, PixelOf(palette, FirstRun(s, n, size).value.of)))
       <==> FirstRun(s, n, size).value.of != size
  {
    MarkedHasNot(size, size);
    assert FirstRun(s, n, size).value.of <= size;
    hide FirstRun, PixelOf, Marked;
  }

  lemma {:induction false} RunsBounded(s: seq<byte>, n: nat, size: nat)
    requires RunList(s, n, size).Parsed?
    ensures forall r | r in RunList(s, n, size).value :: r.of <= size
    decreases |s|
  {
    if n > 0 {
      var r := FirstRun(s, n, size);
      assert r.value.of <= size;
      hide FirstRun;
      RunsBounded(r.rest, n - r.value.length, size);
    }
  }

  lemma {:induction false} ExpandedHad(runs: seq<Run<nat>>, palette: seq<byte>, size: nat)
    requires |palette| >= 512 && size <= 127 && forall r | r in runs :: r.of < size
    ensures AllHad(palette, size, ExpandRuns(runs, palette))
  {
    if |runs| > 0 {
      ExpandedHad(runs[1..], palette, size);
      assert Has(palette, size, PixelOf(palette, runs[0].of));
      hide PixelOf;
    }
  }

  lemma {:induction false} ExpandedShows(runs: seq<Run<nat>>, palette: seq<byte>, r: Run<nat>)
    requires |palette| >= 512 && (forall q | q in runs :: q.of < 128) && r in runs && r.length > 0
    ensures PixelOf(palette, r.of) in ExpandRuns(runs, palette)
  {
    if runs[0] == r {
      assert Repeat(PixelOf(palette, r.of), r.length)[0] == PixelOf(palette, r.of);
    } else {
      ExpandedShows(runs[1..], palette, r);
    }
    hide PixelOf;
  }

  /** The tile is accepted, and its colours are the palette's. */
  ghost predicate ShowsOwn(s: seq<byte>, n: nat, palette: seq<byte>, size: nat)
    requires |palette| >= 512 && size <= 127
  {
    PaletteRuns(s, n, palette, size).Parsed? && AllHad(palette, size, PaletteRuns(s, n, palette, size).value)
  }

  /**
   * The check on the index lets one value too many through. An accepted tile shows nothing but
   * colours of its palette, whatever the buffer holds behind the palette, exactly when no run's
   * index is the palette's size.
   */
  lemma OwnColorsExactlyWhen(s: seq<byte>, n: nat, size: nat)
    requires size <= 127 && RunList(s, n, size).Parsed?
    ensures (forall palette: seq<byte> | |palette| >= 512 :: ShowsOwn(s, n, palette, size))
       <==> (forall r | r in RunList(s, n, size).value :: r.of != size)
  {
    var runs := RunList(s, n, size).value;
    RunsBounded(s, n, size);
    forall palette: seq<byte> | |palette| >= 512
      ensures PaletteRuns(s, n, palette, size) == Parsed(ExpandRuns(runs, palette), RunList(s, n, size).rest)
    {
      PaletteRunsAreRuns(s, n, palette, size);
    }
    hide RunList, PaletteRuns, ExpandRuns, AllHad;
    if r :| r in runs && r.of == size {
      ExpandedShows(runs, Marked(size), r);
      NotAllHad(size, ExpandRuns(runs, Marked(size)));
    } else {
      forall palette: seq<byte> | |palette| >= 512
        ensures ShowsOwn(s, n, palette, size)
      {
        ExpandedHad(runs, palette, size);
      }
    }
  }

  lemma NotAllHad(size: nat, tile: seq<Pixel>)
    requires size <= 127 && PixelOf(Marked(size), size) in tile
    ensures !AllHad(Marked(size), size, tile)
  {
    MarkedHasNot(size, size);
    hide Has, PixelOf;
  }

  /** It happens: two bytes paint three pixels with an entry that a palette of three does not have. */
  lemma StaleEntryShown(palette: seq<byte>)
    requires |palette| >= 512
    ensures var p := PixelOf(palette, 3); PaletteRuns([131, 2], 3, palette, 3) == Parsed([p, p, p], [])
  {
    var s: seq<byte> := [131, 2];
    assert s[1..] == [2] && [2][1..] == [];
    assert ReadLength([2]) == Parsed(3, []);
    assert FirstRun(s, 3, 3) == Parsed(Run(3, 3), []);
    assert PaletteRuns([], 0, palette, 3) == Parsed([], []);
    var p := PixelOf(palette, 3);
    assert Repeat(p, 3) + [] == [p, p, p];
    hide PixelOf;
  }

  // ---------------------------------------------------------------- packed palettes

  /** `_getBitsPerPixelInPalette`. */
  function BitsPerPixel(size: nat): (b: nat)
    requires size <= 16
    ensures b == 1 || b == 2 || b == 4
  {
    if size <= 2 then 1 else if size <= 4 then 2 else 4
  }

  function PixelsPerByte(bits: nat): nat
    requires bits == 1 || bits == 2 || bits == 4
  {
    if bits == 1 then 8 else if bits == 2 then 4 else 2
  }

  /** `1 << k`. */
  function Power(k: nat): (p: nat)
    ensures p > 0
  {
    if k == 0 then 1 else 2 * Power(k - 1)
  }

  /** `(encoded >> shift) & mask`. */
  function Masked(encoded: byte, shift: nat, bits: nat): nat {
    (encoded as int / Power(shift)) % Power(bits)
  }

  /** A row starts a byte of its own, and takes as many as its pixels need. */
  function RowBytes(width: nat, bits: nat): nat
    requires bits == 1 || bits == 2 || bits == 4
  {
    (width * bits + 7) / 8
  }

  function PackedBytes(width: nat, height: nat, bits: nat): nat
    requires bits == 1 || bits == 2 || bits == 4
  {
    height * RowBytes(width, bits)
  }

  /** The palette index of pixel `x` in the bytes of its row: its own bit field, from the top. */
  function IndexOf(row: seq<byte>, x: nat, bits: nat): (k: nat)
    requires bits == 1 || bits == 2 || bits == 4
    requires x / PixelsPerByte(bits) < |row|
    ensures k < 16
  {
    var per := PixelsPerByte(bits);
    MaskedIsSmall(row[x / per], 8 - bits * (x % per + 1), bits);
    Masked(row[x / per], 8 - bits * (x % per + 1), bits)
  }

  lemma MaskedIsSmall(encoded: byte, shift: nat, bits: nat)
    requires bits == 1 || bits == 2 || bits == 4
    ensures Masked(encoded, shift, bits) < 16
  {
    assert Power(1) == 2 && Power(2) == 4 && Power(3) == 8 && Power(4) == 16;
  }

  /** The first `n` pixels of a row, from pixel `base` of the tile on, are the entries their fields name. */
  ghost predicate RowDecoded(tile: seq<byte>, palette: seq<byte>, row: seq<byte>, base: nat, n: nat, bits: nat)
    requires bits == 1 || bits == 2 || bits == 4
  {
    forall x: nat | x < n :: PixelDecoded(tile, palette, row, base, x, bits)
  }

  ghost predicate PixelDecoded(tile: seq<byte>, palette: seq<byte>, row: seq<byte>, base: nat, x: nat, bits: nat)
    requires bits == 1 || bits == 2 || bits == 4
  {
    && 4 * (base + x) + 4 <= |tile| && 64 <= |palette| && x / PixelsPerByte(bits) < |row|
    && PixelOf(tile, base + x) == PixelOf(palette, IndexOf(row, x, bits))
  }

  lemma RowBytesIs(width: nat, bits: nat, q: nat, k: nat)
    requires bits == 1 || bits == 2 || bits == 4
    requires width == PixelsPerByte(bits) * q + k && 1 <= k <= PixelsPerByte(bits)
    ensures RowBytes(width, bits) == q + 1
  {
  }

  lemma PositionIs(x: nat, bits: nat, q: nat, k: nat)
    requires bits == 1 || bits == 2 || bits == 4
    requires x == PixelsPerByte(bits) * q + k && k < PixelsPerByte(bits)
    ensures x / PixelsPerByte(bits) == q && x % PixelsPerByte(bits) == k
  {
  }

  /** A decoded pixel stays decoded when the row's later bytes come and later pixels are written. */
  lemma PixelStays(before: seq<byte>, after: seq<byte>, palette: seq<byte>, known: seq<byte>, row: seq<byte>, base: nat,
                   x: nat, n: nat, bits: nat)
    requires bits == 1 || bits == 2 || bits == 4
    requires PixelDecoded(before, palette, known, base, x, bits) && |after| == |before| && known <= row
    requires x < n && 4 * (base + n) <= |after| && after[..4 * (base + n)] == before[..4 * (base + n)]
    ensures PixelDecoded(after, palette, row, base, x, bits)
  {
    assert row[x / PixelsPerByte(bits)] == known[x / PixelsPerByte(bits)];
    assert IndexOf(row, x, bits) == IndexOf(known, x, bits);
    SamePixel(before, after, base + x, 4 * (base + n));
    hide PixelOf, IndexOf;
  }

  lemma SamePixel(before: seq<byte>, after: seq<byte>, k: nat, n: nat)
    requires n <= |before| == |after| && before[..n] == after[..n] && 4 * k + 4 <= n
    ensures PixelOf(before, k) == PixelOf(after, k)
  {
    assert PixelOf(before, k) == before[..n][4 * k..4 * k + 4];
    assert PixelOf(after, k) == after[..n][4 * k..4 * k + 4];
  }

  const BUFFER: nat := 16384

  // ---------------------------------------------------------------- what a tile's bytes mean

  /** A buffer with the first `n` pixels of RGB data at its front. */
  function ReadInto(before: seq<byte>, data: seq<byte>, n: nat): (after: seq<byte>)
    requires 4 * n <= |before| && 3 * n <= |data|
    ensures |after| == |before|
  {
    seq(|before|, (j: nat) requires j < |before| => if j < 4 * n then OpaquePixel(data, j / 4)[j % 4] else before[j])
  }

  lemma PixelsReadIs(before: seq<byte>, after: seq<byte>, data: seq<byte>, n: nat)
    requires PixelsRead(before, after, data, n)
    ensures after == ReadInto(before, data, n)
  {
    forall j | 0 <= j < |after| ensures after[j] == ReadInto(before, data, n)[j] {
      if j < 4 * n {
        assert PixelOf(after, j / 4)[j % 4] == after[j];
        assert PixelOf(after, j / 4) == OpaquePixel(data, j / 4);
      } else {
        assert after[j] == after[4 * n..][j - 4 * n] && before[j] == before[4 * n..][j - 4 * n];
      }
    }
  }

  function OpaquePixels(data: seq<byte>, n: nat): (pixels: seq<Pixel>)
    requires 3 * n <= |data|
    ensures |pixels| == n
  {
    seq(n, (k: nat) requires k < n => OpaquePixel(data, k))
  }

  /** The bits of pixel `x` of row `y` are there. */
  predicate HasIndex(source: seq<byte>, x: nat, y: nat, width: nat, bits: nat)
    requires bits == 1 || bits == 2 || bits == 4
  {
    x / PixelsPerByte(bits) < |RowOf(source, y, RowBytes(width, bits))|
  }

  /** The palette index in those bits. */
  function PackedIndex(source: seq<byte>, x: nat, y: nat, width: nat, bits: nat): (k: nat)
    requires bits == 1 || bits == 2 || bits == 4
    requires HasIndex(source, x, y, width, bits)
    ensures k < 16
  {
    IndexOf(RowOf(source, y, RowBytes(width, bits)), x, bits)
  }

  function PackedPixel(palette: seq<byte>, source: seq<byte>, x: nat, y: nat, width: nat, bits: nat): Pixel
    requires bits == 1 || bits == 2 || bits == 4
  {
    if HasIndex(source, x, y, width, bits) && |palette| >= 64
    then PixelOf(palette, PackedIndex(source, x, y, width, bits)) else [0, 0, 0, 0]
  }

  function PackedPixels(palette: seq<byte>, source: seq<byte>, width: nat, height: nat, bits: nat): (pixels: seq<Pixel>)
    requires width > 0 && (bits == 1 || bits == 2 || bits == 4)
    ensures |pixels| == width * height
  {
    seq(width * height, (k: nat) => PackedPixel(palette, source, k % width, k / width, width, bits))
  }

  lemma IndexIsThere(source: seq<byte>, x: nat, y: nat, width: nat, height: nat, bits: nat)
    requires bits == 1 || bits == 2 || bits == 4
    requires x < width && y < height && PackedBytes(width, height, bits) <= |source|
    ensures HasIndex(source, x, y, width, bits)
  {
    var rb := RowBytes(width, bits);
    assert x / PixelsPerByte(bits) < rb;
    Arith.Distribute(y, 1, rb);
    Arith.MulLe(y + 1, height, rb);
    hide RowBytes;
  }

  /** The palette index of pixel `k` of a tile. */
  function TileIndex(source: seq<byte>, k: nat, width: nat, bits: nat): (index: nat)
    requires width > 0 && (bits == 1 || bits == 2 || bits == 4)
    ensures index < 16
  {
    if HasIndex(source, k % width, k / width, width, bits)
    then PackedIndex(source, k % width, k / width, width, bits) else 0
  }

  /** Every pixel of a tile of packed indices names an entry of the palette. */
  ghost predicate AllNamed(source: seq<byte>, width: nat, n: nat, bits: nat, size: nat)
    requires width > 0 && (bits == 1 || bits == 2 || bits == 4)
  {
    forall k: nat | k < n :: TileIndex(source, k, width, bits) < size
  }

  lemma PackedPixelOf(palette: seq<byte>, source: seq<byte>, k: nat, width: nat, height: nat, bits: nat)
    requires (bits == 1 || bits == 2 || bits == 4) && k < width * height && 0 < width
    ensures PackedPixels(palette, source, width, height, bits)[k]
         == PackedPixel(palette, source, k % width, k / width, width, bits)
  {
    hide PackedPixel;
  }

  lemma PackedPixelAt(palette: seq<byte>, source: seq<byte>, k: nat, width: nat, height: nat, bits: nat)
    requires bits == 1 || bits == 2 || bits == 4
    requires |palette| >= 512 && k < width * height && 0 < width && PackedBytes(width, height, bits) <= |source|
    ensures PackedPixels(palette, source, width, height, bits)[k] == PixelOf(palette, TileIndex(source, k, width, bits))
  {
    hide HasIndex, PackedIndex, PackedBytes, PackedPixels, PixelOf;
    PackedPixelOf(palette, source, k, width, height, bits);
    Arith.DivLt(k, width, height);
    IndexIsThere(source, k % width, k / width, width, height, bits);
  }

  /** Every pixel is the entry with its index. */
  ghost predicate ShowsIndices(pixels: seq<Pixel>, palette: seq<byte>, source: seq<byte>, width: nat, bits: nat)
    requires width > 0 && (bits == 1 || bits == 2 || bits == 4) && |palette| >= 512
  {
    forall k: nat | k < |pixels| :: pixels[k] == PixelOf(palette, TileIndex(source, k, width, bits))
  }

  lemma PackedShowIndices(palette: seq<byte>, source: seq<byte>, width: nat, height: nat, bits: nat)
    requires bits == 1 || bits == 2 || bits == 4
    requires |palette| >= 512 && 0 < width && PackedBytes(width, height, bits) <= |source|
    ensures ShowsIndices(PackedPixels(palette, source, width, height, bits), palette, source, width, bits)
  {
    hide PackedPixels, TileIndex, PackedBytes, PixelOf;
    var pixels := PackedPixels(palette, source, width, height, bits);
    forall k: nat | k < |pixels| ensures pixels[k] == PixelOf(palette, TileIndex(source, k, width, bits)) {
      PackedPixelAt(palette, source, k, width, height, bits);
    }
  }

  lemma IndicesHad(pixels: seq<Pixel>, palette: seq<byte>, source: seq<byte>, width: nat, bits: nat, size: nat)
    requires width > 0 && (bits == 1 || bits == 2 || bits == 4) && |palette| >= 512 && size <= 127
    requires ShowsIndices(pixels, palette, source, width, bits) && AllNamed(source, width, |pixels|, bits, size)
    ensures AllHad(palette, size, pixels)
  {
    hide TileIndex, PixelOf;
    forall p | p in pixels ensures Has(palette, size, p) {
      var k: nat :| k < |pixels| && pixels[k] == p;
      assert TileIndex(source, k, width, bits) < size;
    }
  }

  lemma IndicesNotHad(pixels: seq<Pixel>, source: seq<byte>, width: nat, bits: nat, size: nat)
    requires width > 0 && (bits == 1 || bits == 2 || bits == 4) && size <= 127
    requires ShowsIndices(pixels, Marked(size), source, width, bits) && !AllNamed(source, width, |pixels|, bits, size)
    ensures !AllHad(Marked(size), size, pixels)
  {
    hide TileIndex, PixelOf, Has, Marked;
    var k: nat :| k < |pixels| && TileIndex(source, k, width, bits) >= size;
    MarkedHasNot(size, TileIndex(source, k, width, bits));
    assert pixels[k] in pixels;
  }

  /**
   * Packed indices are not checked at all. A complete packed tile shows nothing but colours of
   * its palette, whatever the buffer holds behind it, exactly when every index is below the
   * palette's size.
   */
  lemma PackedOwnColorsExactlyWhen(source: seq<byte>, width: nat, height: nat, bits: nat, size: nat)
    requires width > 0 && (bits == 1 || bits == 2 || bits == 4) && size <= 127
    requires PackedBytes(width, height, bits) <= |source|
    ensures (forall palette: seq<byte> | |palette| >= 512 ::
               AllHad(palette, size, PackedPixels(palette, source, width, height, bits)))
       <==> AllNamed(source, width, width * height, bits, size)
  {
    hide PackedPixels, AllNamed, AllHad, ShowsIndices, PackedBytes;
    if AllNamed(source, width, width * height, bits, size) {
      forall palette: seq<byte> | |palette| >= 512
        ensures AllHad(palette, size, PackedPixels(palette, source, width, height, bits))
      {
        PackedShowIndices(palette, source, width, height, bits);
        IndicesHad(PackedPixels(palette, source, width, height, bits), palette, source, width, bits, size);
      }
    } else {
      PackedShowIndices(Marked(size), source, width, height, bits);
      IndicesNotHad(PackedPixels(Marked(size), source, width, height, bits), source, width, bits, size);
    }
  }

  /** Palettes of two, four and sixteen colours leave no index over. */
  lemma FullPaletteIsNamed(source: seq<byte>, width: nat, n: nat, size: nat)
    requires width > 0 && (size == 2 || size == 4 || size == 16)
    ensures AllNamed(source, width, n, BitsPerPixel(size), size)
  {
    assert Power(1) == 2 && Power(2) == 4 && Power(3) == 8 && Power(4) == 16;
    hide TileIndex, Power;
    forall k: nat | k < n ensures TileIndex(source, k, width, BitsPerPixel(size)) < size {
      TileIndexBelow(source, k, width, BitsPerPixel(size));
    }
  }

  lemma TileIndexBelow(source: seq<byte>, k: nat, width: nat, bits: nat)
    requires width > 0 && (bits == 1 || bits == 2 || bits == 4)
    ensures TileIndex(source, k, width, bits) < Power(bits)
  {
    hide Power, HasIndex, PackedIndex;
    if HasIndex(source, k % width, k / width, width, bits) {
      IndexBelow(source, k % width, k / width, width, bits);
    }
  }

  lemma IndexBelow(source: seq<byte>, x: nat, y: nat, width: nat, bits: nat)
    requires bits == 1 || bits == 2 || bits == 4
    requires HasIndex(source, x, y, width, bits)
    ensures PackedIndex(source, x, y, width, bits) < Power(bits)
  {
    hide Power, RowOf, RowBytes;
  }

  /** The pixel buffer after the plain runs of a tile: each of them reads its colour into it. */
  function PlainBuffer(s: seq<byte>, n: int, buffer: seq<byte>): (after: seq<byte>)
    requires |buffer| == BUFFER
    ensures |after| == BUFFER
    decreases |s|
  {
    if n <= 0 || |s| < 3 then buffer
    else
      var l := ReadLength(s[3..]);
      if l.Fail? then buffer else PlainBuffer(l.rest, n - l.value, ReadInto(buffer, s, 1))
  }

  /** A decoded tile, and the pixel buffer that the next tile finds. */
  datatype Tile = Tile(pixels: seq<Pixel>, buffer: seq<byte>)

  /** The tile in a stream, by its subencoding (RFC 6143, section 7.7.6), and the rest of the stream. */
  function TileOf(s: seq<byte>, w: nat, h: nat, buffer: seq<byte>): (p: Parsed<Tile>)
    requires |buffer| == BUFFER && 1 <= w <= 64 && 1 <= h <= 64
    ensures p.Parsed? ==> |p.value.pixels| == w * h && |p.value.buffer| == BUFFER
  {
    if |s| == 0 then Fail
    else if s[0] == 0 then RawTile(s[1..], w, h, buffer)
    else if s[0] == 1 then SolidTile(s[1..], w, h, buffer)
    else if s[0] <= 16 then PackedTile(s[0], s[1..], w, h, buffer)
    else if s[0] == 128 then PlainTile(s[1..], w, h, buffer)
    else if s[0] >= 130 then RunsTile(s[0] - 128, s[1..], w, h, buffer)
    else Fail
  }

  function RawTile(s: seq<byte>, w: nat, h: nat, buffer: seq<byte>): (p: Parsed<Tile>)
    requires |buffer| == BUFFER && w <= 64 && h <= 64
    ensures p.Parsed? ==> |p.value.pixels| == w * h && |p.value.buffer| == BUFFER
  {
    SizeFits(w, h);
    if 3 * (w * h) > |s| then Fail
    else Parsed(Tile(OpaquePixels(s, w * h), ReadInto(buffer, s, w * h)), s[3 * (w * h)..])
  }

  function SolidTile(s: seq<byte>, w: nat, h: nat, buffer: seq<byte>): (p: Parsed<Tile>)
    requires |buffer| == BUFFER
    ensures p.Parsed? ==> |p.value.pixels| == w * h && |p.value.buffer| == BUFFER
  {
    if 3 > |s| then Fail else Parsed(Tile(Repeat(OpaquePixel(s, 0), w * h), ReadInto(buffer, s, 1)), s[3..])
  }

  function PackedTile(size: nat, s: seq<byte>, w: nat, h: nat, buffer: seq<byte>): (p: Parsed<Tile>)
    requires |buffer| == BUFFER && 2 <= size <= 16 && w > 0
    ensures p.Parsed? ==> |p.value.pixels| == w * h && |p.value.buffer| == BUFFER
  {
    var bits := BitsPerPixel(size);
    if 3 * size + PackedBytes(w, h, bits) > |s| then Fail
    else
      var palette := ReadInto(buffer, s, size);
      Parsed(Tile(PackedPixels(palette, s[3 * size..], w, h, bits), palette), s[3 * size..][PackedBytes(w, h, bits)..])
  }

  /** The last run of a tile may be too long. */
  function PlainTile(s: seq<byte>, w: nat, h: nat, buffer: seq<byte>): (p: Parsed<Tile>)
    requires |buffer| == BUFFER
    ensures p.Parsed? ==> |p.value.pixels| == w * h && |p.value.buffer| == BUFFER
  {
    var runs := PlainRuns(s, w * h);
    if runs.Fail? then Fail else Parsed(Tile(runs.value[..w * h], PlainBuffer(s, w * h, buffer)), runs.rest)
  }

  function RunsTile(size: nat, s: seq<byte>, w: nat, h: nat, buffer: seq<byte>): (p: Parsed<Tile>)
    requires |buffer| == BUFFER && size <= 127
    ensures p.Parsed? ==> |p.value.pixels| == w * h && |p.value.buffer| == BUFFER
  {
    if 3 * size > |s| then Fail
    else
      var palette := ReadInto(buffer, s, size);
      var runs := PaletteRuns(s[3 * size..], w * h, palette, size);
      if runs.Fail? then Fail else Parsed(Tile(runs.value, palette), runs.rest)
  }

  lemma SizeFits(w: nat, h: nat)
    requires w <= 64 && h <= 64
    ensures w * h <= 4096
  {
    Arith.MulLe(h, 64, w);
  }

  /** An output that draws these pixels, and draws them there. */
  ghost predicate Shows(o: Output, t: Rect, pixels: seq<Pixel>) {
    && |pixels| == t.w * t.h
    && ((&& o.BlitImage? && o.x == t.x && o.y == t.y && o.w == t.w && o.h == t.h
         && |o.data| == 4 * |pixels| && Stored(o.data, pixels, |pixels|))
        || (&& o.FillRect? && o.x == t.x && o.y == t.y && o.w == t.w && o.h == t.h
            && forall p | p in pixels :: p == o.color + [255]))
  }

  /** What decoding a tile with some meaning comes to: the error, or the drawing, the rest and the buffer. */
  ghost predicate Carried(p: Parsed<Tile>, t: Rect, ok: bool, o: Output, output: seq<byte>, buffer: seq<byte>) {
    (ok <==> p.Parsed?) && (ok ==> output == p.rest && buffer == p.value.buffer && Shows(o, t, p.value.pixels))
  }

  class ZRLEDecoder {
    var length: nat
    const inflator: Inflator
    const pixelBuffer: array<byte>
    const tileBuffer: array<byte>

    ghost predicate Valid() {
      pixelBuffer.Length == BUFFER && tileBuffer.Length == BUFFER && pixelBuffer != tileBuffer
    }

    constructor ()
      ensures Valid() && length == 0 && fresh(inflator) && fresh(pixelBuffer) && fresh(tileBuffer)
    {
      length := 0;
      inflator := new Inflator();
      pixelBuffer := new byte[BUFFER](_ => 0);
      tileBuffer := new byte[BUFFER](_ => 0);
    }

    /** Pixel `k` of the data, made opaque. */
    method StorePixel(data: seq<byte>, k: nat)
      requires Valid() && 4 * k + 4 <= BUFFER && 3 * k + 3 <= |data|
      modifies pixelBuffer
      ensures PixelOf(pixelBuffer[..], k) == OpaquePixel(data, k)
      ensures pixelBuffer[..][..4 * k] == old(pixelBuffer[..])[..4 * k]
          && pixelBuffer[..][4 * k + 4..] == old(pixelBuffer[..])[4 * k + 4..]
    {
      pixelBuffer[4 * k] := data[3 * k];
      pixelBuffer[4 * k + 1] := data[3 * k + 1];
      pixelBuffer[4 * k + 2] := data[3 * k + 2];
      pixelBuffer[4 * k + 3] := 255;
    }

    /** Pixels made opaque at the front of the buffer; the rest of it stays as it was. */
    method ReadPixels(pixels: nat) returns (ok: bool)
      requires Valid() && pixels <= 4096
      modifies inflator, pixelBuffer
      ensures ok <==> 3 * pixels <= |old(inflator.output)|
      ensures ok ==> inflator.output == old(inflator.output)[3 * pixels..]
                     && PixelsRead(old(pixelBuffer[..]), pixelBuffer[..], old(inflator.output), pixels)
    {
      var buffer := inflator.Inflate(3 * pixels);
      if buffer == None {
        return false;
      }
      ghost var before := pixelBuffer[..];
      var k := 0;
      while k < pixels
        invariant 0 <= k <= pixels && inflator.output == old(inflator.output)[3 * pixels..]
        invariant forall i | 0 <= i < k :: PixelOf(pixelBuffer[..], i) == OpaquePixel(buffer.value, i)
        invariant pixelBuffer[..][4 * k..] == before[4 * k..]
      {
        hide PixelOf, OpaquePixel;
        ghost var was := pixelBuffer[..];
        StorePixel(buffer.value, k);
        forall i | 0 <= i < k ensures PixelOf(pixelBuffer[..], i) == OpaquePixel(buffer.value, i) {
          SamePixel(was, pixelBuffer[..], i, 4 * k);
        }
        TailKept(before, was, pixelBuffer[..], 4 * k);
        k := k + 1;
      }
      ReadFrom(before, pixelBuffer[..], old(inflator.output), buffer.value, pixels);
      ok := true;
    }

    /** The four assignments that copy one pixel into the tile. */
    method CopyPixel(offset: nat, index: nat)
      requires Valid() && 4 * offset + 4 <= BUFFER && 4 * index + 4 <= BUFFER
      modifies tileBuffer
      ensures PixelOf(tileBuffer[..], offset) == PixelOf(pixelBuffer[..], index)
      ensures tileBuffer[..4 * offset] == old(tileBuffer[..4 * offset])
    {
      tileBuffer[4 * offset] := pixelBuffer[4 * index];
      tileBuffer[4 * offset + 1] := pixelBuffer[4 * index + 1];
      tileBuffer[4 * offset + 2] := pixelBuffer[4 * index + 2];
      tileBuffer[4 * offset + 3] := pixelBuffer[4 * index + 3];
    }

    /**
     * The body of the inner loop: the next byte when the current one is used up, then one pixel.
     * The ghosts say which byte of the row is current and how many of its fields are used.
     */
    method DecodePalettePixel(encoded0: byte, shift0: int, x: nat, base: nat, bits: nat,
                              ghost known: seq<byte>, ghost q0: nat, ghost k0: nat)
      returns (ok: bool, encoded: byte, shift: int, ghost row: seq<byte>, ghost q: nat, ghost k: nat)
      requires Valid() && (bits == 1 || bits == 2 || bits == 4) && 4 * (base + x) + 4 <= BUFFER
      requires x == PixelsPerByte(bits) * q0 + k0 && k0 <= PixelsPerByte(bits) && shift0 == 8 - bits * (k0 + 1)
      requires |known| == q0 + 1 && known[q0] == encoded0
      modifies inflator, tileBuffer
      ensures ok <==> k0 < PixelsPerByte(bits) || |old(inflator.output)| > 0
      ensures ok ==>
        && row + inflator.output == known + old(inflator.output) && known <= row
        && PixelDecoded(tileBuffer[..], pixelBuffer[..], row, base, x, bits)
        && tileBuffer[..4 * (base + x)] == old(tileBuffer[..4 * (base + x)])
        && x + 1 == PixelsPerByte(bits) * q + k && 0 < k <= PixelsPerByte(bits) && shift == 8 - bits * (k + 1)
        && |row| == q + 1 && row[q] == encoded
    {
      encoded, shift, row, q, k := encoded0, shift0, known, q0, k0;
      hide PixelOf, IndexOf, Masked, PixelDecoded;
      if shift < 0 {
        shift := 8 - bits;
        var next := inflator.Inflate(1);
        if next == None {
          ok := false;
          return;
        }
        encoded := next.value[0];
        row := row + [encoded];
        q, k := q + 1, 0;
      }
      MaskedIsSmall(encoded, shift, bits);
      CopyPixel(base + x, Masked(encoded, shift, bits));
      NowDecoded(tileBuffer[..], pixelBuffer[..], row, base, x, bits, encoded, shift, q, k);
      ok, k, shift := true, k + 1, shift - bits;
    }

    /** The inner loop over one row; its first byte has been read already. */
    method DecodePaletteRow(first: byte, base: nat, tilew: nat, bits: nat) returns (ok: bool, ghost row: seq<byte>)
      requires Valid() && 1 <= tilew && 4 * (base + tilew) <= BUFFER
      requires bits == 1 || bits == 2 || bits == 4
      modifies inflator, tileBuffer
      ensures ok <==> RowBytes(tilew, bits) - 1 <= |old(inflator.output)|
      ensures ok ==>
        && |row| == RowBytes(tilew, bits) && row + inflator.output == [first] + old(inflator.output)
        && RowDecoded(tileBuffer[..], pixelBuffer[..], row, base, tilew, bits)
        && tileBuffer[..4 * base] == old(tileBuffer[..4 * base])
    {
      var shift: int := 8 - bits;
      var encoded := first;
      row := [first];
      ghost var q: nat, k: nat := 0, 0;
      hide PixelDecoded, RowBytes;
      assert RowDecoded(tileBuffer[..], pixelBuffer[..], row, base, 0, bits);
      hide RowDecoded, PixelsPerByte;
      PerByte(bits);
      var x := 0;
      while x < tilew
        invariant 0 <= x <= tilew && x == PixelsPerByte(bits) * q + k && k <= PixelsPerByte(bits) && (x > 0 ==> k > 0)
        invariant shift == 8 - bits * (k + 1)
        invariant |row| == q + 1 && encoded == row[q] && row + inflator.output == [first] + old(inflator.output)
        invariant RowDecoded(tileBuffer[..], pixelBuffer[..], row, base, x, bits)
        invariant tileBuffer[..4 * base] == old(tileBuffer[..4 * base])
      {
        ghost var was, known, q0 := tileBuffer[..], row, q;
        ok, encoded, shift, row, q, k := DecodePalettePixel(encoded, shift, x, base, bits, known, q, k);
        if !ok {
          NeedsMore(tilew, bits, q0);
          return;
        }
        FrontKept(was, tileBuffer[..], 4 * (base + x), 4 * base);
        RowExtended(was, tileBuffer[..], pixelBuffer[..], known, row, base, x, bits);
        x := x + 1;
      }
      RowBytesIs(tilew, bits, q, k);
      ok := true;
    }

    /**
     * A packed-palette tile uses exactly its rows' bytes, and every pixel is the palette pixel
     * that its own bit field names.
     */
    method DecodePaletteTile(size: nat, tilew: nat, tileh: nat) returns (ok: bool)
      requires Valid() && 2 <= size <= 16 && 1 <= tilew <= 64 && 1 <= tileh <= 64
      modifies inflator, pixelBuffer, tileBuffer
      ensures ok <==> 3 * size + PackedBytes(tilew, tileh, BitsPerPixel(size)) <= |old(inflator.output)|
      ensures ok ==>
        && PixelsRead(old(pixelBuffer[..]), pixelBuffer[..], old(inflator.output), size)
        && inflator.output == old(inflator.output)[3 * size..][PackedBytes(tilew, tileh, BitsPerPixel(size))..]
        && RowsDecoded(tileBuffer[..], pixelBuffer[..], old(inflator.output)[3 * size..], tilew, tileh,
                       BitsPerPixel(size))
    {
      ok := ReadPixels(size);
      if !ok {
        return;
      }
      var bits := BitsPerPixel(size);
      ghost var source := inflator.output;
      ghost var rb := RowBytes(tilew, bits);
      hide PixelsRead, BitsPerPixel, RowBytes, PixelDecoded, RowDecoded;
      RowNeedsByte(tilew, bits);
      Arith.MulLe(1, tileh, rb);
      var first := inflator.Inflate(1);
      if first == None {
        return false;
      }
      var encoded := first.value[0];
      var y := 0;
      assert source[0 * rb] == encoded && source[1..] == source[0 * rb + 1..];
      while y < tileh
        invariant 0 <= y <= tileh && AtRow(source, y, tileh, rb, encoded, inflator.output)
        invariant PixelsRead(old(pixelBuffer[..]), pixelBuffer[..], old(inflator.output), size)
        invariant RowsDecoded(tileBuffer[..], pixelBuffer[..], source, tilew, y, bits)
      {
        hide AtRow, RowsDecoded;
        ok, encoded := DecodeLine(encoded, y, tilew, tileh, bits, source);
        if !ok {
          return;
        }
        y := y + 1;
      }
      ok := true;
    }

    /** One row, and the first byte of the next if there is one; a row always leaves its last byte
        partly or wholly used. */
    method DecodeLine(encoded: byte, y: nat, tilew: nat, tileh: nat, bits: nat, ghost source: seq<byte>)
      returns (ok: bool, next: byte)
      requires Valid() && y < tileh <= 64 && 1 <= tilew <= 64 && (bits == 1 || bits == 2 || bits == 4)
      requires AtRow(source, y, tileh, RowBytes(tilew, bits), encoded, inflator.output)
      requires RowsDecoded(tileBuffer[..], pixelBuffer[..], source, tilew, y, bits)
      modifies inflator, tileBuffer
      ensures !ok ==> |source| < tileh * RowBytes(tilew, bits)
      ensures ok ==> AtRow(source, y + 1, tileh, RowBytes(tilew, bits), next, inflator.output)
                     && RowsDecoded(tileBuffer[..], pixelBuffer[..], source, tilew, y + 1, bits)
    {
      assert pixelBuffer.Length == BUFFER && tileBuffer.Length == BUFFER && BUFFER == 16384;
      hide *;
      ghost var rb := RowBytes(tilew, bits);
      ghost var was, output := tileBuffer[..], inflator.output;
      RowPlace(y, tileh, tilew);
      next := encoded;
      ghost var row;
      ok, row := DecodePaletteRow(encoded, RowBase(y, tilew), tilew, bits);
      if !ok {
        LineShort(source, y, tileh, rb, encoded, output);
        return;
      }
      LineRead(source, y, tileh, rb, encoded, output, row, inflator.output);
      RowsExtended(was, tileBuffer[..], pixelBuffer[..], source, tilew, y, bits, row);
      if y < tileh - 1 {
        RowNeedsByte(tilew, bits);
        NextRow(source, y, tileh, rb, inflator.output);
        var first := inflator.Inflate(1);
        if first == None {
          return false, next;
        }
        next := first.value[0];
      }
    }

    method ReadRLELength() returns (length: Option<nat>)
      modifies inflator
      ensures var p := ReadLength(old(inflator.output));
              if p.Fail? then length == None else length == Some(p.value) && inflator.output == p.rest
    {
      var sum: nat, current: byte := 0, 255;
      ghost var start := inflator.output;
      while current == 255
        invariant current == 255 ==>
          ReadLength(start)
              == (var p := ReadLength(inflator.output); if p.Fail? then Fail else Parsed(sum + p.value, p.rest))
        invariant current != 255 ==> ReadLength(start) == Parsed(sum + 1, inflator.output)
        decreases if current == 255 then 1 + |inflator.output| else 0
      {
        var next := inflator.Inflate(1);
        if next == None {
          return None;
        }
        current := next.value[0];
        sum := sum + current;
      }
      length := Some(sum + 1);
    }

    /** One run's pixels; what falls past the buffer is not stored. */
    method FillRun(start: nat, length: nat, index: nat)
      requires Valid() && 4 * index + 4 <= BUFFER
      modifies tileBuffer
      ensures forall i: nat | start <= i < start + length && 4 * i + 4 <= BUFFER
          :: PixelOf(tileBuffer[..], i) == PixelOf(pixelBuffer[..], index)
      ensures forall i: nat | i < start && 4 * i + 4 <= BUFFER
          :: PixelOf(tileBuffer[..], i) == old(PixelOf(tileBuffer[..], i))
    {
      var j := 0;
      while j < length
        invariant 0 <= j <= length
        invariant forall i: nat | start <= i < start + j && 4 * i + 4 <= BUFFER
            :: PixelOf(tileBuffer[..], i) == PixelOf(pixelBuffer[..], index)
        invariant forall i: nat | i < start && 4 * i + 4 <= BUFFER
            :: PixelOf(tileBuffer[..], i) == old(PixelOf(tileBuffer[..], i))
      {
        if 4 * (start + j) + 4 <= BUFFER {
          ghost var was := tileBuffer[..];
          CopyPixel(start + j, index);
          forall i: nat | i < start + j ensures PixelOf(tileBuffer[..], i) == PixelOf(was, i) {
            SamePixel(was, tileBuffer[..], i, 4 * (start + j));
          }
        }
        j := j + 1;
      }
    }

    /** One run read and stored. */
    method StorePlainRun(n: nat, i: nat, ghost known: seq<Pixel>)
      returns (ok: bool, length: nat, ghost done: seq<Pixel>)
      requires Valid() && n > 0 && i == |known| && StoredFront(tileBuffer[..], known)
      modifies inflator, pixelBuffer, tileBuffer
      ensures !ok ==> Joined(known, PlainRuns(old(inflator.output), n)).Fail?
      ensures ok ==>
        && |done| == i + length && StoredFront(tileBuffer[..], done) && length > 0
        && Joined(done, PlainRuns(inflator.output, n - length)) == Joined(known, PlainRuns(old(inflator.output), n))
        && PlainBuffer(inflator.output, n - length, pixelBuffer[..])
            == PlainBuffer(old(inflator.output), n, old(pixelBuffer[..]))
    {
      ghost var source, buffer, was := inflator.output, pixelBuffer[..], tileBuffer[..];
      hide StoredFront, PixelsRead, ReadInto, Joined, PlainRuns, PlainBuffer, PixelOf, ReadLength;
      length, done := 0, known;
      NoPlainRun(known, source, n);
      ok := ReadPixels(1);
      if !ok {
        return;
      }
      FirstRead(buffer, pixelBuffer[..], source);
      PixelsReadIs(buffer, pixelBuffer[..], source, 1);
      var l := ReadRLELength();
      if l == None {
        return false, length, done;
      }
      length := l.value;
      FillRun(i, length, 0);
      RunStored(was, tileBuffer[..], known, PixelOf(pixelBuffer[..], 0), length);
      PlainStep(known, source, n, length, inflator.output);
      BufferStep(source, n, buffer, length, inflator.output);
      LengthPositive(source[3..]);
      done := known + Repeat(PixelOf(pixelBuffer[..], 0), length);
    }

    method DecodeRLETile(tileSize: nat) returns (ok: bool)
      requires Valid() && tileSize <= 4096
      modifies inflator, pixelBuffer, tileBuffer
      ensures var p := PlainRuns(old(inflator.output), tileSize);
              (ok <==> p.Parsed?) && (ok ==> inflator.output == p.rest && Stored(tileBuffer[..], p.value, tileSize))
      ensures ok ==> pixelBuffer[..] == PlainBuffer(old(inflator.output), tileSize, old(pixelBuffer[..]))
    {
      ghost var whole := PlainRuns(inflator.output, tileSize);
      ghost var last := PlainBuffer(inflator.output, tileSize, pixelBuffer[..]);
      ghost var done: seq<Pixel> := [];
      var i := 0;
      NothingDone(inflator.output, tileSize, pixelBuffer[..], 0);
      while i < tileSize
        invariant i == |done| && StoredFront(tileBuffer[..], done)
        invariant Joined(done, PlainRuns(inflator.output, tileSize - i)) == whole
        invariant PlainBuffer(inflator.output, tileSize - i, pixelBuffer[..]) == last
        decreases tileSize - i
      {
        hide StoredFront, PlainRuns, PlainBuffer, Joined;
        var length;
        ok, length, done := StorePlainRun(tileSize - i, i, done);
        if !ok {
          return;
        }
        i := i + length;
      }
      AllStored(tileBuffer[..], done, tileSize);
      assert done + [] == done;
      ok := true;
    }

    /** The body of the next loop up to its checks, both of which throw. */
    method ReadPaletteRun(size: nat, room: nat) returns (r: Option<Run<nat>>)
      requires Valid()
      modifies inflator
      ensures var p := FirstRun(old(inflator.output), room, size);
              if p.Fail? then r == None else r == Some(p.value) && inflator.output == p.rest
    {
      var next := inflator.Inflate(1);
      if next == None {
        return None;
      }
      var indexInPalette: nat := next.value[0];
      var length := Some(1);
      if indexInPalette >= 128 {
        indexInPalette := indexInPalette - 128;
        length := ReadRLELength();
      }
      if length == None || indexInPalette > size || length.value > room {
        return None;
      }
      r := Some(Run(indexInPalette, length.value));
    }

    /** One run read, checked and stored. */
    method StorePaletteRun(size: nat, tileSize: nat, offset: nat, ghost palette: seq<byte>, ghost known: seq<Pixel>)
      returns (ok: bool, length: nat, ghost done: seq<Pixel>)
      requires Valid() && size <= 127 && offset == |known| < tileSize <= 4096
      requires StoredFront(tileBuffer[..], known) && pixelBuffer[..] == palette
      modifies inflator, tileBuffer
      ensures !ok ==> Joined(known, PaletteRuns(old(inflator.output), tileSize - offset, palette, size)).Fail?
      ensures ok ==>
        && length > 0 && |done| == offset + length <= tileSize && StoredFront(tileBuffer[..], done)
        && Joined(done, PaletteRuns(inflator.output, tileSize - offset - length, palette, size))
        == Joined(known, PaletteRuns(old(inflator.output), tileSize - offset, palette, size))
    {
      ghost var source, was := inflator.output, tileBuffer[..];
      hide StoredFront, FirstRun, PaletteRuns, Joined, PixelOf;
      length, done := 0, known;
      var r := ReadPaletteRun(size, tileSize - offset);
      if r == None {
        NoRun(known, source, tileSize - offset, palette, size);
        return false, length, done;
      }
      length := r.value.length;
      FillRun(offset, length, r.value.of);
      RunStored(was, tileBuffer[..], known, PixelOf(palette, r.value.of), length);
      PaletteStep(known, source, tileSize - offset, palette, size, r.value, inflator.output);
      done := known + Repeat(PixelOf(palette, r.value.of), length);
      ok := true;
    }

    method DecodeRLEPaletteTile(size: nat, tileSize: nat) returns (ok: bool)
      requires Valid() && size <= 127 && tileSize <= 4096
      modifies inflator, pixelBuffer, tileBuffer
      ensures ok ==> 3 * size <= |old(inflator.output)|
      ensures 3 * size <= |old(inflator.output)|
          ==> PixelsRead(old(pixelBuffer[..]), pixelBuffer[..], old(inflator.output), size)
      ensures 3 * size <= |old(inflator.output)| ==>
        var p := PaletteRuns(old(inflator.output)[3 * size..], tileSize, pixelBuffer[..], size);
        (ok <==> p.Parsed?) && (ok ==> inflator.output == p.rest && Stored(tileBuffer[..], p.value, tileSize))
    {
      ok := ReadPixels(size);
      if !ok {
        return;
      }
      hide PixelsRead;
      ghost var palette := pixelBuffer[..];
      ghost var whole := PaletteRuns(inflator.output, tileSize, palette, size);
      ghost var done: seq<Pixel> := [];
      var offset := 0;
      NothingDone(inflator.output, tileSize, palette, size);
      while offset < tileSize
        invariant offset == |done| <= tileSize && StoredFront(tileBuffer[..], done) && pixelBuffer[..] == palette
        invariant Joined(done, PaletteRuns(inflator.output, tileSize - offset, palette, size)) == whole
        decreases tileSize - offset
      {
        hide StoredFront, PaletteRuns, Joined;
        var length;
        ok, length, done := StorePaletteRun(size, tileSize, offset, palette, done);
        if !ok {
          return;
        }
        offset := offset + length;
      }
      AllStored(tileBuffer[..], done, tileSize);
      assert done + [] == done;
      assert PaletteRuns(inflator.output, 0, palette, size) == Parsed([], inflator.output);
      ok := true;
    }

    /** One tile, by its subencoding; an unknown one throws. */
    method DecodeTile(t: Rect, sink: Sink) returns (ok: bool)
      requires Valid() && 1 <= t.w <= 64 && 1 <= t.h <= 64
      modifies inflator, pixelBuffer, tileBuffer, sink
      ensures var p := TileOf(old(inflator.output), t.w, t.h, old(pixelBuffer[..]));
              && (ok <==> p.Parsed?)
              && (ok ==> |sink.log| == |old(sink.log)| + 1 && sink.log[..|old(sink.log)|] == old(sink.log)
                         && Carried(p, t, true, sink.log[|old(sink.log)|], inflator.output, pixelBuffer[..]))
    {
      ghost var s := inflator.output;
      hide Carried, RawTile, SolidTile, PackedTile, PlainTile, RunsTile;
      var sub := inflator.Inflate(1);
      if sub == None {
        return false;
      }
      var o;
      ok, o := DecodeSubencoding(t, sub.value[0], s);
      CarriedOk(TileOf(s, t.w, t.h, old(pixelBuffer[..])), t, ok, o, inflator.output, pixelBuffer[..]);
      if ok {
        sink.Emit(o);
      }
    }

    method DecodeSubencoding(t: Rect, subencoding: byte, ghost s: seq<byte>) returns (ok: bool, o: Output)
      requires Valid() && 1 <= t.w <= 64 && 1 <= t.h <= 64
      requires |s| > 0 && s[0] == subencoding && inflator.output == s[1..]
      modifies inflator, pixelBuffer, tileBuffer
      ensures Carried(TileOf(s, t.w, t.h, old(pixelBuffer[..])), t, ok, o, inflator.output, pixelBuffer[..])
    {
      hide RawTile, SolidTile, PackedTile, PlainTile, RunsTile, Shows;
      if subencoding == 0 {
        ok, o := DecodeRawTile(t);
      } else if subencoding == 1 {
        ok, o := DecodeSolidTile(t);
      } else if 2 <= subencoding <= 16 {
        ok, o := DecodePackedTile(t, subencoding);
      } else if subencoding == 128 {
        ok, o := DecodePlainTile(t);
      } else if 130 <= subencoding {
        ok, o := DecodeRunsTile(t, subencoding - 128);
      } else {
        ok, o := false, Flip;
      }
    }

    method DecodeRawTile(t: Rect) returns (ok: bool, o: Output)
      requires Valid() && t.w <= 64 && t.h <= 64
      modifies inflator, pixelBuffer
      ensures Carried(RawTile(old(inflator.output), t.w, t.h, old(pixelBuffer[..])), t, ok, o, inflator.output,
                      pixelBuffer[..])
    {
      SizeFits(t.w, t.h);
      var n := Area(t);
      ghost var was, s := pixelBuffer[..], inflator.output;
      hide PixelsRead, ReadInto, Shows;
      o := Flip;
      ok := ReadPixels(n);
      if ok {
        PixelsReadIs(was, pixelBuffer[..], s, n);
        o := BlitImage(t.x, t.y, t.w, t.h, pixelBuffer[..4 * n]);
        RawShows(was, pixelBuffer[..], s, t);
      }
    }

    method DecodeSolidTile(t: Rect) returns (ok: bool, o: Output)
      requires Valid()
      modifies inflator, pixelBuffer
      ensures Carried(SolidTile(old(inflator.output), t.w, t.h, old(pixelBuffer[..])), t, ok, o, inflator.output,
                      pixelBuffer[..])
    {
      ghost var was, s := pixelBuffer[..], inflator.output;
      hide PixelsRead, ReadInto, Shows;
      o := Flip;
      ok := ReadPixels(1);
      if ok {
        PixelsReadIs(was, pixelBuffer[..], s, 1);
        o := FillRect(t.x, t.y, t.w, t.h, [pixelBuffer[0], pixelBuffer[1], pixelBuffer[2]]);
        SolidShows(was, pixelBuffer[..], s, t);
      }
    }

    method DecodePackedTile(t: Rect, size: nat) returns (ok: bool, o: Output)
      requires Valid() && 1 <= t.w <= 64 && 1 <= t.h <= 64 && 2 <= size <= 16
      modifies inflator, pixelBuffer, tileBuffer
      ensures Carried(PackedTile(size, old(inflator.output), t.w, t.h, old(pixelBuffer[..])), t, ok, o, inflator.output,
                      pixelBuffer[..])
    {
      SizeFits(t.w, t.h);
      ghost var was, s := pixelBuffer[..], inflator.output;
      hide PixelsRead, RowsDecoded, ReadInto, Shows, PackedPixels, PackedBytes, BitsPerPixel;
      ok := DecodePaletteTile(size, t.w, t.h);
      o := BlitImage(t.x, t.y, t.w, t.h, tileBuffer[..4 * Area(t)]);
      if ok {
        PixelsReadIs(was, pixelBuffer[..], s, size);
        PackedShows(t, pixelBuffer[..], tileBuffer[..], s[3 * size..], BitsPerPixel(size));
      }
    }

    method DecodePlainTile(t: Rect) returns (ok: bool, o: Output)
      requires Valid() && 1 <= t.w <= 64 && 1 <= t.h <= 64
      modifies inflator, pixelBuffer, tileBuffer
      ensures Carried(PlainTile(old(inflator.output), t.w, t.h, old(pixelBuffer[..])), t, ok, o, inflator.output,
                      pixelBuffer[..])
    {
      SizeFits(t.w, t.h);
      ghost var s := inflator.output;
      hide PlainRuns, PlainBuffer, Stored, Shows;
      ok := DecodeRLETile(Area(t));
      o := BlitImage(t.x, t.y, t.w, t.h, tileBuffer[..4 * Area(t)]);
      if ok {
        StoredShows(t, tileBuffer[..], PlainRuns(s, Area(t)).value);
      }
    }

    method DecodeRunsTile(t: Rect, size: nat) returns (ok: bool, o: Output)
      requires Valid() && 1 <= t.w <= 64 && 1 <= t.h <= 64 && size <= 127
      modifies inflator, pixelBuffer, tileBuffer
      ensures Carried(RunsTile(size, old(inflator.output), t.w, t.h, old(pixelBuffer[..])), t, ok, o, inflator.output,
                      pixelBuffer[..])
    {
      SizeFits(t.w, t.h);
      ghost var was, s := pixelBuffer[..], inflator.output;
      hide PaletteRuns, Stored, Shows, PixelsRead, ReadInto;
      ok := DecodeRLEPaletteTile(size, Area(t));
      o := BlitImage(t.x, t.y, t.w, t.h, tileBuffer[..4 * Area(t)]);
      if 3 * size <= |s| {
        PixelsReadIs(was, pixelBuffer[..], s, size);
      }
      if ok {
        var runs := PaletteRuns(s[3 * size..], Area(t), pixelBuffer[..], size);
        StoredShows(t, tileBuffer[..], runs.value);
        assert runs.value[..Area(t)] == runs.value;
      }
    }

    /** The tiles of one row of the rectangle, from left to right. */
    method DecodeTileRow(r: Rect, row: nat, sink: Sink, ghost whole: Parsed<seq<Piece>>, ghost start: nat,
                         ghost done0: seq<Piece>)
      returns (ok: bool, ghost done: seq<Piece>)
      requires Valid() && r.w > 0 && 64 * row < r.h
      requires AtTile(whole, r, row, 0, inflator.output, pixelBuffer[..], done0) && Painted(sink.log, start, done0)
      modifies inflator, pixelBuffer, tileBuffer, sink
      ensures !ok ==> whole.Fail?
      ensures ok ==> AtTile(whole, r, row + 1, 0, inflator.output, pixelBuffer[..], done)
                     && Painted(sink.log, start, done) && sink.log[..start] == old(sink.log)[..start]
    {
      hide AtTile, Painted;
      done := done0;
      PaintedBound(sink.log, start, done);
      var column := 0;
      while 64 * column < r.w
        invariant start <= |old(sink.log)| <= |sink.log| && sink.log[..start] == old(sink.log)[..start]
        invariant AtTile(whole, r, row, column, inflator.output, pixelBuffer[..], done)
            && Painted(sink.log, start, done)
        decreases r.w - 64 * column
      {
        ghost var s, buffer, was := inflator.output, pixelBuffer[..], sink.log;
        var t := TileAt(r, column, row);
        ok := DecodeTile(t, sink);
        ghost var p := TileOf(s, t.w, t.h, buffer);
        NextTile(whole, r, row, column, s, buffer, done);
        hide TileOf;
        if !ok {
          return;
        }
        PieceCarried(p, t, sink.log[|was|], inflator.output, pixelBuffer[..]);
        PaintedMore(was, sink.log, start, done, Piece(t, p.value.pixels));
        assert sink.log[..start] == sink.log[..|was|][..start];
        done := done + [Piece(t, p.value.pixels)];
        column := column + 1;
      }
      RowEnds(whole, r, row, column, inflator.output, pixelBuffer[..], done);
      ok := true;
    }

    /** All rows of tiles. */
    method DecodeTiles(r: Rect, sink: Sink) returns (ok: bool)
      requires Valid()
      modifies inflator, pixelBuffer, tileBuffer, sink
      ensures var p := TilesFrom(old(inflator.output), r, 0, 0, old(pixelBuffer[..]));
              && (ok <==> p.Parsed?)
              && (ok ==> inflator.output == p.rest && Painted(sink.log, |old(sink.log)|, p.value)
                         && sink.log[..|old(sink.log)|] == old(sink.log))
    {
      ghost var whole := TilesFrom(inflator.output, r, 0, 0, pixelBuffer[..]);
      ghost var start, done: seq<Piece> := |sink.log|, [];
      AtFirstTile(r, inflator.output, pixelBuffer[..]);
      assert Painted(sink.log, start, done);
      hide AtTile, Painted, TilesFrom;
      var row := 0;
      while 64 * row < r.h && r.w > 0
        invariant start <= |sink.log| && sink.log[..start] == old(sink.log)
        invariant AtTile(whole, r, row, 0, inflator.output, pixelBuffer[..], done) && Painted(sink.log, start, done)
        decreases r.h - 64 * row
      {
        ghost var was := sink.log;
        ok, done := DecodeTileRow(r, row, sink, whole, start, done);
        if !ok {
          return;
        }
        PaintedBound(sink.log, start, done);
        row := row + 1;
      }
      RowsEnd(whole, r, row, inflator.output, pixelBuffer[..], done);
      ok := true;
    }

    /**
     * Waits for the length and for the compressed data, which is taken off the queue only when
     * all of it is there; then decodes every tile. `inflated` is what the stream yields.
     */
    method DecodeRect(r: Rect, sock: Websock, sink: Sink, inflated: seq<byte>) returns (status: Status)
      requires Valid() && sock.Valid() && sock.rQ != pixelBuffer && sock.rQ != tileBuffer
      modifies this, inflator, pixelBuffer, tileBuffer, sock`rQi, sink
      ensures sock.Valid()
      ensures status.Waiting? <==> Incomplete(old(length), old(sock.Unread()))
      ensures status.Waiting? ==>
        && sink.log == old(sink.log) && inflator.output == old(inflator.output)
        && pixelBuffer[..] == old(pixelBuffer[..])
        && length == Announced(old(length), old(sock.Unread()))
        && sock.Unread() == old(sock.Unread())[HeaderRead(old(length), old(sock.Unread()))..]
      ensures !status.Waiting? ==>
        var p := TilesFrom(inflated, r, 0, 0, old(pixelBuffer[..]));
        && sock.Unread() == old(sock.Unread())[DataEnd(old(length), old(sock.Unread()))..]
        && (status.Finished? <==> p.Parsed?)
        && (status.Finished? ==> length == 0 && inflator.output == p.rest && Painted(sink.log, |old(sink.log)|, p.value)
                                 && sink.log[..|old(sink.log)|] == old(sink.log))
    {
      hide *;
      var wait := TakeData(sock);
      if wait {
        return Waiting;
      }
      inflator.output := inflated;
      var ok := DecodeTiles(r, sink);
      if !ok {
        return Thrown;
      }
      length := 0;
      status := Finished;
    }

    /** The waits at the start of the rectangle, and the data once all of it is there. */
    method TakeData(sock: Websock) returns (wait: bool)
      requires sock.Valid()
      modifies this`length, sock`rQi
      ensures sock.Valid()
      ensures wait <==> Incomplete(old(length), old(sock.Unread()))
      ensures length == Announced(old(length), old(sock.Unread()))
      ensures wait ==> sock.Unread() == old(sock.Unread())[HeaderRead(old(length), old(sock.Unread()))..]
      ensures !wait ==> DataEnd(old(length), old(sock.Unread())) <= |old(sock.Unread())|
      ensures !wait ==> sock.Unread() == old(sock.Unread())[DataEnd(old(length), old(sock.Unread()))..]
    {
      hide *;
      ghost var q := sock.Unread();
      wait := AwaitData(sock);
      if wait {
        return;
      }
      DropDrop(q, HeaderRead(old(length), q), length);
      var data := sock.RQshiftBytes(length);
    }

    /** Those waits. */
    method AwaitData(sock: Websock) returns (wait: bool)
      requires sock.Valid()
      modifies this`length, sock`rQi
      ensures sock.Valid()
      ensures wait <==> Incomplete(old(length), old(sock.Unread()))
      ensures DataEnd(old(length), old(sock.Unread())) == HeaderRead(old(length), old(sock.Unread())) + length
      ensures length == Announced(old(length), old(sock.Unread())) && (!wait ==> length <= |sock.Unread()|)
      ensures sock.Unread() == old(sock.Unread())[HeaderRead(old(length), old(sock.Unread()))..]
    {
      hide U32;
      if length == 0 {
        wait := sock.RQwait(4, 0);
        if wait {
          return;
        }
        length := sock.RQshift32();
      }
      wait := sock.RQwait(length, 0);
    }
  }

  // ---------------------------------------------------------------- the rectangle

  /** The bytes of the length that this call takes: none once it is known. */
  function HeaderRead(length: nat, q: seq<byte>): (n: nat)
    ensures n <= |q|
  {
    if length == 0 && |q| >= 4 then 4 else 0
  }

  /** The length after the call has looked for it. */
  function Announced(length: nat, q: seq<byte>): nat {
    if length == 0 && |q| >= 4 then U32(q) else length
  }

  /** Where the data end. */
  function DataEnd(length: nat, q: seq<byte>): nat { HeaderRead(length, q) + Announced(length, q) }

  /** The length or some of the data is yet to come. */
  predicate Incomplete(length: nat, q: seq<byte>) {
    (length == 0 && |q| < 4) || |q| < DataEnd(length, q)
  }

  /** A call after a waiting one finds what a first call on all the bytes would have found. */
  lemma WaitResumes(length: nat, q: seq<byte>, x: seq<byte>)
    requires Incomplete(length, q)
    ensures var known, rest := Announced(length, q), q[HeaderRead(length, q)..];
            && (Incomplete(known, rest + x) <==> Incomplete(length, q + x))
            && (!Incomplete(length, q + x) ==>
                  && Announced(known, rest + x) == Announced(length, q + x)
                  && (rest + x)[DataEnd(known, rest + x)..] == (q + x)[DataEnd(length, q + x)..])
  {
    var rest := q[HeaderRead(length, q)..];
    if length == 0 && |q| >= 4 {
      HeaderStable(q, x);
      DropStable(q, x, 4);
      hide U32;
      assert Announced(length, q) > 0;
      if |rest + x| >= U32(q) { DropDrop(q + x, 4, U32(q)); }
    } else {
      assert rest == q;
    }
  }

  lemma HeaderStable(q: seq<byte>, x: seq<byte>)
    requires |q| >= 4
    ensures U32(q + x) == U32(q)
  {
  }

  /** One tile of a rectangle. */
  datatype Piece = Piece(at: Rect, pixels: seq<Pixel>)

  function Prepended(done: seq<Piece>, p: Parsed<seq<Piece>>): Parsed<seq<Piece>> {
    if p.Fail? then Fail else Parsed(done + p.value, p.rest)
  }

  /** The tiles of a rectangle from the given row and column on. */
  function TilesFrom(s: seq<byte>, r: Rect, row: nat, column: nat, buffer: seq<byte>): (p: Parsed<seq<Piece>>)
    requires |buffer| == BUFFER
    decreases r.h - 64 * row, r.w - 64 * column
  {
    if 64 * row >= r.h || r.w == 0 then Parsed([], s)
    else if 64 * column >= r.w then TilesFrom(s, r, row + 1, 0, buffer)
    else
      var t := TileAt(r, column, row);
      var p := TileOf(s, t.w, t.h, buffer);
      if p.Fail? then Fail
      else Prepended([Piece(t, p.value.pixels)], TilesFrom(p.rest, r, row, column + 1, p.value.buffer))
  }

  /** What is still to be decoded completes what has been. */
  ghost predicate AtTile(whole: Parsed<seq<Piece>>, r: Rect, row: nat, column: nat, s: seq<byte>, buffer: seq<byte>,
                         done: seq<Piece>) {
    |buffer| == BUFFER && Prepended(done, TilesFrom(s, r, row, column, buffer)) == whole
  }

  /** The outputs from `start` on are those of the pieces, in order. */
  ghost predicate Painted(log: seq<Output>, start: nat, pieces: seq<Piece>) {
    |log| == start + |pieces| && forall k | 0 <= k < |pieces| :: Shows(log[start + k], pieces[k].at, pieces[k].pixels)
  }

  lemma PaintedBound(log: seq<Output>, start: nat, pieces: seq<Piece>)
    requires Painted(log, start, pieces)
    ensures start <= |log|
  {
  }

  lemma PaintedMore(was: seq<Output>, log: seq<Output>, start: nat, pieces: seq<Piece>, piece: Piece)
    requires Painted(was, start, pieces) && |log| == |was| + 1 && log[..|was|] == was
        && Shows(log[|was|], piece.at, piece.pixels)
    ensures Painted(log, start, pieces + [piece])
  {
    forall k | 0 <= k < |pieces| ensures Shows(log[start + k], pieces[k].at, pieces[k].pixels) {
      assert log[start + k] == log[..|was|][start + k];
    }
    hide Shows;
  }

  lemma CarriedOk(p: Parsed<Tile>, t: Rect, ok: bool, o: Output, output: seq<byte>, buffer: seq<byte>)
    requires Carried(p, t, ok, o, output, buffer)
    ensures (ok <==> p.Parsed?) && (ok ==> Carried(p, t, true, o, output, buffer))
  {
  }

  lemma PieceCarried(p: Parsed<Tile>, t: Rect, o: Output, output: seq<byte>, buffer: seq<byte>)
    requires Carried(p, t, true, o, output, buffer)
    ensures p.Parsed? && output == p.rest && buffer == p.value.buffer && Shows(o, t, p.value.pixels)
  {
  }

  lemma AtFirstTile(r: Rect, s: seq<byte>, buffer: seq<byte>)
    requires |buffer| == BUFFER
    ensures AtTile(TilesFrom(s, r, 0, 0, buffer), r, 0, 0, s, buffer, [])
  {
    var p := TilesFrom(s, r, 0, 0, buffer);
    assert p.Parsed? ==> [] + p.value == p.value;
    hide TilesFrom;
  }

  lemma NextTile(whole: Parsed<seq<Piece>>, r: Rect, row: nat, column: nat, s: seq<byte>, buffer: seq<byte>,
                 done: seq<Piece>)
    requires AtTile(whole, r, row, column, s, buffer, done) && 64 * row < r.h && 64 * column < r.w
    ensures var t := TileAt(r, column, row); var p := TileOf(s, t.w, t.h, buffer);
            if p.Fail? then whole.Fail?
            else AtTile(whole, r, row, column + 1, p.rest, p.value.buffer, done + [Piece(t, p.value.pixels)])
  {
    var t := TileAt(r, column, row);
    var p := TileOf(s, t.w, t.h, buffer);
    hide TileOf, TileAt;
    if p.Parsed? {
      var later := TilesFrom(p.rest, r, row, column + 1, p.value.buffer);
      assert TilesFrom(s, r, row, column, buffer) == Prepended([Piece(t, p.value.pixels)], later);
      hide TilesFrom;
      assert later.Parsed?
          ==> done + ([Piece(t, p.value.pixels)] + later.value) == done + [Piece(t, p.value.pixels)] + later.value;
    }
  }

  lemma RowEnds(whole: Parsed<seq<Piece>>, r: Rect, row: nat, column: nat, s: seq<byte>, buffer: seq<byte>,
                done: seq<Piece>)
    requires AtTile(whole, r, row, column, s, buffer, done) && 64 * row < r.h && r.w > 0 && 64 * column >= r.w
    ensures AtTile(whole, r, row + 1, 0, s, buffer, done)
  {
    hide TileOf, TileAt;
  }

  lemma RowsEnd(whole: Parsed<seq<Piece>>, r: Rect, row: nat, s: seq<byte>, buffer: seq<byte>, done: seq<Piece>)
    requires AtTile(whole, r, row, 0, s, buffer, done) && !(64 * row < r.h && r.w > 0)
    ensures whole == Parsed(done, s)
  {
    assert done + [] == done;
    hide TileOf, TileAt;
  }

  /** How many tiles of 64 a side are next to and above one another. */
  function Columns(r: Rect): nat { (r.w + 63) / 64 }
  function Rows(r: Rect): nat { (r.h + 63) / 64 }

  function Smaller(a: nat, b: nat): nat { if a < b then a else b }

  function TileAt(r: Rect, column: nat, row: nat): Rect
    requires 64 * column < r.w && 64 * row < r.h
  {
    Rect(r.x + 64 * column, r.y + 64 * row, Smaller(64, r.w - 64 * column), Smaller(64, r.h - 64 * row))
  }

  /** The tiles are disjoint and cover the rectangle: a pixel is in the tile of its column and row only. */
  lemma TilesPartition(r: Rect, column: nat, row: nat, px: nat, py: nat)
    requires 64 * column < r.w && 64 * row < r.h
    ensures Inside(TileAt(r, column, row), px, py)
       <==> Inside(r, px, py) && (px - r.x) / 64 == column && (py - r.y) / 64 == row
  {
  }

  function Area(t: Rect): nat { t.w * t.h }

  lemma RawShows(before: seq<byte>, after: seq<byte>, s: seq<byte>, t: Rect)
    requires PixelsRead(before, after, s, Area(t))
    ensures 4 * Area(t) <= |after| && 3 * Area(t) <= |s|
    ensures Shows(BlitImage(t.x, t.y, t.w, t.h, after[..4 * Area(t)]), t, OpaquePixels(s, Area(t)))
  {
    var n := Area(t);
    var pixels := OpaquePixels(s, n);
    assert Stored(after, pixels, n);
    StoredFrontOnly(after, pixels, n);
    hide PixelOf, OpaquePixel;
  }

  lemma StoredFrontOnly(tile: seq<byte>, pixels: seq<Pixel>, n: nat)
    requires Stored(tile, pixels, n)
    ensures Stored(tile[..4 * n], pixels[..n], n)
  {
    forall i: nat | i < n ensures PixelOf(tile[..4 * n], i) == PixelOf(tile, i) {
    }
  }

  lemma StoredShows(t: Rect, tile: seq<byte>, pixels: seq<Pixel>)
    requires Stored(tile, pixels, Area(t))
    ensures 4 * Area(t) <= |tile| && Area(t) <= |pixels|
    ensures Shows(BlitImage(t.x, t.y, t.w, t.h, tile[..4 * Area(t)]), t, pixels[..Area(t)])
  {
    StoredFrontOnly(tile, pixels, Area(t));
    hide PixelOf;
  }

  lemma SolidShows(before: seq<byte>, after: seq<byte>, s: seq<byte>, t: Rect)
    requires PixelsRead(before, after, s, 1)
    ensures |after| >= 4 && |s| >= 3
    ensures Shows(FillRect(t.x, t.y, t.w, t.h, [after[0], after[1], after[2]]), t, Repeat(OpaquePixel(s, 0), Area(t)))
  {
    assert PixelOf(after, 0) == OpaquePixel(s, 0);
    assert PixelOf(after, 0)[0] == after[0] && PixelOf(after, 0)[1] == after[1] && PixelOf(after, 0)[2] == after[2];
    assert OpaquePixel(s, 0) == [after[0], after[1], after[2]] + [255];
  }

  lemma PackedShows(t: Rect, palette: seq<byte>, tile: seq<byte>, source: seq<byte>, bits: nat)
    requires bits == 1 || bits == 2 || bits == 4
    requires t.w > 0 && 4 * Area(t) <= |tile| && RowsDecoded(tile, palette, source, t.w, t.h, bits)
    ensures Shows(BlitImage(t.x, t.y, t.w, t.h, tile[..4 * Area(t)]), t, PackedPixels(palette, source, t.w, t.h, bits))
  {
    var pixels := PackedPixels(palette, source, t.w, t.h, bits);
    forall k: nat | k < Area(t) ensures PixelOf(tile, k) == pixels[k] {
      PackedPixelIs(palette, tile, source, k, t.w, t.h, bits);
    }
    hide PackedPixels, PixelOf, RowsDecoded;
    StoredShows(t, tile, pixels);
    assert pixels[..Area(t)] == pixels;
  }

  lemma PackedPixelIs(palette: seq<byte>, tile: seq<byte>, source: seq<byte>, k: nat, w: nat, h: nat, bits: nat)
    requires bits == 1 || bits == 2 || bits == 4
    requires w > 0 && k < w * h && RowsDecoded(tile, palette, source, w, h, bits)
    ensures 4 * k + 4 <= |tile| && PixelOf(tile, k) == PackedPixel(palette, source, k % w, k / w, w, bits)
  {
    hide PixelOf, IndexOf, RowOf, RowBytes, RowBase, PixelsPerByte;
    var x, y := k % w, k / w;
    Arith.DivLt(k, w, h);
    BaseOf(k, w);
    assert RowDecoded(tile, palette, RowOf(source, y, RowBytes(w, bits)), RowBase(y, w), w, bits);
    assert PixelDecoded(tile, palette, RowOf(source, y, RowBytes(w, bits)), RowBase(y, w), x, bits);
  }

  lemma BaseOf(k: nat, w: nat)
    requires w > 0
    ensures RowBase(k / w, w) + k % w == k && k % w < w
  {
  }

  // ---------------------------------------------------------------- the pieces of a rectangle

  /** How many pieces there are before a row and column. */
  function Before(r: Rect, row: nat, column: nat): nat { Columns(r) * row + column }

  lemma BeforeNext(r: Rect, row: nat)
    ensures Before(r, row + 1, 0) == Before(r, row, Columns(r))
  {
    Arith.Distribute(row, 1, Columns(r));
  }

  /** The piece of each later row and column is where that tile is. */
  ghost predicate Arranged(pieces: seq<Piece>, r: Rect, row: nat, column: nat) {
    && |pieces| == Before(r, Rows(r), 0) - Before(r, row, column)
    && forall y: nat, x: nat | IsLater(r, row, column, y, x)
        :: PieceAt(pieces, Before(r, y, x) - Before(r, row, column), r, y, x)
  }

  predicate IsLater(r: Rect, row: nat, column: nat, y: nat, x: nat) {
    y < Rows(r) && x < Columns(r) && (y > row || (y == row && x >= column))
  }

  ghost predicate PieceAt(pieces: seq<Piece>, k: int, r: Rect, y: nat, x: nat) {
    0 <= k < |pieces| && 64 * y < r.h && 64 * x < r.w && pieces[k].at == TileAt(r, x, y)
  }

  lemma InGrid(r: Rect, row: nat, column: nat)
    ensures 64 * row < r.h <==> row < Rows(r)
    ensures 64 * column < r.w <==> column < Columns(r)
  {
  }

  lemma ArrangedMore(pieces: seq<Piece>, r: Rect, row: nat, column: nat, pixels: seq<Pixel>)
    requires row < Rows(r) && column < Columns(r) && 64 * row < r.h && 64 * column < r.w
    requires Arranged(pieces, r, row, column + 1)
    ensures Arranged([Piece(TileAt(r, column, row), pixels)] + pieces, r, row, column)
  {
    var all := [Piece(TileAt(r, column, row), pixels)] + pieces;
    hide TileAt, Columns, Rows;
    forall y: nat, x: nat | IsLater(r, row, column, y, x)
      ensures PieceAt(all, Before(r, y, x) - Before(r, row, column), r, y, x)
    {
      if IsLater(r, row, column + 1, y, x) {
        assert PieceAt(pieces, Before(r, y, x) - Before(r, row, column + 1), r, y, x);
      }
    }
  }

  lemma ArrangedRow(pieces: seq<Piece>, r: Rect, row: nat)
    requires Arranged(pieces, r, row + 1, 0)
    ensures Arranged(pieces, r, row, Columns(r))
  {
    BeforeNext(r, row);
    hide Before, Columns, Rows, PieceAt;
    forall y: nat, x: nat | IsLater(r, row, Columns(r), y, x)
      ensures PieceAt(pieces, Before(r, y, x) - Before(r, row, Columns(r)), r, y, x)
    {
      assert IsLater(r, row + 1, 0, y, x);
    }
  }

  /** The tiles come row by row, each in its place. */
  lemma {:induction false} TilesArranged(s: seq<byte>, r: Rect, row: nat, column: nat, buffer: seq<byte>)
    requires |buffer| == BUFFER && TilesFrom(s, r, row, column, buffer).Parsed?
    requires row <= Rows(r) && column <= Columns(r) && (row == Rows(r) ==> column == 0)
    ensures Arranged(TilesFrom(s, r, row, column, buffer).value, r, row, column)
    decreases r.h - 64 * row, r.w - 64 * column
  {
    InGrid(r, row, column);
    hide TileOf, Arranged;
    if 64 * row >= r.h || r.w == 0 {
      NoPieces(r, row);
    } else if 64 * column >= r.w {
      TilesArranged(s, r, row + 1, 0, buffer);
      ArrangedRow(TilesFrom(s, r, row, column, buffer).value, r, row);
    } else {
      var t := TileAt(r, column, row);
      var p := TileOf(s, t.w, t.h, buffer);
      TilesArranged(p.rest, r, row, column + 1, p.value.buffer);
      ArrangedMore(TilesFrom(p.rest, r, row, column + 1, p.value.buffer).value, r, row, column, p.value.pixels);
    }
  }

  lemma NoPieces(r: Rect, row: nat)
    requires row == Rows(r) || Columns(r) == 0
    ensures Arranged([], r, row, 0)
  {
  }

  lemma PixelInGrid(r: Rect, px: nat, py: nat)
    requires Inside(r, px, py)
    ensures (py - r.y) / 64 < Rows(r) && (px - r.x) / 64 < Columns(r)
  {
  }

  /** Every pixel of the rectangle is in one piece only, that of its column and row. */
  lemma EveryPixelInOnePiece(s: seq<byte>, r: Rect, buffer: seq<byte>, px: nat, py: nat, j: nat)
    requires |buffer| == BUFFER && TilesFrom(s, r, 0, 0, buffer).Parsed? && Inside(r, px, py)
    requires j < |TilesFrom(s, r, 0, 0, buffer).value|
    ensures Inside(TilesFrom(s, r, 0, 0, buffer).value[j].at, px, py)
       <==> j == Before(r, (py - r.y) / 64, (px - r.x) / 64)
    ensures Before(r, (py - r.y) / 64, (px - r.x) / 64) < |TilesFrom(s, r, 0, 0, buffer).value|
  {
    PixelInGrid(r, px, py);
    hide TilesFrom, Arranged, Before, Rows, Columns;
    TilesArranged(s, r, 0, 0, buffer);
    InPieceOfItsTile(TilesFrom(s, r, 0, 0, buffer).value, r, px, py, j, (px - r.x) / 64, (py - r.y) / 64);
  }

  lemma InPieceOfItsTile(pieces: seq<Piece>, r: Rect, px: nat, py: nat, j: nat, column: nat, row: nat)
    requires Arranged(pieces, r, 0, 0) && j < |pieces| && Inside(r, px, py)
    requires column == (px - r.x) / 64 < Columns(r) && row == (py - r.y) / 64 < Rows(r)
    ensures Inside(pieces[j].at, px, py) <==> j == Before(r, row, column)
    ensures Before(r, row, column) < |pieces|
  {
    ArrangedAt(pieces, r, row, column);
    hide TileAt, Inside, Columns, Rows, Arranged, Before;
    var x, y := GridOf(pieces, r, j);
    BeforeUnique(r, row, column);
    BeforeUnique(r, y, x);
    TilesPartition(r, x, y, px, py);
  }

  lemma ArrangedAt(pieces: seq<Piece>, r: Rect, row: nat, column: nat)
    requires Arranged(pieces, r, 0, 0) && row < Rows(r) && column < Columns(r)
    ensures PieceAt(pieces, Before(r, row, column), r, row, column)
  {
    hide Columns, Rows, PieceAt;
    assert IsLater(r, 0, 0, row, column);
    assert Before(r, 0, 0) == 0;
  }

  /** The column and row of piece `j`. */
  lemma GridOf(pieces: seq<Piece>, r: Rect, j: nat) returns (x: nat, y: nat)
    requires Arranged(pieces, r, 0, 0) && j < |pieces| && Columns(r) > 0
    ensures Before(r, y, x) == j && x < Columns(r) && y < Rows(r) && PieceAt(pieces, j, r, y, x)
  {
    var c := Columns(r);
    x, y := j % c, j / c;
    hide Columns, Rows, TileAt;
    Arith.DivLt(j, c, Rows(r));
    assert IsLater(r, 0, 0, y, x);
    assert Before(r, y, x) == j;
    assert PieceAt(pieces, Before(r, y, x) - Before(r, 0, 0), r, y, x);
  }

  lemma BeforeUnique(r: Rect, y: nat, x: nat)
    requires x < Columns(r)
    ensures Before(r, y, x) / Columns(r) == y && Before(r, y, x) % Columns(r) == x
  {
    Arith.DivModUnique(Before(r, y, x), Columns(r), y, x);
  }

  lemma TailKept(before: seq<byte>, was: seq<byte>, now: seq<byte>, n: nat)
    requires n + 4 <= |before| == |was| == |now| && was[n..] == before[n..] && now[n + 4..] == was[n + 4..]
    ensures now[n + 4..] == before[n + 4..]
  {
    assert was[n..][4..] == was[n + 4..] && before[n..][4..] == before[n + 4..];
  }

  lemma PerByte(bits: nat)
    requires bits == 1 || bits == 2 || bits == 4
    ensures PixelsPerByte(bits) > 0
  {
  }

  lemma FrontKept(a: seq<byte>, b: seq<byte>, n: nat, m: nat)
    requires m <= n <= |a| == |b| && b[..n] == a[..n]
    ensures b[..m] == a[..m]
  {
    assert b[..m] == b[..n][..m];
    assert a[..m] == a[..n][..m];
  }

  lemma ReadFrom(before: seq<byte>, after: seq<byte>, data: seq<byte>, buffer: seq<byte>, n: nat)
    requires 3 * n <= |data| && buffer == data[..3 * n] && |after| == |before| && 4 * n <= |after|
    requires forall i | 0 <= i < n :: PixelOf(after, i) == OpaquePixel(buffer, i)
    requires after[4 * n..] == before[4 * n..]
    ensures PixelsRead(before, after, data, n)
  {
    forall i | 0 <= i < n
      ensures PixelOf(after, i) == OpaquePixel(data, i)
    {
      assert OpaquePixel(buffer, i) == OpaquePixel(data, i);
      hide PixelOf;
    }
    hide OpaquePixel;
  }

  lemma NeedsMore(tilew: nat, bits: nat, q: nat)
    requires bits == 1 || bits == 2 || bits == 4
    requires PixelsPerByte(bits) * q + PixelsPerByte(bits) < tilew
    ensures RowBytes(tilew, bits) - 1 > q
  {
  }

  lemma RowExtended(before: seq<byte>, after: seq<byte>, palette: seq<byte>, known: seq<byte>, row: seq<byte>,
                    base: nat, n: nat, bits: nat)
    requires bits == 1 || bits == 2 || bits == 4
    requires RowDecoded(before, palette, known, base, n, bits) && |after| == |before| && known <= row
    requires 4 * (base + n) <= |after| && after[..4 * (base + n)] == before[..4 * (base + n)]
    requires PixelDecoded(after, palette, row, base, n, bits)
    ensures RowDecoded(after, palette, row, base, n + 1, bits)
  {
    forall x: nat | x < n
      ensures PixelDecoded(after, palette, row, base, x, bits)
    {
      assert PixelDecoded(before, palette, known, base, x, bits);
      PixelStays(before, after, palette, known, row, base, x, n, bits);
      hide PixelDecoded;
    }
  }

  lemma NowDecoded(tile: seq<byte>, palette: seq<byte>, row: seq<byte>, base: nat, x: nat, bits: nat, encoded: byte,
                   shift: nat, q: nat, k: nat)
    requires bits == 1 || bits == 2 || bits == 4
    requires x == PixelsPerByte(bits) * q + k && k < PixelsPerByte(bits) && shift == 8 - bits * (k + 1)
    requires q < |row| && encoded == row[q] && 4 * (base + x) + 4 <= |tile| && 64 <= |palette|
    requires Masked(encoded, shift, bits) < 16
        ==> PixelOf(tile, base + x) == PixelOf(palette, Masked(encoded, shift, bits))
    ensures PixelDecoded(tile, palette, row, base, x, bits)
  {
    PositionIs(x, bits, q, k);
    MaskedIsSmall(encoded, shift, bits);
    hide PixelOf, Masked;
  }

  lemma RowNeedsByte(tilew: nat, bits: nat)
    requires tilew > 0 && (bits == 1 || bits == 2 || bits == 4)
    ensures RowBytes(tilew, bits) > 0
  {
  }

  /** Where the inflator stands before row `y`: that row's first byte has been read. */
  ghost predicate AtRow(source: seq<byte>, y: nat, tileh: nat, rb: nat, encoded: byte, output: seq<byte>) {
    && y * rb <= |source|
    && (y < tileh ==> y * rb < |source| && encoded == source[y * rb] && output == source[y * rb + 1..])
    && (y == tileh ==> output == source[y * rb..])
  }

  lemma LineShort(source: seq<byte>, y: nat, tileh: nat, rb: nat, encoded: byte, output: seq<byte>)
    requires AtRow(source, y, tileh, rb, encoded, output) && y < tileh && rb - 1 > |output|
    ensures |source| < tileh * rb
  {
    Arith.Distribute(y, 1, rb);
    Arith.MulLe(y + 1, tileh, rb);
  }

  lemma LineRead(source: seq<byte>, y: nat, tileh: nat, rb: nat, encoded: byte, output: seq<byte>, row: seq<byte>,
                 rest: seq<byte>)
    requires AtRow(source, y, tileh, rb, encoded, output) && y < tileh
    requires |row| == rb && row + rest == [encoded] + output
    ensures y * rb + rb <= |source| && row == RowOf(source, y, rb) && rest == source[y * rb + rb..]
    ensures y + 1 == tileh ==> AtRow(source, y + 1, tileh, rb, encoded, rest)
  {
    var at := y * rb;
    assert at < |source| && encoded == source[at] && output == source[at + 1..];
    hide AtRow;
    RowSplit(source, at, rb, row, rest);
    if y + 1 == tileh {
      LastRow(source, y, tileh, rb, encoded, rest);
    }
  }

  lemma LastRow(source: seq<byte>, y: nat, tileh: nat, rb: nat, encoded: byte, rest: seq<byte>)
    requires y + 1 == tileh && y * rb + rb <= |source| && rest == source[y * rb + rb..]
    ensures AtRow(source, y + 1, tileh, rb, encoded, rest)
  {
    Arith.Distribute(y, 1, rb);
  }

  lemma NextRow(source: seq<byte>, y: nat, tileh: nat, rb: nat, output: seq<byte>)
    requires y + 1 < tileh && rb > 0 && y * rb + rb <= |source| && output == source[y * rb + rb..]
    ensures output == [] ==> |source| < tileh * rb
    ensures output != [] ==> AtRow(source, y + 1, tileh, rb, output[0], output[1..])
  {
    Arith.Distribute(y, 1, rb);
    Arith.Distribute(y + 1, 1, rb);
    Arith.MulLe(y + 2, tileh, rb);
  }

  /** Rows follow each other without a gap, in the data and in the tile. */
  lemma RowPlace(y: nat, tileh: nat, tilew: nat)
    requires y < tileh <= 64 && tilew <= 64
    ensures 4 * (RowBase(y, tilew) + tilew) <= BUFFER
  {
    BaseNext(y, 64, tilew);
  }

  /** The bytes of row `y`. */
  function RowOf(source: seq<byte>, y: nat, rb: nat): seq<byte> {
    if y * rb + rb <= |source| then source[y * rb..y * rb + rb] else []
  }

  /** The first pixel of row `y` in the tile. */
  function RowBase(y: nat, tilew: nat): nat { y * tilew }

  lemma BaseNext(y: nat, n: nat, tilew: nat)
    requires y < n
    ensures RowBase(y, tilew) + tilew <= RowBase(n, tilew)
  {
    Arith.MulLe(y + 1, n, tilew);
    Arith.Distribute(y, 1, tilew);
  }

  ghost predicate RowsDecoded(tile: seq<byte>, palette: seq<byte>, source: seq<byte>, tilew: nat, n: nat, bits: nat)
    requires bits == 1 || bits == 2 || bits == 4
  {
    forall y: nat | y < n
        :: RowDecoded(tile, palette, RowOf(source, y, RowBytes(tilew, bits)), RowBase(y, tilew), tilew, bits)
  }

  lemma RowSplit(source: seq<byte>, at: nat, rb: nat, row: seq<byte>, rest: seq<byte>)
    requires at < |source| && |row| == rb && row + rest == [source[at]] + source[at + 1..]
    ensures at + rb <= |source| && row == source[at..at + rb] && rest == source[at + rb..]
  {
    assert [source[at]] + source[at + 1..] == source[at..];
    assert |row + rest| == |source| - at;
    assert row == source[at..][..rb] && rest == source[at..][rb..];
  }

  lemma RowsExtended(before: seq<byte>, after: seq<byte>, palette: seq<byte>, source: seq<byte>, tilew: nat, n: nat,
                     bits: nat, row: seq<byte>)
    requires bits == 1 || bits == 2 || bits == 4
    requires RowsDecoded(before, palette, source, tilew, n, bits) && |after| == |before|
    requires 4 * RowBase(n, tilew) <= |after| && after[..4 * RowBase(n, tilew)] == before[..4 * RowBase(n, tilew)]
    requires row == RowOf(source, n, RowBytes(tilew, bits))
        && RowDecoded(after, palette, row, RowBase(n, tilew), tilew, bits)
    ensures RowsDecoded(after, palette, source, tilew, n + 1, bits)
  {
    hide RowDecoded, RowOf, RowBase, RowBytes;
    forall y: nat | y < n
      ensures RowDecoded(after, palette, RowOf(source, y, RowBytes(tilew, bits)), RowBase(y, tilew), tilew, bits)
    {
      BaseNext(y, n, tilew);
      FrontKept(before, after, 4 * RowBase(n, tilew), 4 * (RowBase(y, tilew) + tilew));
      RowStays(before, after, palette, RowOf(source, y, RowBytes(tilew, bits)), RowBase(y, tilew), tilew, bits);
    }
  }

  lemma RowStays(before: seq<byte>, after: seq<byte>, palette: seq<byte>, row: seq<byte>, base: nat, n: nat, bits: nat)
    requires bits == 1 || bits == 2 || bits == 4
    requires RowDecoded(before, palette, row, base, n, bits) && |after| == |before|
    requires 4 * (base + n) <= |after| && after[..4 * (base + n)] == before[..4 * (base + n)]
    ensures RowDecoded(after, palette, row, base, n, bits)
  {
    forall x: nat | x < n
      ensures PixelDecoded(after, palette, row, base, x, bits)
    {
      assert PixelDecoded(before, palette, row, base, x, bits);
      PixelStays(before, after, palette, row, row, base, x, n, bits);
      hide PixelDecoded;
    }
  }

  // Runs stored in the tile.

  /** The first `n` pixels of the tile are those of a list that may be longer. */
  ghost predicate Stored(tile: seq<byte>, pixels: seq<Pixel>, n: nat) {
    n <= |pixels| && 4 * n <= |tile| && forall i: nat | i < n :: PixelOf(tile, i) == pixels[i]
  }

  /** Those of a list that fit the buffer. */
  ghost predicate StoredFront(tile: seq<byte>, done: seq<Pixel>) {
    |tile| == BUFFER && forall i: nat | i < |done| && 4 * i + 4 <= BUFFER :: PixelOf(tile, i) == done[i]
  }

  lemma NothingDone(s: seq<byte>, n: nat, palette: seq<byte>, size: nat)
    requires |palette| >= 512
    ensures Joined([], PlainRuns(s, n)) == PlainRuns(s, n)
    ensures Joined([], PaletteRuns(s, n, palette, size)) == PaletteRuns(s, n, palette, size)
  {
    var p, q := PlainRuns(s, n), PaletteRuns(s, n, palette, size);
    hide *;
    assert p.Parsed? ==> [] + p.value == p.value;
    assert q.Parsed? ==> [] + q.value == q.value;
  }

  lemma JoinedTwice(done: seq<Pixel>, run: seq<Pixel>, p: Parsed<seq<Pixel>>)
    ensures Joined(done + run, p) == Joined(done, Joined(run, p))
  {
    assert p.Parsed? ==> done + run + p.value == done + (run + p.value);
  }

  lemma PlainStep(done: seq<Pixel>, s: seq<byte>, n: int, length: nat, rest: seq<byte>)
    requires n > 0 && |s| >= 3 && ReadLength(s[3..]) == Parsed(length, rest)
    ensures Joined(done + Repeat(OpaquePixel(s, 0), length), PlainRuns(rest, n - length))
        == Joined(done, PlainRuns(s, n))
  {
    hide ReadLength, Joined, Repeat;
    JoinedTwice(done, Repeat(OpaquePixel(s, 0), length), PlainRuns(rest, n - length));
  }

  lemma NoPlainRun(done: seq<Pixel>, s: seq<byte>, n: int)
    requires n > 0
    ensures |s| < 3 || ReadLength(s[3..]).Fail? ==> Joined(done, PlainRuns(s, n)).Fail?
  {
    hide ReadLength;
  }

  lemma LengthPositive(s: seq<byte>)
    ensures ReadLength(s).Parsed? ==> ReadLength(s).value > 0
  {
  }

  lemma BufferStep(s: seq<byte>, n: int, buffer: seq<byte>, length: nat, rest: seq<byte>)
    requires n > 0 && |s| >= 3 && |buffer| == BUFFER && ReadLength(s[3..]) == Parsed(length, rest)
    ensures PlainBuffer(s, n, buffer) == PlainBuffer(rest, n - length, ReadInto(buffer, s, 1))
  {
    hide ReadLength, ReadInto;
  }

  lemma PaletteStep(done: seq<Pixel>, s: seq<byte>, n: nat, palette: seq<byte>, size: nat, r: Run<nat>, rest: seq<byte>)
    requires n > 0 && |palette| >= 512 && FirstRun(s, n, size) == Parsed(r, rest)
    ensures Joined(done + Repeat(PixelOf(palette, r.of), r.length), PaletteRuns(rest, n - r.length, palette, size))
         == Joined(done, PaletteRuns(s, n, palette, size))
  {
    hide FirstRun, Joined, Repeat;
    JoinedTwice(done, Repeat(PixelOf(palette, r.of), r.length), PaletteRuns(rest, n - r.length, palette, size));
  }

  lemma NoRun(done: seq<Pixel>, s: seq<byte>, n: nat, palette: seq<byte>, size: nat)
    requires n > 0 && |palette| >= 512 && FirstRun(s, n, size).Fail?
    ensures Joined(done, PaletteRuns(s, n, palette, size)).Fail?
  {
  }

  lemma RunStored(was: seq<byte>, tile: seq<byte>, done: seq<Pixel>, p: Pixel, length: nat)
    requires StoredFront(was, done) && |tile| == BUFFER
    requires forall i: nat | |done| <= i < |done| + length && 4 * i + 4 <= BUFFER :: PixelOf(tile, i) == p
    requires forall i: nat | i < |done| && 4 * i + 4 <= BUFFER :: PixelOf(tile, i) == PixelOf(was, i)
    ensures StoredFront(tile, done + Repeat(p, length))
  {
    hide PixelOf;
  }

  lemma AllStored(tile: seq<byte>, done: seq<Pixel>, n: nat)
    requires StoredFront(tile, done) && n <= 4096 && n <= |done|
    ensures Stored(tile, done, n)
  {
    hide PixelOf;
  }

  lemma FirstRead(before: seq<byte>, after: seq<byte>, source: seq<byte>)
    requires PixelsRead(before, after, source, 1)
    ensures 4 <= |after| && 3 <= |source| && PixelOf(after, 0) == OpaquePixel(source, 0)
  {
  }
}
