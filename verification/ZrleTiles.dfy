/**
 * ZRLE tiles as a server writes them (RFC 6143, section 7.7.6), and the pixels that each of them
 * shows: which subencoding leads to which pixels is stated from the tile alone.
 */
module ZrleTiles {
  import Arith
  import opened Bytes
  import opened Rects
  import opened Zrle

  type Index = i: nat | i < 128

  datatype Content =
    | Plain(colors: seq<Color>)
    | Solid(color: Color)
    | Packed(palette: seq<Color>, rows: seq<seq<Index>>)
    | Runs(runs: seq<Run<Color>>)
    | PaletteRuns(palette: seq<Color>, indexed: seq<Run<byte>>)

  // ---------------------------------------------------------------- bytes

  predicate Proper(c: Content, w: nat, h: nat) {
    match c
    case Plain(colors) => |colors| == w * h
    case Solid(_) => true
    case Packed(palette, rows) =>
      && 2 <= |palette| <= 16 && |rows| == h
      && forall row | row in rows :: |row| == w && forall i | i in row :: i < |palette|
    case Runs(runs) => (forall r | r in runs :: r.length > 0) && |ExpandPlain(runs)| == w * h
    case PaletteRuns(palette, indexed) =>
      && 2 <= |palette| <= 127 && Lengths(indexed) == w * h
      && forall r | r in indexed :: r.length > 0 && (r.of as int) < |palette|
  }

  function Lengths(runs: seq<Run<byte>>): nat {
    if |runs| == 0 then 0 else runs[0].length + Lengths(runs[1..])
  }

  function ColorsSent(colors: seq<Color>): seq<byte> {
    if |colors| == 0 then [] else colors[0] + ColorsSent(colors[1..])
  }

  function FieldBits(colors: nat): nat { if colors <= 2 then 1 else if colors <= 4 then 2 else 4 }

  function At(row: seq<Index>, i: nat): nat { if i < |row| then row[i] else 0 }

  /** The indices at the front of a row in one byte, the first in its top bits. */
  function FieldByte(row: seq<Index>, bits: nat): byte
    requires bits == 1 || bits == 2 || bits == 4
  {
    var v :=
      if bits == 1 then
        At(row, 0) % 2 * 128 + At(row, 1) % 2 * 64 + At(row, 2) % 2 * 32 + At(row, 3) % 2 * 16
        + At(row, 4) % 2 * 8 + At(row, 5) % 2 * 4 + At(row, 6) % 2 * 2 + At(row, 7) % 2
      else if bits == 2 then At(row, 0) % 4 * 64 + At(row, 1) % 4 * 16 + At(row, 2) % 4 * 4 + At(row, 3) % 4
      else At(row, 0) % 16 * 16 + At(row, 1) % 16;
    v
  }

  /** A row of indices, its last byte filled up with zeros. */
  function RowSent(row: seq<Index>, bits: nat): seq<byte>
    requires bits == 1 || bits == 2 || bits == 4
    decreases |row|
  {
    var per := 8 / bits;
    if |row| == 0 then [] else [FieldByte(row, bits)] + if |row| <= per then [] else RowSent(row[per..], bits)
  }

  function RowsSent(rows: seq<seq<Index>>, bits: nat): seq<byte>
    requires bits == 1 || bits == 2 || bits == 4
  {
    if |rows| == 0 then [] else RowSent(rows[0], bits) + RowsSent(rows[1..], bits)
  }

  function TileSent(c: Content, w: nat, h: nat): seq<byte>
    requires Proper(c, w, h)
  {
    match c
    case Plain(colors) => [0] + ColorsSent(colors)
    case Solid(color) => [1] + color
    case Packed(palette, rows) => [|palette|] + (ColorsSent(palette) + RowsSent(rows, FieldBits(|palette|)))
    case Runs(runs) => [128] + EncodePlain(runs)
    case PaletteRuns(palette, indexed) => [128 + |palette|] + (ColorsSent(palette) + EncodePaletteRuns(indexed))
  }

  // ---------------------------------------------------------------- pixels

  function Opaque(c: Color): Pixel { [c[0], c[1], c[2], 255] }

  function Opaques(colors: seq<Color>): (s: seq<Pixel>)
    ensures |s| == |colors|
  {
    seq(|colors|, i requires 0 <= i < |colors| => Opaque(colors[i]))
  }

  function Named(palette: seq<Color>, i: nat): Pixel { if i < |palette| then Opaque(palette[i]) else [0, 0, 0, 255] }

  function RowPixels(palette: seq<Color>, row: seq<Index>): (s: seq<Pixel>)
    ensures |s| == |row|
  {
    seq(|row|, i requires 0 <= i < |row| => Named(palette, row[i]))
  }

  function RowsPixels(palette: seq<Color>, rows: seq<seq<Index>>): seq<Pixel> {
    if |rows| == 0 then [] else RowPixels(palette, rows[0]) + RowsPixels(palette, rows[1..])
  }

  function Times(p: Pixel, n: nat): seq<Pixel> { seq(n, _ => p) }

  function RunPixels(runs: seq<Run<Color>>): seq<Pixel> {
    if |runs| == 0 then [] else Times(Opaque(runs[0].of), runs[0].length) + RunPixels(runs[1..])
  }

  function IndexedPixels(palette: seq<Color>, runs: seq<Run<byte>>): seq<Pixel> {
    if |runs| == 0 then []
    else Times(Named(palette, runs[0].of), runs[0].length) + IndexedPixels(palette, runs[1..])
  }

  /** The pixels of a tile, row by row from the top. */
  function PixelsOf(c: Content, w: nat, h: nat): seq<Pixel> {
    match c
    case Plain(colors) => Opaques(colors)
    case Solid(color) => Times(Opaque(color), w * h)
    case Packed(palette, rows) => RowsPixels(palette, rows)
    case Runs(runs) => RunPixels(runs)
    case PaletteRuns(palette, indexed) => IndexedPixels(palette, indexed)
  }

  // ---------------------------------------------------------------- colours read back

  lemma {:induction false} ColorAt(colors: seq<Color>, i: nat)
    ensures |ColorsSent(colors)| == 3 * |colors|
    ensures i < |colors| ==> ColorsSent(colors)[3 * i..3 * i + 3] == colors[i]
    decreases |colors|
  {
    if |colors| > 0 {
      var first: seq<byte>, rest := colors[0], ColorsSent(colors[1..]);
      ColorAt(colors[1..], if i > 0 then i - 1 else 0);
      if 0 < i < |colors| {
        assert (first + rest)[3 * i..3 * i + 3] == rest[3 * (i - 1)..3 * (i - 1) + 3];
      }
    }
  }

  lemma OpaqueAt(colors: seq<Color>, x: seq<byte>, i: nat)
    requires i < |colors|
    ensures |ColorsSent(colors)| == 3 * |colors|
    ensures OpaquePixel(ColorsSent(colors) + x, i) == Opaque(colors[i])
  {
    ColorAt(colors, i);
    var s := ColorsSent(colors);
    assert s[3 * i] == s[3 * i..3 * i + 3][0] && s[3 * i + 1] == s[3 * i..3 * i + 3][1]
        && s[3 * i + 2] == s[3 * i..3 * i + 3][2];
  }

  lemma PlainRead(colors: seq<Color>, x: seq<byte>)
    ensures |ColorsSent(colors)| == 3 * |colors|
    ensures OpaquePixels(ColorsSent(colors) + x, |colors|) == Opaques(colors)
  {
    ColorAt(colors, 0);
    hide OpaquePixel, Opaque;
    forall i: nat | i < |colors|
      ensures OpaquePixels(ColorsSent(colors) + x, |colors|)[i] == Opaques(colors)[i]
    {
      OpaqueAt(colors, x, i);
    }
  }

  /** The palette as it stands at the front of the pixel buffer. */
  lemma PaletteRead(palette: seq<Color>, x: seq<byte>, buffer: seq<byte>, i: nat)
    requires i < |palette| <= 127 && |buffer| == BUFFER
    ensures |ColorsSent(palette)| == 3 * |palette|
    ensures PixelOf(ReadInto(buffer, ColorsSent(palette) + x, |palette|), i) == Named(palette, i)
  {
    OpaqueAt(palette, x, i);
    hide OpaquePixel, Opaque, ColorsSent;
    ReadAt(buffer, ColorsSent(palette) + x, |palette|, i);
  }

  lemma ReadAt(buffer: seq<byte>, data: seq<byte>, n: nat, i: nat)
    requires i < n && 4 * n <= |buffer| && 3 * n <= |data|
    ensures PixelOf(ReadInto(buffer, data, n), i) == OpaquePixel(data, i)
  {
    hide OpaquePixel;
    var after := ReadInto(buffer, data, n);
    forall k: nat | k < 4
      ensures after[4 * i + k] == OpaquePixel(data, i)[k]
    {
      assert (4 * i + k) / 4 == i && (4 * i + k) % 4 == k;
    }
  }

  /** The buffer's front holds the palette. */
  ghost predicate Held(buffer: seq<byte>, palette: seq<Color>) {
    |buffer| >= 512 && |palette| <= 127 && forall i: nat | i < |palette| :: PixelOf(buffer, i) == Named(palette, i)
  }

  lemma HeldAt(buffer: seq<byte>, palette: seq<Color>, i: nat)
    requires Held(buffer, palette) && i < |palette|
    ensures |buffer| >= 512 && PixelOf(buffer, i) == Named(palette, i)
  {
  }

  lemma PaletteHeld(palette: seq<Color>, x: seq<byte>, buffer: seq<byte>)
    requires 2 <= |palette| <= 127 && |buffer| == BUFFER
    ensures |ColorsSent(palette)| == 3 * |palette|
    ensures Held(ReadInto(buffer, ColorsSent(palette) + x, |palette|), palette)
  {
    ColorAt(palette, 0);
    hide PixelOf, Named, ColorsSent, ReadInto;
    forall i: nat | i < |palette|
      ensures PixelOf(ReadInto(buffer, ColorsSent(palette) + x, |palette|), i) == Named(palette, i)
    {
      PaletteRead(palette, x, buffer, i);
    }
  }

  // ---------------------------------------------------------------- runs

  lemma {:induction false} RunsExpanded(runs: seq<Run<Color>>)
    ensures ExpandPlain(runs) == RunPixels(runs)
  {
    if |runs| > 0 {
      RunsExpanded(runs[1..]);
    }
  }

  lemma {:induction false} IndexedExpanded(palette: seq<Color>, runs: seq<Run<byte>>, buffer: seq<byte>)
    requires Held(buffer, palette) && forall r | r in runs :: (r.of as int) < |palette|
    ensures ExpandPaletteRuns(runs, buffer) == IndexedPixels(palette, runs)
    ensures |IndexedPixels(palette, runs)| == Lengths(runs)
  {
    if |runs| > 0 {
      HeldAt(buffer, palette, runs[0].of);
      hide PixelOf, Named;
      IndexedExpanded(palette, runs[1..], buffer);
    }
  }

  // ---------------------------------------------------------------- packed indices

  lemma Powers()
    ensures Power(0) == 1 && Power(1) == 2 && Power(2) == 4 && Power(3) == 8 && Power(4) == 16
    ensures Power(5) == 32 && Power(6) == 64 && Power(7) == 128
  {
    assert Power(4) == 16;
  }

  lemma EightBits(a: nat, b: nat, c: nat, d: nat, e: nat, f: nat, g: nat, h: nat)
    requires a < 2 && b < 2 && c < 2 && d < 2 && e < 2 && f < 2 && g < 2 && h < 2
    ensures var v := a * 128 + b * 64 + c * 32 + d * 16 + e * 8 + f * 4 + g * 2 + h;
            && v / 128 % 2 == a && v / 64 % 2 == b && v / 32 % 2 == c && v / 16 % 2 == d
            && v / 8 % 2 == e && v / 4 % 2 == f && v / 2 % 2 == g && v / 1 % 2 == h
  {
    var v := a * 128 + b * 64 + c * 32 + d * 16 + e * 8 + f * 4 + g * 2 + h;
    assert v / 2 == 64 * a + 32 * b + 16 * c + 8 * d + 4 * e + 2 * f + g;
    assert v / 4 == 32 * a + 16 * b + 8 * c + 4 * d + 2 * e + f;
    assert v / 8 == 16 * a + 8 * b + 4 * c + 2 * d + e;
    assert v / 16 == 8 * a + 4 * b + 2 * c + d;
    assert v / 32 == 4 * a + 2 * b + c;
    assert v / 64 == 2 * a + b;
    assert v / 128 == a;
  }

  lemma FourPairs(a: nat, b: nat, c: nat, d: nat)
    requires a < 4 && b < 4 && c < 4 && d < 4
    ensures var v := a * 64 + b * 16 + c * 4 + d;
            v / 64 % 4 == a && v / 16 % 4 == b && v / 4 % 4 == c && v / 1 % 4 == d
  {
  }

  lemma AtIs(row: seq<Index>, i: nat)
    requires i < |row|
    ensures At(row, i) == row[i]
  {
  }

  lemma BitRead(row: seq<Index>, i: nat)
    requires i < |row| && i < 8 && row[i] < 2
    ensures Masked(FieldByte(row, 1), 7 - i, 1) == row[i]
  {
    Powers();
    AtIs(row, i);
    hide Power, At;
    EightBits(At(row, 0) % 2, At(row, 1) % 2, At(row, 2) % 2, At(row, 3) % 2,
              At(row, 4) % 2, At(row, 5) % 2, At(row, 6) % 2, At(row, 7) % 2);
  }

  lemma PairRead(row: seq<Index>, i: nat)
    requires i < |row| && i < 4 && row[i] < 4
    ensures Masked(FieldByte(row, 2), 6 - 2 * i, 2) == row[i]
  {
    Powers();
    AtIs(row, i);
    hide Power, At;
    FourPairs(At(row, 0) % 4, At(row, 1) % 4, At(row, 2) % 4, At(row, 3) % 4);
  }

  lemma NibbleRead(row: seq<Index>, i: nat)
    requires i < |row| && i < 2 && row[i] < 16
    ensures Masked(FieldByte(row, 4), 4 - 4 * i, 4) == row[i]
  {
    Powers();
    AtIs(row, i);
    hide Power, At;
    var a, b := At(row, 0) % 16, At(row, 1) % 16;
    assert (a * 16 + b) / 16 % 16 == a && (a * 16 + b) / 1 % 16 == b;
  }

  /** Field `i` of a byte is the index that was put there. */
  lemma FieldRead(row: seq<Index>, bits: nat, i: nat)
    requires (bits == 1 || bits == 2 || bits == 4) && i < |row| && i < PixelsPerByte(bits) && row[i] < Power(bits)
    ensures bits * (i + 1) <= 8 && Masked(FieldByte(row, bits), 8 - bits * (i + 1), bits) == row[i]
  {
    Powers();
    hide Power, Masked, FieldByte;
    if bits == 1 {
      BitRead(row, i);
    } else if bits == 2 {
      PairRead(row, i);
    } else {
      NibbleRead(row, i);
    }
  }

  lemma RowBytesStep(n: nat, bits: nat)
    requires bits == 1 || bits == 2 || bits == 4
    ensures var per := PixelsPerByte(bits);
            && per == 8 / bits
            && RowBytes(n, bits) == if n == 0 then 0 else if n <= per then 1 else 1 + RowBytes(n - per, bits)
  {
    if bits == 1 {
    } else if bits == 2 {
    } else {
    }
  }

  lemma FieldBehind(b: byte, rest: seq<byte>, x: nat, bits: nat)
    requires (bits == 1 || bits == 2 || bits == 4) && x >= PixelsPerByte(bits)
    requires (x - PixelsPerByte(bits)) / PixelsPerByte(bits) < |rest|
    ensures x / PixelsPerByte(bits) < |[b] + rest|
    ensures IndexOf([b] + rest, x, bits) == IndexOf(rest, x - PixelsPerByte(bits), bits)
  {
    hide Masked;
    var per := PixelsPerByte(bits);
    if bits == 1 {
      assert (x - 8) / 8 == x / 8 - 1 && (x - 8) % 8 == x % 8;
    } else if bits == 2 {
      assert (x - 4) / 4 == x / 4 - 1 && (x - 4) % 4 == x % 4;
    } else {
      assert (x - 2) / 2 == x / 2 - 1 && (x - 2) % 2 == x % 2;
    }
    assert ([b] + rest)[x / per] == rest[(x - per) / per];
  }

  lemma FieldInFront(row: seq<Index>, rest: seq<byte>, x: nat, bits: nat)
    requires (bits == 1 || bits == 2 || bits == 4) && x < PixelsPerByte(bits) && x < |row| && row[x] < Power(bits)
    ensures x / PixelsPerByte(bits) == 0 && IndexOf([FieldByte(row, bits)] + rest, x, bits) == row[x]
  {
    FieldRead(row, bits, x);
    hide Masked, FieldByte;
    assert x / PixelsPerByte(bits) == 0 && x % PixelsPerByte(bits) == x;
  }

  /** Every index of the row is below `n`. */
  predicate Below(row: seq<Index>, n: nat) { forall i | i in row :: i < n }

  lemma BelowBehind(row: seq<Index>, n: nat, k: nat)
    requires Below(row, n) && k <= |row|
    ensures Below(row[k..], n)
  {
    assert forall i | i in row[k..] :: i in row;
  }

  lemma {:induction false} RowRead(row: seq<Index>, bits: nat, x: nat)
    requires (bits == 1 || bits == 2 || bits == 4) && Below(row, Power(bits))
    ensures |RowSent(row, bits)| == RowBytes(|row|, bits)
    ensures x < |row| ==>
              x / PixelsPerByte(bits) < |RowSent(row, bits)| && IndexOf(RowSent(row, bits), x, bits) == row[x]
    decreases |row|
  {
    RowBytesStep(|row|, bits);
    var per := PixelsPerByte(bits);
    if |row| > 0 {
      var b := FieldByte(row, bits);
      var tail := if |row| <= per then [] else RowSent(row[per..], bits);
      assert RowSent(row, bits) == [b] + tail;
      if |row| > per {
        BelowBehind(row, Power(bits), per);
        hide FieldByte, RowBytes, Power, IndexOf, Below;
        RowRead(row[per..], bits, if x >= per then x - per else 0);
      }
      hide FieldByte, RowBytes, Power, IndexOf, RowSent;
      if x < per && x < |row| {
        assert row[x] in row;
        FieldInFront(row, tail, x, bits);
      } else if x < |row| {
        FieldBehind(b, tail, x, bits);
      }
    }
  }

  predicate Wide(rows: seq<seq<Index>>, w: nat, n: nat) { forall row | row in rows :: |row| == w && Below(row, n) }

  lemma FirstRow(rows: seq<seq<Index>>, w: nat, n: nat)
    requires Wide(rows, w, n) && |rows| > 0
    ensures |rows[0]| == w && Below(rows[0], n) && Wide(rows[1..], w, n)
  {
    assert forall row | row in rows[1..] :: row in rows;
  }

  lemma RowSize(row: seq<Index>, bits: nat, w: nat)
    requires (bits == 1 || bits == 2 || bits == 4) && Below(row, Power(bits)) && |row| == w
    ensures |RowSent(row, bits)| == RowBytes(w, bits)
  {
    RowRead(row, bits, 0);
  }

  /** `n` times `rb`. */
  function Total(n: nat, rb: nat): nat { if n == 0 then 0 else rb + Total(n - 1, rb) }

  lemma {:induction false} TotalIs(n: nat, rb: nat)
    ensures Total(n, rb) == n * rb
  {
    if n > 0 {
      TotalIs(n - 1, rb);
      OneMoreRow(n, rb);
    }
  }

  lemma FirstRowSize(rows: seq<seq<Index>>, w: nat, bits: nat)
    requires (bits == 1 || bits == 2 || bits == 4) && Wide(rows, w, Power(bits)) && |rows| > 0
    ensures Wide(rows[1..], w, Power(bits))
    ensures |RowsSent(rows, bits)| == RowBytes(w, bits) + |RowsSent(rows[1..], bits)|
  {
    hide RowSent, RowsSent, RowBytes, Power, Wide, Below;
    FirstRow(rows, w, Power(bits));
    RowsUnfold(rows, bits);
    RowSize(rows[0], bits, w);
  }

  lemma {:induction false} RowsTotal(rows: seq<seq<Index>>, w: nat, bits: nat)
    requires (bits == 1 || bits == 2 || bits == 4) && Wide(rows, w, Power(bits))
    ensures |RowsSent(rows, bits)| == Total(|rows|, RowBytes(w, bits))
    decreases |rows|
  {
    if |rows| > 0 {
      hide RowSent, RowsSent, RowBytes, Power, Wide, Below;
      FirstRowSize(rows, w, bits);
      RowsTotal(rows[1..], w, bits);
    }
  }

  lemma RowsSize(rows: seq<seq<Index>>, w: nat, bits: nat)
    requires (bits == 1 || bits == 2 || bits == 4) && Wide(rows, w, Power(bits))
    ensures |RowsSent(rows, bits)| == |rows| * RowBytes(w, bits)
  {
    hide RowBytes, RowsSent, Total;
    RowsTotal(rows, w, bits);
    TotalIs(|rows|, RowBytes(w, bits));
  }

  lemma RowsUnfold(rows: seq<seq<Index>>, bits: nat)
    requires (bits == 1 || bits == 2 || bits == 4) && |rows| > 0
    ensures RowsSent(rows, bits) == RowSent(rows[0], bits) + RowsSent(rows[1..], bits)
  {
  }

  lemma OneMoreRow(n: nat, rb: nat)
    requires n > 0
    ensures n * rb == rb + (n - 1) * rb
  {
  }

  lemma RowFits(y: nat, n: nat, rb: nat)
    requires y < n
    ensures y * rb + rb <= n * rb
  {
    Arith.Distribute(y, 1, rb);
    Arith.MulLe(y + 1, n, rb);
  }

  lemma RowIsThere(rows: seq<seq<Index>>, w: nat, bits: nat, x: seq<byte>, y: nat)
    requires (bits == 1 || bits == 2 || bits == 4) && Wide(rows, w, Power(bits)) && y < |rows|
    ensures y * RowBytes(w, bits) + RowBytes(w, bits) <= |RowsSent(rows, bits) + x|
  {
    RowsSize(rows, w, bits);
    hide RowsSent, RowBytes;
    RowFits(y, |rows|, RowBytes(w, bits));
  }

  /** The bytes of row `y` begin after those of the rows before it. */
  lemma {:induction false} RowsRead(rows: seq<seq<Index>>, w: nat, bits: nat, x: seq<byte>, y: nat)
    requires (bits == 1 || bits == 2 || bits == 4) && Wide(rows, w, Power(bits)) && y < |rows|
    ensures RowOf(RowsSent(rows, bits) + x, y, RowBytes(w, bits)) == RowSent(rows[y], bits)
    decreases |rows|
  {
    FirstRow(rows, w, Power(bits));
    var rb := RowBytes(w, bits);
    var first, rest := RowSent(rows[0], bits), rows[1..];
    RowRead(rows[0], bits, 0);
    RowsUnfold(rows, bits);
    hide RowSent, RowsSent, RowBytes, Power, Wide, Below, RowOf;
    var tail := RowsSent(rest, bits) + x;
    Associate(first, RowsSent(rest, bits), x);
    if y > 0 {
      RowIsThere(rest, w, bits, x, y - 1);
      RowsRead(rest, w, bits, x, y - 1);
      RowBehind(first, tail, y, rb);
    } else {
      RowInFront(first, tail);
    }
  }

  lemma Associate(a: seq<byte>, b: seq<byte>, x: seq<byte>)
    ensures a + b + x == a + (b + x)
  {
  }

  lemma RowInFront(first: seq<byte>, tail: seq<byte>)
    ensures RowOf(first + tail, 0, |first|) == first
  {
  }

  lemma RowBehind(first: seq<byte>, tail: seq<byte>, y: nat, rb: nat)
    requires y > 0 && |first| == rb && (y - 1) * rb + rb <= |tail|
    ensures RowOf(first + tail, y, rb) == RowOf(tail, y - 1, rb)
  {
    Arith.Distribute(1, y - 1, rb);
    var k := (y - 1) * rb;
    assert (first + tail)[rb + k..rb + k + rb] == tail[k..k + rb];
  }

  lemma PixelsUnfold(palette: seq<Color>, rows: seq<seq<Index>>)
    requires |rows| > 0
    ensures RowsPixels(palette, rows) == RowPixels(palette, rows[0]) + RowsPixels(palette, rows[1..])
  {
  }

  lemma {:induction false} RowsPixelsSize(palette: seq<Color>, rows: seq<seq<Index>>, w: nat, n: nat)
    requires Wide(rows, w, n)
    ensures |RowsPixels(palette, rows)| == |rows| * w
    decreases |rows|
  {
    if |rows| > 0 {
      FirstRow(rows, w, n);
      PixelsUnfold(palette, rows);
      hide Wide, Below, RowsPixels;
      RowsPixelsSize(palette, rows[1..], w, n);
      OneMoreRow(|rows|, w);
    }
  }

  /** Where pixel `x` of row `y` is, counting from the first. */
  function Offset(w: nat, x: nat, y: nat): nat { if y == 0 then x else w + Offset(w, x, y - 1) }

  lemma {:induction false} OffsetIs(w: nat, x: nat, y: nat)
    ensures Offset(w, x, y) == y * w + x
  {
    if y > 0 {
      OffsetIs(w, x, y - 1);
      OneMoreRow(y, w);
    }
  }

  lemma {:induction false} RowsPixelAt(palette: seq<Color>, rows: seq<seq<Index>>, w: nat, n: nat, x: nat, y: nat)
    requires Wide(rows, w, n) && y < |rows| && x < w
    ensures |rows[y]| == w && Offset(w, x, y) < |RowsPixels(palette, rows)|
    ensures RowsPixels(palette, rows)[Offset(w, x, y)] == Named(palette, rows[y][x])
    decreases |rows|
  {
    FirstRow(rows, w, n);
    PixelsUnfold(palette, rows);
    hide Wide, Below, Named, RowsPixels;
    var first, rest := RowPixels(palette, rows[0]), RowsPixels(palette, rows[1..]);
    if y > 0 {
      RowsPixelAt(palette, rows[1..], w, n, x, y - 1);
      assert (first + rest)[w + Offset(w, x, y - 1)] == rest[Offset(w, x, y - 1)];
    } else {
      assert (first + rest)[x] == first[x];
    }
  }

  /** One packed pixel is the palette entry that its index names. */
  lemma PackedRead(palette: seq<Color>, rows: seq<seq<Index>>, w: nat, bits: nat, x: seq<byte>, buffer: seq<byte>,
                   px: nat, py: nat)
    requires (bits == 1 || bits == 2 || bits == 4) && |palette| <= Power(bits) && Held(buffer, palette)
    requires Wide(rows, w, |palette|) && py < |rows| && px < w
    ensures |rows[py]| == w
    ensures PackedPixel(buffer, RowsSent(rows, bits) + x, px, py, w, bits) == Named(palette, rows[py][px])
  {
    RowOfRows(rows, w, |palette|, py, px);
    WideEnough(rows, w, |palette|, Power(bits));
    BelowMore(rows[py], |palette|, Power(bits));
    hide Wide, Below, Power, RowsSent, RowSent, Held, Named, PixelOf, RowBytes, RowOf, IndexOf;
    RowsRead(rows, w, bits, x, py);
    RowRead(rows[py], bits, px);
    HeldAt(buffer, palette, rows[py][px]);
  }

  lemma RowOfRows(rows: seq<seq<Index>>, w: nat, n: nat, y: nat, x: nat)
    requires Wide(rows, w, n) && y < |rows| && x < w
    ensures |rows[y]| == w && Below(rows[y], n) && rows[y][x] < n
  {
    assert rows[y] in rows;
    assert rows[y][x] in rows[y];
  }

  lemma BelowMore(row: seq<Index>, n: nat, m: nat)
    requires Below(row, n) && n <= m
    ensures Below(row, m)
  {
  }

  lemma WideEnough(rows: seq<seq<Index>>, w: nat, n: nat, m: nat)
    requires Wide(rows, w, n) && n <= m
    ensures Wide(rows, w, m)
  {
  }

  lemma PackedRows(palette: seq<Color>, rows: seq<seq<Index>>, w: nat, bits: nat, x: seq<byte>, buffer: seq<byte>)
    requires (bits == 1 || bits == 2 || bits == 4) && |palette| <= Power(bits) && Held(buffer, palette)
    requires Wide(rows, w, |palette|) && w > 0
    ensures PackedPixels(buffer, RowsSent(rows, bits) + x, w, |rows|, bits) == RowsPixels(palette, rows)
  {
    RowsPixelsSize(palette, rows, w, |palette|);
    var source := RowsSent(rows, bits) + x;
    hide RowsSent, RowsPixels, PackedPixels, Wide, Power, Held;
    forall k: nat | k < w * |rows|
      ensures k < |RowsPixels(palette, rows)|
      ensures PackedPixels(buffer, source, w, |rows|, bits)[k] == RowsPixels(palette, rows)[k]
    {
      PackedPlace(palette, rows, w, bits, x, buffer, k);
    }
  }

  lemma PackedPlace(palette: seq<Color>, rows: seq<seq<Index>>, w: nat, bits: nat, x: seq<byte>, buffer: seq<byte>,
                    k: nat)
    requires (bits == 1 || bits == 2 || bits == 4) && |palette| <= Power(bits) && Held(buffer, palette)
    requires Wide(rows, w, |palette|) && w > 0 && k < w * |rows|
    ensures k < |RowsPixels(palette, rows)|
    ensures PackedPixels(buffer, RowsSent(rows, bits) + x, w, |rows|, bits)[k] == RowsPixels(palette, rows)[k]
  {
    hide RowsSent, RowsPixels, PackedPixels, PackedPixel, Wide, Power, Held, Named, Offset;
    var px, py := k % w, k / w;
    Arith.DivLt(k, w, |rows|);
    assert k == py * w + px;
    PackedPixelOf(buffer, RowsSent(rows, bits) + x, k, w, |rows|, bits);
    PackedRead(palette, rows, w, bits, x, buffer, px, py);
    RowsPixelAt(palette, rows, w, |palette|, px, py);
    OffsetIs(w, px, py);
  }

  // ---------------------------------------------------------------- one tile

  /** The tile was read whole, and shows these pixels. */
  ghost predicate Shown(p: Parsed<Tile>, pixels: seq<Pixel>, x: seq<byte>) {
    p.Parsed? && p.value.pixels == pixels && p.rest == x && |p.value.buffer| == BUFFER
  }

  lemma Fits(w: nat, h: nat)
    requires 1 <= w <= 64 && 1 <= h <= 64
    ensures 1 <= w * h <= 4096
  {
    SizeFits(w, h);
    Arith.MulLe(1, h, w);
  }

  lemma PlainShown(colors: seq<Color>, w: nat, h: nat, buffer: seq<byte>, x: seq<byte>)
    requires |colors| == w * h && |buffer| == BUFFER && 1 <= w <= 64 && 1 <= h <= 64
    ensures Shown(RawTile(ColorsSent(colors) + x, w, h, buffer), Opaques(colors), x)
  {
    PlainRead(colors, x);
    Fits(w, h);
    hide ColorsSent, OpaquePixels, Opaques, ReadInto;
  }

  lemma SolidShown(color: Color, w: nat, h: nat, buffer: seq<byte>, x: seq<byte>)
    requires |buffer| == BUFFER && 1 <= w <= 64 && 1 <= h <= 64
    ensures Shown(SolidTile(color + x, w, h, buffer), Times(Opaque(color), w * h), x)
  {
    hide ReadInto;
    assert OpaquePixel(color + x, 0) == Opaque(color);
    assert (color + x)[3..] == x;
  }

  lemma BitsFit(n: nat)
    requires 2 <= n <= 16
    ensures BitsPerPixel(n) == FieldBits(n) && n <= Power(FieldBits(n))
  {
    Powers();
  }

  lemma PackedShown(palette: seq<Color>, rows: seq<seq<Index>>, w: nat, h: nat, buffer: seq<byte>, x: seq<byte>)
    requires Proper(Packed(palette, rows), w, h) && |buffer| == BUFFER && 1 <= w <= 64 && 1 <= h <= 64
    ensures Shown(PackedTile(|palette|, ColorsSent(palette) + RowsSent(rows, FieldBits(|palette|)) + x, w, h, buffer),
                  RowsPixels(palette, rows), x)
  {
    var n := |palette|;
    BitsFit(n);
    var bits := FieldBits(n);
    assert Wide(rows, w, n);
    var data := RowsSent(rows, bits);
    hide Wide, RowBytes, ColorsSent, RowsSent, ReadInto, PackedPixels, RowsPixels, FieldBits, BitsPerPixel, Power, Held;
    var s := ColorsSent(palette) + data + x;
    Associate(ColorsSent(palette), data, x);
    PaletteHeld(palette, data + x, buffer);
    WideEnough(rows, w, n, Power(bits));
    RowsSize(rows, w, bits);
    assert s[3 * n..] == data + x && (data + x)[|data|..] == x;
    PackedRows(palette, rows, w, bits, x, ReadInto(buffer, s, n));
  }

  lemma RunsShown(runs: seq<Run<Color>>, w: nat, h: nat, buffer: seq<byte>, x: seq<byte>)
    requires Proper(Runs(runs), w, h) && |buffer| == BUFFER && 1 <= w <= 64 && 1 <= h <= 64
    ensures Shown(PlainTile(EncodePlain(runs) + x, w, h, buffer), RunPixels(runs), x)
  {
    PlainRoundTrip(runs, x);
    RunsExpanded(runs);
    hide EncodePlain, PlainRuns, RunPixels, PlainBuffer;
    var pixels := RunPixels(runs);
    assert pixels[..w * h] == pixels;
  }

  lemma PaletteRunsShown(palette: seq<Color>, runs: seq<Run<byte>>, w: nat, h: nat, buffer: seq<byte>, x: seq<byte>)
    requires Proper(PaletteRuns(palette, runs), w, h) && |buffer| == BUFFER && 1 <= w <= 64 && 1 <= h <= 64
    ensures Shown(RunsTile(|palette|, ColorsSent(palette) + EncodePaletteRuns(runs) + x, w, h, buffer),
                  IndexedPixels(palette, runs), x)
  {
    var n := |palette|;
    var data := EncodePaletteRuns(runs);
    var s := ColorsSent(palette) + data + x;
    Associate(ColorsSent(palette), data, x);
    hide ColorsSent, ReadInto, EncodePaletteRuns, IndexedPixels, Zrle.PaletteRuns, ExpandPaletteRuns, Held;
    PaletteHeld(palette, data + x, buffer);
    var after := ReadInto(buffer, s, n);
    IndexedExpanded(palette, runs, after);
    RunsRead(palette, runs, after, x);
    assert s[3 * n..] == data + x;
  }

  lemma RunsRead(palette: seq<Color>, runs: seq<Run<byte>>, buffer: seq<byte>, x: seq<byte>)
    requires Held(buffer, palette) && forall r | r in runs :: r.length > 0 && (r.of as int) < |palette|
    ensures Zrle.PaletteRuns(EncodePaletteRuns(runs) + x, Lengths(runs), buffer, |palette|)
         == Parsed(IndexedPixels(palette, runs), x)
  {
    IndexedExpanded(palette, runs, buffer);
    hide IndexedPixels, ExpandPaletteRuns, Zrle.PaletteRuns, EncodePaletteRuns;
    PaletteRoundTrip(runs, buffer, |palette|, x);
  }

  /** Every tile is decoded whole, to its own pixels. */
  lemma TileIsShown(c: Content, w: nat, h: nat, buffer: seq<byte>, x: seq<byte>)
    requires Proper(c, w, h) && |buffer| == BUFFER && 1 <= w <= 64 && 1 <= h <= 64
    ensures Shown(TileOf(TileSent(c, w, h) + x, w, h, buffer), PixelsOf(c, w, h), x)
  {
    hide RawTile, SolidTile, PackedTile, PlainTile, RunsTile, Shown, ColorsSent, RowsSent;
    hide EncodePlain, EncodePaletteRuns;
    match c
    case Plain(colors) =>
      AfterSubencoding(0, ColorsSent(colors), x);
      PlainShown(colors, w, h, buffer, x);
    case Solid(color) =>
      AfterSubencoding(1, color, x);
      SolidShown(color, w, h, buffer, x);
    case Packed(palette, rows) =>
      AfterSubencoding(|palette|, ColorsSent(palette) + RowsSent(rows, FieldBits(|palette|)), x);
      PackedShown(palette, rows, w, h, buffer, x);
    case Runs(runs) =>
      AfterSubencoding(128, EncodePlain(runs), x);
      RunsShown(runs, w, h, buffer, x);
    case PaletteRuns(palette, indexed) =>
      AfterSubencoding(128 + |palette|, ColorsSent(palette) + EncodePaletteRuns(indexed), x);
      PaletteRunsShown(palette, indexed, w, h, buffer, x);
  }

  lemma AfterSubencoding(sub: byte, data: seq<byte>, x: seq<byte>)
    ensures ([sub] + data + x)[0] == sub && ([sub] + data + x)[1..] == data + x
  {
  }

  // ---------------------------------------------------------------- a rectangle

  /** Where the walk over the tiles, row by row, is over, and where it is past the end of a row. */
  predicate Over(r: Rect, row: nat) { 64 * row >= r.h || r.w == 0 }
  predicate Past(r: Rect, column: nat) { 64 * column >= r.w }

  /** A tile for each place from the given one on, and proper there. */
  predicate AllProper(r: Rect, row: nat, column: nat, cs: seq<Content>)
    decreases r.h - 64 * row, r.w - 64 * column
  {
    if Over(r, row) then cs == []
    else if Past(r, column) then AllProper(r, row + 1, 0, cs)
    else
      && cs != [] && Proper(cs[0], TileAt(r, column, row).w, TileAt(r, column, row).h)
      && AllProper(r, row, column + 1, cs[1..])
  }

  function TilesSent(r: Rect, row: nat, column: nat, cs: seq<Content>): seq<byte>
    requires AllProper(r, row, column, cs)
    decreases r.h - 64 * row, r.w - 64 * column
  {
    if Over(r, row) then []
    else if Past(r, column) then TilesSent(r, row + 1, 0, cs)
    else
      TileSent(cs[0], TileAt(r, column, row).w, TileAt(r, column, row).h) + TilesSent(r, row, column + 1, cs[1..])
  }

  /** Each tile's pixels at its own place. */
  function Pieces(r: Rect, row: nat, column: nat, cs: seq<Content>): seq<Piece>
    requires AllProper(r, row, column, cs)
    decreases r.h - 64 * row, r.w - 64 * column
  {
    if Over(r, row) then []
    else if Past(r, column) then Pieces(r, row + 1, 0, cs)
    else
      var t := TileAt(r, column, row);
      [Piece(t, PixelsOf(cs[0], t.w, t.h))] + Pieces(r, row, column + 1, cs[1..])
  }

  /** For every rectangle, decoding its tiles gives each tile's pixels at its own place, and reads exactly its bytes. */
  lemma {:induction false} TilesAreShown(r: Rect, row: nat, column: nat, cs: seq<Content>, buffer: seq<byte>,
                                         x: seq<byte>)
    requires AllProper(r, row, column, cs) && |buffer| == BUFFER
    ensures TilesFrom(TilesSent(r, row, column, cs) + x, r, row, column, buffer)
         == Parsed(Pieces(r, row, column, cs), x)
    decreases r.h - 64 * row, r.w - 64 * column
  {
    if Over(r, row) {
      assert [] + x == x;
    } else if Past(r, column) {
      hide TilesFrom;
      TilesAreShown(r, row + 1, 0, cs, buffer, x);
      RowEnds(r, row, column, TilesSent(r, row, column, cs) + x, buffer);
    } else {
      var t := TileAt(r, column, row);
      var first, rest := TileSent(cs[0], t.w, t.h), TilesSent(r, row, column + 1, cs[1..]);
      Associate(first, rest, x);
      hide TileSent, TileOf, PixelsOf, Proper, TilesFrom;
      TileIsShown(cs[0], t.w, t.h, buffer, rest + x);
      var p := TileOf(first + (rest + x), t.w, t.h, buffer);
      OneTile(r, row, column, first + (rest + x), buffer);
      TilesAreShown(r, row, column + 1, cs[1..], p.value.buffer, x);
    }
  }

  lemma RowEnds(r: Rect, row: nat, column: nat, s: seq<byte>, buffer: seq<byte>)
    requires |buffer| == BUFFER && !Over(r, row) && Past(r, column)
    ensures TilesFrom(s, r, row, column, buffer) == TilesFrom(s, r, row + 1, 0, buffer)
  {
  }

  lemma OneTile(r: Rect, row: nat, column: nat, s: seq<byte>, buffer: seq<byte>)
    requires |buffer| == BUFFER && !Over(r, row) && !Past(r, column)
    requires var t := TileAt(r, column, row); TileOf(s, t.w, t.h, buffer).Parsed?
    ensures var t := TileAt(r, column, row); var p := TileOf(s, t.w, t.h, buffer);
            |p.value.buffer| == BUFFER
            && TilesFrom(s, r, row, column, buffer)
            == Prepended([Piece(t, p.value.pixels)], TilesFrom(p.rest, r, row, column + 1, p.value.buffer))
  {
    hide TileOf;
  }
}
