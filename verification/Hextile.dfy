/** The Hextile decoder: 16 x 16 tiles, each read only when all of its bytes have arrived. */
module Hextile {
  import Arith
  import opened Bytes
  import opened Decoders
  import opened Rects
  import opened Websock

  type Color = c: seq<byte> | |c| == 4 witness [0, 0, 0, 0]

  // ---------------------------------------------------------------- tiling

  function Ceil16(n: nat): nat { (n + 15) / 16 }

  function TotalTiles(r: Rect): nat { Ceil16(r.w) * Ceil16(r.h) }

  /** The tile in column `cx` and row `cy` of a rectangle. */
  function TileAt(r: Rect, cx: nat, cy: nat): (t: Rect)
    requires cx * 16 < r.w && cy * 16 < r.h
    ensures t.w <= 16 && t.h <= 16
  {
    var tx, ty := r.x + cx * 16, r.y + cy * 16;
    Rect(tx, ty, Min(16, r.x + r.w - tx), Min(16, r.y + r.h - ty))
  }

  /** The k-th tile, row by row. */
  function TileRect(r: Rect, k: nat): (t: Rect)
    requires k < TotalTiles(r)
    ensures t.w <= 16 && t.h <= 16
  {
    TileInside(r, k);
    TileAt(r, k % Ceil16(r.w), k / Ceil16(r.w))
  }

  lemma TileInside(r: Rect, k: nat)
    requires k < TotalTiles(r)
    ensures r.w > 0 && r.h > 0 && Ceil16(r.w) > 0
    ensures k % Ceil16(r.w) * 16 < r.w && k / Ceil16(r.w) * 16 < r.h
  {
    var tx, ty := Ceil16(r.w), Ceil16(r.h);
    Arith.ProductPositive(tx, ty);
    Arith.DivLt(k, tx, ty);
  }

  /** The one tile a pixel belongs to. */
  function TileOf(r: Rect, px: nat, py: nat): nat
    requires Inside(r, px, py)
  {
    (py - r.y) / 16 * Ceil16(r.w) + (px - r.x) / 16
  }

  /** The tiles visited for a rectangle cover it exactly and do not overlap: a pixel of the
      rectangle lies in the tile `TileOf` names and in no other, and no tile reaches
      outside the rectangle. */
  lemma TilesPartition(r: Rect, k: nat, px: nat, py: nat)
    requires k < TotalTiles(r)
    ensures Inside(TileRect(r, k), px, py) <==> Inside(r, px, py) && k == TileOf(r, px, py)
  {
    TileInside(r, k);
    var w := Ceil16(r.w);
    PixelInTile(r, k % w, k / w, px, py);
    if Inside(r, px, py) {
      var a, b := (py - r.y) / 16, (px - r.x) / 16;
      assert b < w;
      if k == a * w + b {
        Arith.DivModUnique(k, w, a, b);
      }
    }
  }

  lemma PixelInTile(r: Rect, cx: nat, cy: nat, px: nat, py: nat)
    requires cx * 16 < r.w && cy * 16 < r.h
    ensures Inside(TileAt(r, cx, cy), px, py)
       <==> Inside(r, px, py) && (px - r.x) / 16 == cx && (py - r.y) / 16 == cy
  {
  }

  /** Every pixel's tile is visited. */
  lemma TilesCover(r: Rect, px: nat, py: nat)
    requires Inside(r, px, py)
    ensures TileOf(r, px, py) < TotalTiles(r)
  {
    var w, h := Ceil16(r.w), Ceil16(r.h);
    var a, b := (py - r.y) / 16, (px - r.x) / 16;
    assert a <= h - 1 && b < w;
    Arith.MulLe(a, h - 1, w);
    assert w * (h - 1) == w * h - w;
  }

  // ---------------------------------------------------------------- painting

  function Component(color: Color, c: nat): byte
    requires c < 4
  {
    if c == 3 then 255 else color[c]
  }

  function SolidTile(w: nat, h: nat, color: Color): (s: seq<byte>)
    ensures |s| == w * h * 4
  {
    seq(w * h * 4, (i: nat) => Component(color, i % 4))
  }

  /** `len` pixels from pixel `start` on get the colour; what lies past the end is dropped. */
  function PaintSpan(data: seq<byte>, start: nat, len: nat, color: Color): (s: seq<byte>)
    ensures |s| == |data|
  {
    seq(|data|, (i: nat) requires i < |data| =>
      if start <= i / 4 < start + len then Component(color, i % 4) else data[i])
  }

  /** The double loop of `_subTile`, row after row, in a tile `tw` pixels wide. */
  function PaintRows(data: seq<byte>, tw: nat, x: nat, y: nat, w: nat, h: nat, color: Color): (s: seq<byte>)
    ensures |s| == |data|
  {
    if h == 0 then data
    else PaintSpan(PaintRows(data, tw, x, y, w, h - 1, color), x + (y + h - 1) * tw, w, color)
  }

  datatype Subrect = Subrect(x: nat, y: nat, w: nat, h: nat, color: Color)

  function PaintAll(data: seq<byte>, tw: nat, subs: seq<Subrect>): (s: seq<byte>)
    ensures |s| == |data|
  {
    if |subs| == 0 then data
    else
      var b := subs[|subs| - 1];
      PaintRows(PaintAll(data, tw, subs[..|subs| - 1]), tw, b.x, b.y, b.w, b.h, b.color)
  }

  function TileData(w: nat, h: nat, bg: Color, subs: seq<Subrect>): seq<byte> {
    PaintAll(SolidTile(w, h, bg), w, subs)
  }

  predicate Contains(b: Subrect, px: nat, py: nat) {
    b.x <= px < b.x + b.w && b.y <= py < b.y + b.h
  }

  /** The colour a tile pixel should have: that of the last subrectangle over it. */
  function PixelColor(bg: Color, subs: seq<Subrect>, px: nat, py: nat): Color {
    if |subs| == 0 then bg
    else if Contains(subs[|subs| - 1], px, py) then subs[|subs| - 1].color
    else PixelColor(bg, subs[..|subs| - 1], px, py)
  }

  /** Pixel `k` is written by the double loop. */
  ghost predicate Painted(k: nat, tw: nat, b: Subrect, rows: nat) {
    exists j: nat | j < rows :: InRow(k, tw, b, j)
  }

  predicate InRow(k: nat, tw: nat, b: Subrect, j: nat) {
    var start := b.x + (b.y + j) * tw;
    start <= k < start + b.w
  }

  lemma {:induction false} PaintRowsPixel(data: seq<byte>, tw: nat, b: Subrect, rows: nat, i: nat)
    requires i < |data|
    ensures PaintRows(data, tw, b.x, b.y, b.w, rows, b.color)[i]
         == if Painted(i / 4, tw, b, rows) then Component(b.color, i % 4) else data[i]
    decreases rows
  {
    if rows > 0 {
      PaintRowsPixel(data, tw, b, rows - 1, i);
      PaintedRow(i / 4, tw, b, rows);
    }
  }

  lemma PaintedRow(k: nat, tw: nat, b: Subrect, rows: nat)
    requires rows > 0
    ensures Painted(k, tw, b, rows) <==> Painted(k, tw, b, rows - 1) || InRow(k, tw, b, rows - 1)
  {
  }

  /** The loop writes the subrectangle's own pixels and no others exactly when it does not
      wrap over the right edge into a row of the tile that it should leave alone. */
  predicate StaysInside(b: Subrect, tw: nat, th: nat) {
    || b.x + b.w <= tw
    || (if b.x == 0 then b.y + b.h >= th
        else if b.x < tw then b.y + 1 >= th
        else b.x + b.y * tw >= tw * th)
  }

  lemma OwnPixelIsPainted(b: Subrect, tw: nat, px: nat, py: nat)
    requires px < tw && Contains(b, px, py)
    ensures Painted(py * tw + px, tw, b, b.h)
  {
    var j := py - b.y;
    assert b.y + j == py;
    assert InRow(py * tw + px, tw, b, j);
  }

  /** With the whole width inside the tile no other pixel is written. */
  lemma OnlyOwnPixels(b: Subrect, tw: nat, px: nat, py: nat)
    requires px < tw && b.x + b.w <= tw && Painted(py * tw + px, tw, b, b.h)
    ensures Contains(b, px, py)
  {
    var j: nat :| j < b.h && InRow(py * tw + px, tw, b, j);
    var c := py * tw + px - (b.y + j) * tw;
    assert b.x <= c < b.x + b.w;
    assert tw * py + px == tw * (b.y + j) + c;
    Arith.DivModUnique(tw * py + px, tw, py, px);
    Arith.DivModUnique(tw * (b.y + j) + c, tw, b.y + j, c);
  }

  lemma RowBounds(tw: nat, th: nat, px: nat, py: nat, row: nat)
    requires px < tw && py < th
    ensures py * tw + px < th * tw
    ensures row <= py ==> row * tw <= py * tw
    ensures row >= py ==> row * tw >= py * tw
    ensures row > py ==> row * tw >= py * tw + tw
  {
    Arith.MulLe(py + 1, th, tw);
    if row <= py { Arith.MulLe(row, py, tw); } else { Arith.MulLe(py + 1, row, tw); }
    assert tw * (py + 1) == tw * py + tw;
  }

  /** Both directions: the tile shows the subrectangle as announced if and only if the
      wrapped part, if any, falls outside the tile or onto its own rows. */
  lemma SubrectIsItsPixelsExactlyWhenInside(b: Subrect, tw: nat, th: nat)
    requires 0 < tw && 0 < b.w && 0 < b.h
    ensures StaysInside(b, tw, th) <==>
            forall px: nat, py: nat | px < tw && py < th ::
              Painted(py * tw + px, tw, b, b.h) <==> Contains(b, px, py)
  {
    if StaysInside(b, tw, th) {
      forall px: nat, py: nat | px < tw && py < th
        ensures Painted(py * tw + px, tw, b, b.h) <==> Contains(b, px, py)
      {
        StaysInsidePaintsItself(b, tw, th, px, py);
      }
    } else {
      WrappedPixel(b, tw, th);
    }
  }

  lemma StaysInsidePaintsItself(b: Subrect, tw: nat, th: nat, px: nat, py: nat)
    requires px < tw && py < th && 0 < b.w && 0 < b.h && StaysInside(b, tw, th)
    ensures Painted(py * tw + px, tw, b, b.h) <==> Contains(b, px, py)
  {
    var k := py * tw + px;
    if Contains(b, px, py) {
      OwnPixelIsPainted(b, tw, px, py);
    } else if b.y >= th {
      BelowTile(b, tw, th, px, py);
    } else if Painted(k, tw, b, b.h) {
      if b.x + b.w <= tw {
        OnlyOwnPixels(b, tw, px, py);
      } else {
        var j: nat :| j < b.h && InRow(k, tw, b, j);
        RowBounds(tw, th, px, py, b.y);
        RowBounds(tw, th, px, py, b.y + j);
        Arith.MulLe(b.y, b.y + j, tw);
      }
    }
  }

  /** A subrectangle that starts below the tile paints nothing in it. */
  lemma BelowTile(b: Subrect, tw: nat, th: nat, px: nat, py: nat)
    requires px < tw && py < th <= b.y
    ensures !Painted(py * tw + px, tw, b, b.h)
  {
    if Painted(py * tw + px, tw, b, b.h) {
      var j: nat :| j < b.h && InRow(py * tw + px, tw, b, j);
      RowBounds(tw, th, px, py, b.y + j);
    }
  }

  /** The first pixel of a wrapped row that belongs to the tile but not to the subrectangle. */
  lemma WrappedPixel(b: Subrect, tw: nat, th: nat)
    requires 0 < tw && 0 < b.w && 0 < b.h && !StaysInside(b, tw, th)
    ensures exists px: nat, py: nat | px < tw && py < th ::
              Painted(py * tw + px, tw, b, b.h) && !Contains(b, px, py)
  {
    if b.x == 0 {
      Wrapped(b, tw, th, b.h - 1, 0, b.y + b.h);
    } else if b.x < tw {
      Wrapped(b, tw, th, 0, 0, b.y + 1);
    } else {
      var k := b.x + b.y * tw;
      var px, py := k % tw, k / tw;
      assert k == py * tw + px;
      if py >= th {
        Arith.MulLe(th, py, tw);
      }
      assert InRow(k, tw, b, 0);
      assert Painted(py * tw + px, tw, b, b.h) && !Contains(b, px, py);
    }
  }

  lemma Wrapped(b: Subrect, tw: nat, th: nat, j: nat, px: nat, py: nat)
    requires j < b.h && px < tw && py < th && !Contains(b, px, py)
    requires py == b.y + j + 1 && b.x < tw < b.x + b.w && px == 0
    ensures exists px: nat, py: nat | px < tw && py < th ::
              Painted(py * tw + px, tw, b, b.h) && !Contains(b, px, py)
  {
    assert (b.y + j + 1) * tw == (b.y + j) * tw + tw;
    assert InRow(py * tw + px, tw, b, j);
    assert Painted(py * tw + px, tw, b, b.h);
  }

  /** A tile whose subrectangles stay inside is the background with them painted in order. */
  lemma {:induction false} TileIsPaintedInOrder(w: nat, h: nat, bg: Color, subs: seq<Subrect>, px: nat, py: nat, c: nat)
    requires px < w && py < h && c < 4
    requires forall b | b in subs :: 0 < b.w && 0 < b.h && StaysInside(b, w, h)
    ensures var i := (py * w + px) * 4 + c;
            i < w * h * 4 && TileData(w, h, bg, subs)[i] == Component(PixelColor(bg, subs, px, py), c)
    decreases |subs|
  {
    RowBounds(w, h, px, py, 0);
    var i := (py * w + px) * 4 + c;
    assert i / 4 == py * w + px && i % 4 == c;
    if |subs| > 0 {
      var b := subs[|subs| - 1];
      var before := subs[..|subs| - 1];
      TileIsPaintedInOrder(w, h, bg, before, px, py, c);
      PaintRowsPixel(PaintAll(SolidTile(w, h, bg), w, before), w, b, b.h, i);
      StaysInsidePaintsItself(b, w, h, px, py);
    }
  }

  // ---------------------------------------------------------------- reading a tile

  /** What persists between tiles and calls. */
  datatype Hex = Hex(tiles: nat, last: nat, bg: Option<Color>, fg: Option<Color>)

  const INITIAL: Hex := Hex(0, 0, None, None)

  function ColorBytes(sub: nat): nat {
    (if Bit(sub, 1) then 4 else 0) + (if Bit(sub, 2) then 4 else 0)
  }

  /** Bytes a subrectangle takes, with or without its own colour. */
  function Stride(coloured: bool): nat { if coloured then 6 else 2 }

  /** The bytes a tile takes, as computed while peeking; none while the subrectangle count
      itself has not arrived. */
  function TileBytes(q: seq<byte>, w: nat, h: nat): (n: Option<nat>)
    requires |q| >= 1
    ensures n.Some? ==> n.value >= 1
  {
    var sub := q[0];
    if Bit(sub, 0) then Some(1 + w * h * 4)
    else
      var n := 1 + ColorBytes(sub);
      if !Bit(sub, 3) then Some(n)
      else if |q| < n + 1 then None
      else Some(n + 1 + Stride(Bit(sub, 4)) * q[n])
  }

  function SubrectAt(b: seq<byte>, coloured: bool, fg: Color, i: nat): Subrect
    requires Stride(coloured) * (i + 1) <= |b|
  {
    var at := if coloured then 6 * i + 4 else 2 * i;
    Subrect(b[at] / 16, b[at] % 16, b[at + 1] / 16 + 1, b[at + 1] % 16 + 1,
            if coloured then b[6 * i..6 * i + 4] else fg)
  }

  function Subrects(b: seq<byte>, coloured: bool, fg: Color, n: nat): (s: seq<Subrect>)
    requires Stride(coloured) * n <= |b|
    ensures |s| == n
  {
    if n == 0 then [] else Subrects(b, coloured, fg, n - 1) + [SubrectAt(b, coloured, fg, n - 1)]
  }

  function Finish(s: Hex, sub: nat, n: nat, out: seq<Output>): Progress<Hex> {
    var s' := s.(last := sub, tiles := if s.tiles > 0 then s.tiles - 1 else 0);
    if s'.tiles == 0 then Done(s', n, out) else More(s', n, out)
  }

  /** A tile all of whose `n` bytes are at hand. A colour that was never received makes the
      source throw when it is first used. */
  function ReadTile(s: Hex, t: Rect, q: seq<byte>, n: nat): (p: Progress<Hex>)
    requires 1 <= |q| && TileBytes(q, t.w, t.h) == Some(n) && n <= |q|
    ensures !p.Wait? && 0 < p.n <= |q|
    ensures !p.Throw? ==> p.n == n
  {
    var sub := q[0];
    if sub == 0 then
      if Bit(s.last, 0) then Finish(s, 0, 1, [])
      else if s.bg.None? then Throw(s, 1, [])
      else Finish(s, 0, 1, [FillRect(t.x, t.y, t.w, t.h, s.bg.value)])
    else if Bit(sub, 0) then
      Finish(s, sub, n, [BlitImage(t.x, t.y, t.w, t.h, RawLine(q[1..n], false))])
    else
      var s2 := ReadColors(s, q);
      var c := 1 + ColorBytes(sub);
      if s2.bg.None? then Throw(s2, c, [])
      else if !Bit(sub, 3) then Finish(s2, sub, n, [TileBlit(t, s2.bg.value, [])])
      else ReadSubrects(s2, t, q, n)
  }

  /** The tile's background and foreground, where the subencoding announces them. */
  function ReadColors(s: Hex, q: seq<byte>): Hex
    requires |q| >= 1 && 1 + ColorBytes(q[0]) <= |q|
  {
    var sub := q[0];
    var s1 := if Bit(sub, 1) then s.(bg := Some(q[1..5])) else s;
    var at := if Bit(sub, 1) then 5 else 1;
    if Bit(sub, 2) then s1.(fg := Some(q[at..at + 4])) else s1
  }

  function ReadSubrects(s: Hex, t: Rect, q: seq<byte>, n: nat): (p: Progress<Hex>)
    requires |q| >= 1 && s.bg.Some? && 1 + ColorBytes(q[0]) < |q|
    requires n == 2 + ColorBytes(q[0]) + Stride(Bit(q[0], 4)) * q[1 + ColorBytes(q[0])] <= |q|
    ensures !p.Wait? && 0 < p.n <= |q|
    ensures !p.Throw? ==> p.n == n
  {
    var sub, c := q[0], 1 + ColorBytes(q[0]);
    if !Bit(sub, 4) && q[c] > 0 && s.fg.None? then Throw(s, c + 3, [])
    else
      var fg := if s.fg.Some? then s.fg.value else [0, 0, 0, 0];
      Finish(s, sub, n, [TileBlit(t, s.bg.value, Subrects(q[c + 1..n], Bit(sub, 4), fg, q[c]))])
  }

  function TileBlit(t: Rect, bg: Color, subs: seq<Subrect>): Output {
    BlitImage(t.x, t.y, t.w, t.h, TileData(t.w, t.h, bg, subs))
  }

  function HexStep(s: Hex, r: Rect, q: seq<byte>): (p: Progress<Hex>)
    ensures !p.Wait? ==> p.n <= |q|
    ensures p.More? && p.n == 0 ==> s.tiles == 0 && p.s.tiles > 0
  {
    var total := TotalTiles(r);
    if s.tiles == 0 then
      if total == 0 then Done(s, 0, []) else More(s.(tiles := total), 0, [])
    else if |q| < 1 then Wait
    else if q[0] > 30 then Throw(s, 0, [])
    else if s.tiles > total then Wait
    else
      var t := TileRect(r, total - s.tiles);
      var n := TileBytes(q, t.w, t.h);
      if n.None? || |q| < n.value then Wait else ReadTile(s, t, q, n.value)
  }

  function HexRun(s: Hex, r: Rect, q: seq<byte>): (d: Decoded<Hex>)
    ensures |d.rest| <= |q|
    decreases |q|, if s.tiles == 0 then 1 else 0
  {
    match HexStep(s, r, q)
    case Wait => Decoded(Waiting, s, q, [])
    case More(s', n, out) => After(out, HexRun(s', r, q[n..]))
    case Done(s', n, out) => Decoded(Finished, s', q[n..], out)
    case Throw(s', n, out) => Decoded(Thrown, s', q[n..], out)
  }

  lemma TileBytesCases(q: seq<byte>, w: nat, h: nat)
    requires |q| >= 1
    ensures var sub, n := q[0], 1 + ColorBytes(q[0]);
            TileBytes(q, w, h) == if Bit(sub, 0) then Some(1 + w * h * 4)
              else if !Bit(sub, 3) then Some(n)
              else if |q| < n + 1 then None
              else Some(n + 1 + Stride(Bit(sub, 4)) * q[n])
  {
  }

  lemma TileBytesStable(q: seq<byte>, x: seq<byte>, w: nat, h: nat)
    requires |q| >= 1 && TileBytes(q, w, h).Some?
    ensures TileBytes(q + x, w, h) == TileBytes(q, w, h)
  {
  }

  lemma ReadTileStable(s: Hex, t: Rect, q: seq<byte>, n: nat, x: seq<byte>)
    requires 1 <= |q| && TileBytes(q, t.w, t.h) == Some(n) && n <= |q|
    ensures TileBytes(q + x, t.w, t.h) == Some(n)
    ensures ReadTile(s, t, q + x, n) == ReadTile(s, t, q, n)
  {
    TileBytesStable(q, x, t.w, t.h);
    SliceStable(q, x);
  }

  lemma HexStepStable(s: Hex, r: Rect, q: seq<byte>, x: seq<byte>)
    requires !HexStep(s, r, q).Wait?
    ensures HexStep(s, r, q + x) == HexStep(s, r, q)
  {
    hide ReadTile, TileBytes, TileRect, TotalTiles;
    if 0 < s.tiles <= TotalTiles(r) && |q| >= 1 && q[0] <= 30 {
      var t := TileRect(r, TotalTiles(r) - s.tiles);
      ReadTileStable(s, t, q, TileBytes(q, t.w, t.h).value, x);
    }
  }

  // ---------------------------------------------------------------- the decoder object

  class HextileDecoder {
    var tiles: nat
    var tilesX: nat
    var totalTiles: nat
    var lastsubencoding: nat
    var background: Option<Color>
    var foreground: Option<Color>
    var tileX: nat
    var tileY: nat
    var tileW: nat
    var tileH: nat
    const tileBuffer: array<byte>

    ghost predicate Valid() { tileBuffer.Length == 1024 }

    ghost function State(): Hex
      reads this
    {
      Hex(tiles, lastsubencoding, background, foreground)
    }

    /** In the middle of a rectangle the tile counts are that rectangle's. */
    ghost predicate Within(r: Rect)
      reads this
    {
      tiles > 0 ==> tilesX == Ceil16(r.w) && totalTiles == TotalTiles(r) && tiles <= totalTiles
    }

    /** The part of the buffer the current tile occupies. */
    ghost function Tile(): seq<byte>
      reads this, tileBuffer
      requires Valid() && tileW <= 16 && tileH <= 16
    {
      tileBuffer[..BufferPart(tileW, tileH)]
    }

    constructor ()
      ensures Valid() && fresh(tileBuffer) && State() == INITIAL && tiles == 0
    {
      tiles, tilesX, totalTiles, lastsubencoding := 0, 0, 0, 0;
      background, foreground := None, None;
      tileX, tileY, tileW, tileH := 0, 0, 0, 0;
      tileBuffer := new byte[1024](_ => 0);
    }

    /** Writes one pixel of the tile buffer; a typed array ignores what lies past its end. */
    method SetPixel(k: nat, color: Color)
      requires Valid()
      modifies tileBuffer
      ensures forall i | 0 <= i < 1024 ::
                tileBuffer[i] == if i / 4 == k then Component(color, i % 4) else old(tileBuffer[i])
    {
      var p := 4 * k;
      if p < 1024 {
        tileBuffer[p] := color[0];
        tileBuffer[p + 1] := color[1];
        tileBuffer[p + 2] := color[2];
        tileBuffer[p + 3] := 255;
      }
    }

    method StartTile(t: Rect, color: Color)
      requires Valid() && t.w <= 16 && t.h <= 16
      modifies this`tileX, this`tileY, this`tileW, this`tileH, tileBuffer
      ensures tileX == t.x && tileY == t.y && tileW == t.w && tileH == t.h
      ensures Tile() == SolidTile(t.w, t.h, color)
    {
      tileX, tileY, tileW, tileH := t.x, t.y, t.w, t.h;
      var i := 0;
      while i < t.w * t.h
        invariant i <= t.w * t.h
        invariant tileX == t.x && tileY == t.y && tileW == t.w && tileH == t.h
        invariant forall j | 0 <= j < 4 * i :: j < 1024 ==> tileBuffer[j] == Component(color, j % 4)
      {
        SetPixel(i, color);
        i := i + 1;
      }
    }

    method SubTile(x: nat, y: nat, w: nat, h: nat, color: Color)
      requires Valid() && tileW <= 16 && tileH <= 16
      modifies tileBuffer
      ensures Tile() == PaintRows(old(Tile()), tileW, x, y, w, h, color)
    {
      ghost var before := Tile();
      var j := y;
      while j < y + h
        invariant y <= j <= y + h
        invariant Tile() == PaintRows(before, tileW, x, y, w, j - y, color)
      {
        ghost var row := Tile();
        var i := x;
        while i < x + w
          invariant x <= i <= x + w
          invariant Tile() == PaintSpan(row, x + j * tileW, i - x, color)
        {
          SetPixel(i + j * tileW, color);
          SpanGrows(row, x + j * tileW, i - x, color, Tile());
          i := i + 1;
        }
        j := j + 1;
        assert y + (j - y) - 1 == j - 1;
      }
    }

    method FinishTile(sink: Sink)
      requires Valid() && tileW <= 16 && tileH <= 16
      modifies sink
      ensures sink.log == old(sink.log) + [BlitImage(tileX, tileY, tileW, tileH, Tile())]
    {
      BufferFits(tileW, tileH);
      sink.Emit(BlitImage(tileX, tileY, tileW, tileH, tileBuffer[..tileW * tileH * 4]));
    }

    /** The subrectangles of a tile, each painted as it is read; false when the foreground
        is needed and was never received. */
    method PaintSubrects(sub: nat, count: nat, sock: Websock, ghost b: seq<byte>) returns (ok: bool)
      requires Valid() && tileW <= 16 && tileH <= 16 && sock.Valid() && tileBuffer != sock.rQ
      requires |b| == Stride(Bit(sub, 4)) * count && b <= sock.Unread()
      modifies tileBuffer, sock`rQi
      ensures sock.Valid()
      ensures ok == (Bit(sub, 4) || count == 0 || foreground.Some?)
      ensures ok ==> sock.Unread() == old(sock.Unread())[|b|..]
      ensures ok ==> Tile() == PaintAll(old(Tile()), tileW,
                Subrects(b, Bit(sub, 4), if foreground.Some? then foreground.value else [0, 0, 0, 0], count))
      ensures !ok ==> sock.Unread() == old(sock.Unread())[2..]
    {
      hide *;
      ghost var q := sock.Unread();
      ghost var fg := if foreground.Some? then foreground.value else [0, 0, 0, 0];
      ghost var before := Tile();
      NoSubrects(b, Bit(sub, 4), fg, before, tileW);
      var s := 0;
      while s < count
        invariant s <= count && sock.Valid()
        invariant s > 0 ==> Bit(sub, 4) || foreground.Some?
        invariant sock.Unread() == q[SubrectsEnd(sub, b, s, count)..]
        invariant Tile() == PaintAll(before, tileW, Subrects(b, Bit(sub, 4), fg, s))
      {
        ok := NextSubrect(sub, count, sock, b, s, fg, before, q);
        if !ok {
          return;
        }
        s := s + 1;
      }
      return true;
    }

    /** The body of that loop. */
    method NextSubrect(sub: nat, count: nat, sock: Websock, ghost b: seq<byte>, ghost s: nat, ghost fg: Color,
                       ghost before: seq<byte>, ghost q: seq<byte>) returns (ok: bool)
      requires Valid() && tileW <= 16 && tileH <= 16 && sock.Valid() && tileBuffer != sock.rQ
      requires |b| == Stride(Bit(sub, 4)) * count && b <= q && s < count
          && (foreground.Some? ==> fg == foreground.value)
      requires sock.Unread() == q[SubrectsEnd(sub, b, s, count)..]
      requires Tile() == PaintAll(before, tileW, Subrects(b, Bit(sub, 4), fg, s))
      modifies tileBuffer, sock`rQi
      ensures sock.Valid() && ok == (Bit(sub, 4) || foreground.Some?)
      ensures ok ==> sock.Unread() == q[SubrectsEnd(sub, b, s + 1, count)..]
                     && Tile() == PaintAll(before, tileW, Subrects(b, Bit(sub, 4), fg, s + 1))
      ensures !ok ==> sock.Unread() == old(sock.Unread())[2..]
    {
      hide *;
      MoreSubrects(b, sub, fg, s, count, before, tileW);
      ghost var k, at := Stride(Bit(sub, 4)), SubrectsEnd(sub, b, s, count);
      assert at + k == SubrectsEnd(sub, b, s + 1, count);
      assert b[k * s..] <= q[at..];
      ok := PaintSubrect(sub, sock, b, s, fg);
    }

    method PaintSubrect(sub: nat, sock: Websock, ghost b: seq<byte>, ghost s: nat, ghost fg: Color) returns (ok: bool)
      requires Valid() && tileW <= 16 && tileH <= 16 && sock.Valid() && tileBuffer != sock.rQ
      requires Stride(Bit(sub, 4)) * (s + 1) <= |b| && b[Stride(Bit(sub, 4)) * s..] <= sock.Unread()
      requires foreground.Some? ==> fg == foreground.value
      modifies tileBuffer, sock`rQi
      ensures sock.Valid()
      ensures ok == (Bit(sub, 4) || foreground.Some?)
      ensures ok ==> sock.Unread() == old(sock.Unread())[Stride(Bit(sub, 4))..]
      ensures ok ==> var r := SubrectAt(b, Bit(sub, 4), fg, s);
                     Tile() == PaintRows(old(Tile()), tileW, r.x, r.y, r.w, r.h, r.color)
      ensures !ok ==> sock.Unread() == old(sock.Unread())[2..]
    {
      hide PaintRows, Bit, SubrectAt;
      var color, xy, wh;
      ok, color, xy, wh := ReadSubrect(sub, sock, b, s, fg);
      if !ok {
        return;
      }
      SubTile(xy / 16, xy % 16, wh / 16 + 1, wh % 16 + 1, color);
    }

    /** The colour and the position of a subrectangle; without a colour the source throws when it paints. */
    method ReadSubrect(sub: nat, sock: Websock, ghost b: seq<byte>, ghost s: nat, ghost fg: Color)
      returns (ok: bool, color: Color, xy: byte, wh: byte)
      requires sock.Valid()
      requires Stride(Bit(sub, 4)) * (s + 1) <= |b| && b[Stride(Bit(sub, 4)) * s..] <= sock.Unread()
      requires foreground.Some? ==> fg == foreground.value
      modifies sock`rQi
      ensures sock.Valid()
      ensures ok == (Bit(sub, 4) || foreground.Some?)
      ensures ok ==> sock.Unread() == old(sock.Unread())[Stride(Bit(sub, 4))..]
      ensures ok ==> Subrect(xy / 16, xy % 16, wh / 16 + 1, wh % 16 + 1, color) == SubrectAt(b, Bit(sub, 4), fg, s)
      ensures !ok ==> sock.Unread() == old(sock.Unread())[2..]
    {
      hide Bit;
      ghost var q := sock.Unread();
      ghost var at := Stride(Bit(sub, 4)) * s;
      assert forall i | 0 <= i < |b| - at :: q[i] == b[at..][i] == b[at + i];
      ok := true;
      if Bit(sub, 4) {
        color := sock.RQshiftBytes(4);
        assert color == b[at..at + 4];
      } else if foreground.Some? {
        color := foreground.value;
      } else {
        ok, color := false, [0, 0, 0, 0];
      }
      xy := sock.RQshift8();
      wh := sock.RQshift8();
    }

    method TakeColors(sub: nat, sock: Websock, ghost q: seq<byte>)
      requires sock.Valid() && |q| >= 1 && q[0] == sub && q[1..] == sock.Unread()
      requires |sock.Unread()| >= ColorBytes(sub)
      modifies this`background, this`foreground, sock`rQi
      ensures sock.Valid() && sock.Unread() == q[1 + ColorBytes(sub)..]
      ensures State() == ReadColors(old(State()), q)
    {
      if Bit(sub, 1) {
        var c := sock.RQshiftBytes(4);
        assert c == q[1..5];
        background := Some(c);
        assert q[1..][4..] == q[5..];
      }
      if Bit(sub, 2) {
        ghost var at := if Bit(sub, 1) then 5 else 1;
        var c := sock.RQshiftBytes(4);
        assert c == q[at..at + 4];
        foreground := Some(c);
        assert q[at..][4..] == q[at + 4..];
      }
    }

    /** A tile with a background and perhaps subrectangles; false where the source throws. */
    method DrawTile(t: Rect, sub: nat, sock: Websock, sink: Sink, ghost n: nat) returns (ok: bool)
      requires Valid() && sock.Valid() && tileBuffer != sock.rQ && t.w <= 16 && t.h <= 16
      requires sub > 0 && !Bit(sub, 0) && background.Some?
      requires |sock.Unread()| >= n - 1 >= 0
      requires Bit(sub, 3) ==> n > 1 && n - 1 == 1 + Stride(Bit(sub, 4)) * sock.Unread()[0]
      requires !Bit(sub, 3) ==> n == 1
      modifies this`tileX, this`tileY, this`tileW, this`tileH, tileBuffer, sock`rQi, sink
      ensures sock.Valid()
      ensures var u := old(sock.Unread());
              ok == (!Bit(sub, 3) || Bit(sub, 4) || u[0] == 0 || foreground.Some?)
      ensures var u := old(sock.Unread());
              ok ==> sock.Unread() == u[n - 1..]
                     && sink.log == old(sink.log) + [TileBlit(t, background.value, Announced(sub, u, n))]
      ensures !ok ==> sock.Unread() == old(sock.Unread())[3..] && sink.log == old(sink.log)
    {
      ghost var u := sock.Unread();
      StartTile(t, background.value);
      if Bit(sub, 3) {
        var subrects := sock.RQshift8();
        assert u[1..n - 1] <= sock.Unread();
        ok := PaintSubrects(sub, subrects, sock, u[1..n - 1]);
        if !ok {
          assert u[1..][2..] == u[3..];
          return;
        }
        assert u[1..][n - 2..] == u[n - 1..];
      } else {
        assert u[0..] == u;
      }
      FinishTile(sink);
      return true;
    }

    /** The subrectangles the bytes after the tile's colours announce. */
    ghost function Announced(sub: nat, u: seq<byte>, n: nat): seq<Subrect>
      reads this
      requires |u| >= n - 1 >= 0
      requires Bit(sub, 3) ==> n > 1 && n - 1 == 1 + Stride(Bit(sub, 4)) * u[0]
    {
      if Bit(sub, 3) then
        Subrects(u[1..n - 1], Bit(sub, 4), if foreground.Some? then foreground.value else [0, 0, 0, 0], u[0])
      else []
    }

    /** Reads and draws one tile whose bytes are all at hand. */
    method ConsumeTile(t: Rect, sub: nat, sock: Websock, sink: Sink, ghost n: nat) returns (ok: bool)
      requires Valid() && sock.Valid() && tileBuffer != sock.rQ && t.w <= 16 && t.h <= 16 && tiles > 0
      requires |sock.Unread()| >= 1 && sock.Unread()[0] == sub
      requires TileBytes(sock.Unread(), t.w, t.h) == Some(n) && n <= |sock.Unread()|
      modifies this`tiles, this`lastsubencoding, this`background, this`foreground
      modifies this`tileX, this`tileY, this`tileW, this`tileH, tileBuffer, sock`rQi, sink
      ensures sock.Valid()
      ensures var p := ReadTile(old(State()), t, old(sock.Unread()), n);
              && ok == !p.Throw?
              && Performed(p, old(sock.Unread()), sock.Unread(), old(sink.log), sink.log)
              && State() == p.s && (p.Done? <==> ok && tiles == 0)
              && tiles == (if ok then old(tiles) - 1 else old(tiles))
      ensures ok ==> sock.Unread() == old(sock.Unread())[n..]
    {
      hide ReadTile, RawLine, ColorBytes, Bit;
      ghost var q, s := sock.Unread(), State();
      var b := sock.RQshift8();
      if sub == 0 {
        BlankTile(s, t, q, n);
        if Bit(lastsubencoding, 0) {
        } else if background.None? {
          return false;
        } else {
          sink.Emit(FillRect(t.x, t.y, t.w, t.h, background.value));
        }
      } else if Bit(sub, 0) {
        RawTile(s, t, q, n);
        TailOf(q, 1, n);
        var data := sock.RQshiftBytes(t.w * t.h * 4);
        sink.Emit(BlitImage(t.x, t.y, t.w, t.h, RawLine(data, false)));
      } else {
        ok := ConsumePainted(t, sub, sock, sink, q, n);
        if !ok {
          return;
        }
      }
      lastsubencoding := sub;
      tiles := tiles - 1;
      return true;
    }

    /** The colours and subrectangles of a painted tile, after its subencoding byte. */
    method ConsumePainted(t: Rect, sub: nat, sock: Websock, sink: Sink, ghost q: seq<byte>, ghost n: nat)
      returns (ok: bool)
      requires Valid() && sock.Valid() && tileBuffer != sock.rQ && t.w <= 16 && t.h <= 16
      requires |q| >= 1 && q[0] == sub && sub > 0 && !Bit(sub, 0) && q[1..] == sock.Unread()
      requires TileBytes(q, t.w, t.h) == Some(n) && n <= |q|
      modifies this`background, this`foreground
      modifies this`tileX, this`tileY, this`tileW, this`tileH, tileBuffer, sock`rQi, sink
      ensures sock.Valid()
      ensures var p := ReadTile(old(State()), t, q, n);
              && ok == !p.Throw? && Performed(p, q, sock.Unread(), old(sink.log), sink.log)
              && if ok then EndsTile(p, State(), sub) else State() == p.s
    {
      hide TileData, ReadColors, Subrects, Stride, ColorBytes, SubrectAt, Subrects;
      ghost var c := 1 + ColorBytes(sub);
      PaintedTile(State(), t, q, n);
      TakeColors(sub, sock, q);
      if background.None? {
        return false;
      }
      TailOf(q, c, n);
      ok := DrawTile(t, sub, sock, sink, n - c + 1);
    }

    method DecodeRect(r: Rect, sock: Websock, sink: Sink) returns (status: Status)
      requires Valid() && sock.Valid() && tileBuffer != sock.rQ && Within(r)
      modifies this, tileBuffer, sock`rQi, sink
      ensures sock.Valid() && Within(r)
      ensures Decoded(status, State(), sock.Unread(), sink.log)
           == After(old(sink.log), HexRun(old(State()), r, old(sock.Unread())))
      ensures status.Finished? ==> tiles == 0
    {
      HexBegins(State(), r, sock.Unread(), sink.log);
      if tiles == 0 {
        tilesX := Ceil16(r.w);
        totalTiles := tilesX * Ceil16(r.h);
        tiles := totalTiles;
      }
      hide *;
      while tiles > 0
        invariant sock.Valid() && Within(r) && sock.rQ == old(sock.rQ)
        invariant After(sink.log, HexRest(Finished, tiles, State(), r, sock.Unread()))
               == After(old(sink.log), HexRun(old(State()), r, old(sock.Unread())))
      {
        ghost var s, q, log := State(), sock.Unread(), sink.log;
        status := DecodeTile(r, sock, sink);
        HexResumes(s, r, q, log, status, tiles, State(), sock.Unread(), sink.log);
        if !status.Finished? {
          HexStops(status, tiles, State(), r, sock.Unread(), sink.log);
          return;
        }
      }
      HexStops(Finished, tiles, State(), r, sock.Unread(), sink.log);
      return Finished;
    }

    /** Works out how many bytes the tile takes and whether they are all there. */
    method ExpectTile(t: Rect, subencoding: nat, sock: Websock) returns (wait: bool, bytes: nat)
      requires sock.Valid() && |sock.Unread()| >= 1 && sock.Unread()[0] == subencoding
      modifies sock`rQi
      ensures sock.Valid() && sock.rQi == old(sock.rQi) && sock.Unread() == old(sock.Unread())
      ensures var n := TileBytes(sock.Unread(), t.w, t.h);
              && wait == (n.None? || n.value > |sock.Unread()|)
              && (!wait ==> n == Some(bytes))
    {
      hide Bit, Stride, TileBytes;
      TileBytesCases(sock.Unread(), t.w, t.h);
      bytes := 1;
      if Bit(subencoding, 0) {
        bytes := bytes + t.w * t.h * 4;
      } else {
        if Bit(subencoding, 1) {
          bytes := bytes + 4;
        }
        if Bit(subencoding, 2) {
          bytes := bytes + 4;
        }
        if Bit(subencoding, 3) {
          bytes := bytes + 1;
          wait := sock.RQwait(bytes, 0);
          if wait {
            return;
          }
          var peeked := sock.RQpeekBytes(bytes);
          var subrects := peeked[|peeked| - 1];
          bytes := bytes + Stride(Bit(subencoding, 4)) * subrects;
        }
      }
      wait := sock.RQwait(bytes, 0);
    }

    /** Position and size of the tile whose turn it is. */
    method CurrentTile(r: Rect) returns (t: Rect)
      requires Within(r) && tiles > 0
      ensures t == TileRect(r, TotalTiles(r) - tiles)
    {
      hide TotalTiles;
      var currTile := totalTiles - tiles;
      TileInside(r, currTile);
      var tileX := currTile % tilesX;
      var tileY := currTile / tilesX;
      var tx := r.x + tileX * 16;
      var ty := r.y + tileY * 16;
      t := Rect(tx, ty, Min(16, r.x + r.w - tx), Min(16, r.y + r.h - ty));
    }

    /** The body of that loop; `Finished` means that the tile was drawn. */
    method DecodeTile(r: Rect, sock: Websock, sink: Sink) returns (status: Status)
      requires Valid() && sock.Valid() && tileBuffer != sock.rQ && Within(r) && tiles > 0
      modifies this`tiles, this`lastsubencoding, this`background, this`foreground
      modifies this`tileX, this`tileY, this`tileW, this`tileH, tileBuffer, sock`rQi, sink
      ensures sock.Valid() && Within(r)
      ensures Moved(HexStep(old(State()), r, old(sock.Unread())), status, tiles > 0,
                    old(State()), old(sock.Unread()), old(sink.log), State(), sock.Unread(), sink.log)
      ensures tiles == if status.Finished? then old(tiles) - 1 else old(tiles)
    {
      ghost var q, s, log := sock.Unread(), State(), sink.log;
      hide *;
      var t, subencoding, bytes;
      status, t, subencoding, bytes := ExpectNext(r, sock);
      if status.Waiting? {
        StepWaits(HexStep(s, r, q), tiles > 0, s, q, log);
        return;
      }
      if status.Thrown? {
        StepThrows(HexStep(s, r, q), tiles > 0, s, q, log);
        return;
      }
      var ok := ConsumeTile(t, subencoding, sock, sink, bytes);
      assert tilesX == old(tilesX) && totalTiles == old(totalTiles) && tiles <= old(tiles);
      StepTaken(HexStep(s, r, q), ok, tiles > 0, s, q, log, State(), sock.Unread(), sink.log);
      return if ok then Finished else Thrown;
    }

    /** The checks before a tile is consumed; `Finished` means that all of it is there. */
    method ExpectNext(r: Rect, sock: Websock) returns (status: Status, t: Rect, subencoding: nat, bytes: nat)
      requires Valid() && sock.Valid() && Within(r) && tiles > 0
      modifies sock`rQi
      ensures sock.Valid() && sock.rQi == old(sock.rQi) && sock.Unread() == old(sock.Unread())
      ensures status.Waiting? ==> HexStep(State(), r, sock.Unread()).Wait?
      ensures status.Thrown? ==> HexStep(State(), r, sock.Unread()) == Throw(State(), 0, [])
      ensures status.Finished? ==>
        && t.w <= 16 && t.h <= 16 && |sock.Unread()| >= 1 && sock.Unread()[0] == subencoding
        && TileBytes(sock.Unread(), t.w, t.h) == Some(bytes) && bytes <= |sock.Unread()|
        && HexStep(State(), r, sock.Unread()) == ReadTile(State(), t, sock.Unread(), bytes)
    {
      TileStep(State(), r, sock.Unread());
      hide HexStep, ReadTile, TileBytes, TileRect, TotalTiles, Ceil16;
      t, subencoding, bytes := Rect(0, 0, 0, 0), 0, 0;
      var wait := sock.RQwait(1, 0);
      if wait {
        return Waiting, t, subencoding, bytes;
      }
      subencoding := sock.RQpeek8();
      if subencoding > 30 {
        return Thrown, t, subencoding, bytes;
      }
      t := CurrentTile(r);
      wait, bytes := ExpectTile(t, subencoding, sock);
      status := if wait then Waiting else Finished;
    }
  }

  lemma StepWaits(p: Progress<Hex>, more: bool, s: Hex, q: seq<byte>, log: seq<Output>)
    requires p.Wait?
    ensures Moved(p, Waiting, more, s, q, log, s, q, log)
  {
  }

  lemma StepThrows(p: Progress<Hex>, more: bool, s: Hex, q: seq<byte>, log: seq<Output>)
    requires p == Throw(s, 0, [])
    ensures Moved(p, Thrown, more, s, q, log, s, q, log)
  {
    assert log + [] == log;
  }

  lemma StepTaken(p: Progress<Hex>, ok: bool, more: bool, s: Hex, q: seq<byte>, log: seq<Output>, s': Hex,
                  q': seq<byte>, log': seq<Output>)
    requires ok == !p.Throw? && Performed(p, q, q', log, log') && s' == p.s && (p.Done? <==> ok && !more)
    ensures Moved(p, if ok then Finished else Thrown, more, s, q, log, s', q', log')
  {
  }

  /** The step at a tile, by what is there of it. */
  lemma TileStep(s: Hex, r: Rect, q: seq<byte>)
    requires 0 < s.tiles <= TotalTiles(r)
    ensures |q| < 1 ==> HexStep(s, r, q).Wait?
    ensures |q| >= 1 && q[0] > 30 ==> HexStep(s, r, q) == Throw(s, 0, [])
    ensures var t := TileRect(r, TotalTiles(r) - s.tiles);
            |q| >= 1 && q[0] <= 30 ==>
              var n := TileBytes(q, t.w, t.h);
              if n.None? || |q| < n.value
              then HexStep(s, r, q).Wait? else HexStep(s, r, q) == ReadTile(s, t, q, n.value)
  {
    hide ReadTile, TileBytes, TileRect, TotalTiles;
  }

  /** The step that completes a tile, seen from the state before the bookkeeping. */
  ghost predicate EndsTile(p: Progress<Hex>, s: Hex, sub: nat) {
    && !p.Wait? && !p.Throw?
    && p.s == s.(last := sub, tiles := if s.tiles > 0 then s.tiles - 1 else 0)
    && (p.Done? <==> p.s.tiles == 0)
  }

  lemma BlankTile(s: Hex, t: Rect, q: seq<byte>, n: nat)
    requires |q| >= 1 && q[0] == 0 && TileBytes(q, t.w, t.h) == Some(n) && n <= |q|
    ensures var p := ReadTile(s, t, q, n);
            && !p.Wait? && p.n == 1
            && if !Bit(s.last, 0) && s.bg.None? then
                 p.Throw? && p.s == s && p.out == []
               else
                 && EndsTile(p, s, 0)
                 && p.out == (if Bit(s.last, 0) then [] else [FillRect(t.x, t.y, t.w, t.h, s.bg.value)])
  {
  }

  lemma RawTile(s: Hex, t: Rect, q: seq<byte>, n: nat)
    requires |q| >= 1 && q[0] > 0 && Bit(q[0], 0) && TileBytes(q, t.w, t.h) == Some(n) && n <= |q|
    ensures var p := ReadTile(s, t, q, n);
            && EndsTile(p, s, q[0]) && p.n == n == 1 + t.w * t.h * 4
            && p.out == [BlitImage(t.x, t.y, t.w, t.h, RawLine(q[1..n], false))]
  {
  }

  /** What `ReadTile` comes to for a tile that is neither blank nor raw. */
  lemma PaintedTile(s: Hex, t: Rect, q: seq<byte>, n: nat)
    requires |q| >= 1 && q[0] > 0 && !Bit(q[0], 0) && TileBytes(q, t.w, t.h) == Some(n) && n <= |q|
    ensures var sub, c := q[0], 1 + ColorBytes(q[0]);
            var p, s2 := ReadTile(s, t, q, n), ReadColors(s, q);
            && c <= n && (if p.Throw? then p.s == s2 else EndsTile(p, s2, sub))
            && (s2.bg.None? ==> p.Throw? && p.n == c && p.out == [])
            && (Bit(sub, 3) ==> n - c == 1 + Stride(Bit(sub, 4)) * q[c]) && (!Bit(sub, 3) ==> n == c)
            && (s2.bg.Some? && !Bit(sub, 3) ==> !p.Throw? && p.n == n && p.out == [TileBlit(t, s2.bg.value, [])])
            && (s2.bg.Some? && Bit(sub, 3) ==>
                 if !Bit(sub, 4) && q[c] > 0 && s2.fg.None? then p.Throw? && p.n == c + 3 && p.out == []
                 else
                   var fg := if s2.fg.Some? then s2.fg.value else [0, 0, 0, 0];
                   !p.Throw? && p.n == n
                   && p.out == [TileBlit(t, s2.bg.value, Subrects(q[c + 1..n], Bit(sub, 4), fg, q[c]))])
  {
    hide TileData;
  }

  lemma TailOf(q: seq<byte>, c: nat, n: nat)
    requires c <= n <= |q|
    ensures q[c..][n - c..] == q[n..]
    ensures c + 3 <= |q| ==> q[c..][3..] == q[c + 3..]
    ensures n > c ==> q[c..][1..n - c] == q[c + 1..n]
    ensures q[c..][..n - c] == q[c..n]
  {
  }

  /** What is left to decode after a turn of the loop. */
  ghost function HexRest(status: Status, tiles: nat, s: Hex, r: Rect, q: seq<byte>): Decoded<Hex> {
    if status.Finished? && tiles > 0 then HexRun(s, r, q) else Decoded(status, s, q, [])
  }

  lemma HexBegins(s: Hex, r: Rect, q: seq<byte>, log: seq<Output>)
    ensures var s' := if s.tiles == 0 then s.(tiles := TotalTiles(r)) else s;
            After(log, HexRest(Finished, s'.tiles, s', r, q)) == After(log, HexRun(s, r, q))
  {
    hide HexStep, TotalTiles;
    HexStart(s, r, q);
    assert q[0..] == q;
    if s.tiles == 0 && TotalTiles(r) > 0 {
      assert HexRun(s, r, q) == After([], HexRun(s.(tiles := TotalTiles(r)), r, q[0..]));
    }
  }

  lemma HexStart(s: Hex, r: Rect, q: seq<byte>)
    ensures s.tiles == 0 ==>
              HexStep(s, r, q) == if TotalTiles(r) == 0 then Done(s, 0, []) else More(s.(tiles := TotalTiles(r)), 0, [])
  {
  }

  lemma HexResumes(s: Hex, r: Rect, q: seq<byte>, log: seq<Output>, status: Status, tiles: nat, s': Hex, q': seq<byte>,
                   log': seq<Output>)
    requires Moved(HexStep(s, r, q), status, tiles > 0, s, q, log, s', q', log')
    ensures After(log', HexRest(status, tiles, s', r, q')) == After(log, HexRun(s, r, q))
  {
    hide HexStep;
    var d := HexRest(status, tiles, s', r, q');
    assert !status.Waiting? ==> log + (HexStep(s, r, q).out + d.out) == log' + d.out;
  }

  lemma HexStops(status: Status, tiles: nat, s: Hex, r: Rect, q: seq<byte>, log: seq<Output>)
    requires status.Finished? ==> tiles == 0
    ensures After(log, HexRest(status, tiles, s, r, q)) == Decoded(status, s, q, log)
  {
    assert log + [] == log;
  }

  /** Where the s-th of `count` subrectangles begins. */
  ghost function SubrectsEnd(sub: nat, b: seq<byte>, s: nat, count: nat): (n: nat)
    requires |b| == Stride(Bit(sub, 4)) * count && s <= count
    ensures n == Stride(Bit(sub, 4)) * s <= |b|
    ensures s < count ==> n + Stride(Bit(sub, 4)) == Stride(Bit(sub, 4)) * (s + 1) <= |b|
  {
    Stride(Bit(sub, 4)) * s
  }

  lemma NoSubrects(b: seq<byte>, coloured: bool, fg: Color, data: seq<byte>, tw: nat)
    ensures PaintAll(data, tw, Subrects(b, coloured, fg, 0)) == data
  {
  }

  lemma MoreSubrects(b: seq<byte>, sub: nat, fg: Color, n: nat, count: nat, data: seq<byte>, tw: nat)
    requires |b| == Stride(Bit(sub, 4)) * count && n < count
    requires SubrectsEnd(sub, b, n + 1, count) <= |b| && SubrectsEnd(sub, b, n, count) <= |b|
    ensures var r := SubrectAt(b, Bit(sub, 4), fg, n);
            PaintAll(data, tw, Subrects(b, Bit(sub, 4), fg, n + 1))
            == PaintRows(PaintAll(data, tw, Subrects(b, Bit(sub, 4), fg, n)), tw, r.x, r.y, r.w, r.h, r.color)
  {
    var s := Subrects(b, Bit(sub, 4), fg, n + 1);
    assert s[..n] == Subrects(b, Bit(sub, 4), fg, n);
  }

  function BufferPart(w: nat, h: nat): (n: nat)
    requires w <= 16 && h <= 16
    ensures n == w * h * 4 <= 1024
  {
    BufferFits(w, h);
    w * h * 4
  }

  lemma BufferFits(w: nat, h: nat)
    requires w <= 16 && h <= 16
    ensures w * h * 4 <= 1024
  {
    Arith.MulLe(h, 16, w);
  }

  /** One more pixel at the end of a painted span. */
  lemma SpanGrows(data: seq<byte>, start: nat, len: nat, color: Color, s: seq<byte>)
    requires |s| == |data|
    requires forall i | 0 <= i < |s| ::
               s[i] == if i / 4 == start + len then Component(color, i % 4) else PaintSpan(data, start, len, color)[i]
    ensures s == PaintSpan(data, start, len + 1, color)
  {
  }
}
