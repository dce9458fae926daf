/**
 * Pictures as a server holds them: rows of samples. What arrives at the display is stated from
 * the rows alone: which sample is drawn at which place.
 */
module Pictures {
  import Arith
  import opened Bytes
  import opened Decoders
  import opened Rects
  import Canvas

  /** A sample and the padding that travels with it. */
  datatype Sample = Sample(r: byte, g: byte, b: byte, pad: byte)

  type Row = seq<Sample>

  predicate Wide(rows: seq<Row>, w: nat) { forall row | row in rows :: |row| == w }

  predicate Sized(rows: seq<Row>, w: nat, h: nat) { |rows| == h && Wide(rows, w) }

  /** At depth 8 each channel has four levels. */
  predicate Sendable(rows: seq<Row>, depth8: bool) {
    depth8 ==> forall row, s | row in rows && s in row :: s.r % 85 == 0 && s.g % 85 == 0 && s.b % 85 == 0
  }

  /** The bytes a server sends for a sample. */
  function Sent(s: Sample, depth8: bool): seq<byte> {
    if depth8 then [s.r / 85 + 4 * (s.g / 85) + 16 * (s.b / 85) + 64 * (s.pad / 64)] else [s.r, s.g, s.b, s.pad]
  }

  function SentRow(row: Row, depth8: bool): seq<byte> {
    if |row| == 0 then [] else Sent(row[0], depth8) + SentRow(row[1..], depth8)
  }

  /** A picture row by row, from the top. */
  function SentRows(rows: seq<Row>, depth8: bool): seq<byte> {
    if |rows| == 0 then [] else SentRow(rows[0], depth8) + SentRows(rows[1..], depth8)
  }

  function Opaque(s: Sample): seq<byte> { [s.r, s.g, s.b, 255] }

  function OpaqueRow(row: Row): seq<byte> {
    if |row| == 0 then [] else Opaque(row[0]) + OpaqueRow(row[1..])
  }

  function OpaqueRows(rows: seq<Row>): seq<byte> {
    if |rows| == 0 then [] else OpaqueRow(rows[0]) + OpaqueRows(rows[1..])
  }

  lemma FirstRow(rows: seq<Row>, w: nat, depth8: bool)
    requires |rows| > 0
    ensures Wide(rows, w) ==> |rows[0]| == w && Wide(rows[1..], w)
    ensures Sendable(rows, depth8) ==> Sendable([rows[0]], depth8) && Sendable(rows[1..], depth8)
  {
    assert forall row | row in rows[1..] :: row in rows;
  }

  // ---------------------------------------------------------------- one row

  lemma {:induction false} SentRowBytes(row: Row, depth8: bool, i: nat)
    ensures |SentRow(row, depth8)| == LineBytes(|row|, depth8)
    ensures i < |row| && depth8 ==> SentRow(row, depth8)[i..i + 1] == Sent(row[i], true)
    ensures i < |row| && !depth8 ==> SentRow(row, depth8)[4 * i..4 * i + 4] == Sent(row[i], false)
    decreases |row|
  {
    if |row| > 0 {
      hide Sent;
      var first, rest := Sent(row[0], depth8), SentRow(row[1..], depth8);
      assert |first| == if depth8 then 1 else 4 by { SentSize(row[0], depth8); }
      SentRowBytes(row[1..], depth8, if i > 0 then i - 1 else 0);
      if 0 < i < |row| {
        if depth8 {
          assert (first + rest)[i..i + 1] == rest[i - 1..i];
        } else {
          assert (first + rest)[4 * i..4 * i + 4] == rest[4 * (i - 1)..4 * (i - 1) + 4];
        }
      }
    }
  }

  lemma SentSize(s: Sample, depth8: bool)
    ensures |Sent(s, depth8)| == if depth8 then 1 else 4
  {
  }

  lemma {:induction false} OpaqueRowBytes(row: Row, i: nat)
    ensures |OpaqueRow(row)| == 4 * |row|
    ensures i < |row| ==> OpaqueRow(row)[4 * i..4 * i + 4] == Opaque(row[i])
    decreases |row|
  {
    if |row| > 0 {
      var first, rest := Opaque(row[0]), OpaqueRow(row[1..]);
      OpaqueRowBytes(row[1..], if i > 0 then i - 1 else 0);
      if 0 < i < |row| {
        assert (first + rest)[4 * i..4 * i + 4] == rest[4 * (i - 1)..4 * (i - 1) + 4];
      }
    }
  }

  lemma Levels(s: Sample)
    requires s.r % 85 == 0 && s.g % 85 == 0 && s.b % 85 == 0
    ensures var v := Sent(s, true)[0]; Channel(v, 0) == s.r && Channel(v, 1) == s.g && Channel(v, 2) == s.b
  {
    var r, g, b, p := s.r / 85, s.g / 85, s.b / 85, s.pad / 64;
    assert s.r == 85 * r && s.g == 85 * g && s.b == 85 * b;
    Fields(r, g, b, p);
  }

  lemma Fields(r: nat, g: nat, b: nat, p: nat)
    requires r < 4 && g < 4 && b < 4
    ensures var v := r + 4 * g + 16 * b + 64 * p; v % 4 == r && v / 4 % 4 == g && v / 16 % 4 == b
  {
    var v := r + 4 * g + 16 * b + 64 * p;
    assert v / 4 == g + 4 * b + 16 * p && v / 16 == b + 4 * p;
  }

  /** What the decoder makes of one line's bytes is that row of the picture, opaque. */
  lemma LineIsRow(row: Row, depth8: bool)
    requires Sendable([row], depth8)
    ensures RawLine(SentRow(row, depth8), depth8) == OpaqueRow(row)
  {
    var data := SentRow(row, depth8);
    SentRowBytes(row, depth8, 0);
    OpaqueRowBytes(row, 0);
    forall k | 0 <= k < 4 * |row|
      ensures RawLine(data, depth8)[k] == OpaqueRow(row)[k]
    {
      LineByte(row, depth8, k / 4, k % 4);
    }
  }

  lemma LineByte(row: Row, depth8: bool, i: nat, c: nat)
    requires Sendable([row], depth8) && i < |row| && c < 4
    ensures |RawLine(SentRow(row, depth8), depth8)| == |OpaqueRow(row)| == 4 * |row|
    ensures RawLine(SentRow(row, depth8), depth8)[4 * i + c] == OpaqueRow(row)[4 * i + c]
  {
    SentRowBytes(row, depth8, i);
    OpaqueRowBytes(row, i);
    hide SentRow, OpaqueRow;
    assert OpaqueRow(row)[4 * i + c] == OpaqueRow(row)[4 * i..4 * i + 4][c];
    if depth8 {
      assert row in [row] && row[i] in row;
      hide Sendable;
      LevelByte(SentRow(row, true), row[i], i, c);
    } else {
      hide Sendable;
      TrueByte(SentRow(row, false), row[i], i, c);
    }
  }

  lemma LevelByte(data: seq<byte>, s: Sample, i: nat, c: nat)
    requires i < |data| && c < 4 && data[i..i + 1] == Sent(s, true)
    requires s.r % 85 == 0 && s.g % 85 == 0 && s.b % 85 == 0
    ensures RawLine(data, true)[4 * i + c] == Opaque(s)[c]
  {
    Levels(s);
    hide Channel, Sent;
    assert data[i] == data[i..i + 1][0];
    assert (4 * i + c) / 4 == i && (4 * i + c) % 4 == c;
  }

  lemma TrueByte(data: seq<byte>, s: Sample, i: nat, c: nat)
    requires 4 * i + 4 <= |data| && c < 4 && data[4 * i..4 * i + 4] == Sent(s, false)
    ensures RawLine(data, false)[4 * i + c] == Opaque(s)[c]
  {
    assert data[4 * i + c] == data[4 * i..4 * i + 4][c];
    assert (4 * i + c) % 4 == c;
  }

  // ---------------------------------------------------------------- a Raw rectangle

  /** The rows of a picture, each blitted at its own height. */
  function RowBlits(x: nat, y: nat, w: nat, rows: seq<Row>): seq<Output>
    decreases |rows|
  {
    if |rows| == 0 then [] else [BlitImage(x, y, w, 1, OpaqueRow(rows[0]))] + RowBlits(x, y + 1, w, rows[1..])
  }

  /** The drawing of a picture sent as a Raw rectangle; a rectangle without an area draws nothing. */
  function RawDrawing(r: Rect, rows: seq<Row>): seq<Output> {
    if r.w == 0 || r.h == 0 then [] else RowBlits(r.x, r.y, r.w, rows)
  }

  lemma RawOne(r: Rect, depth8: bool, row: Row, n: nat, x: seq<byte>)
    requires 0 < n <= r.h && r.w > 0 && |row| == r.w && Sendable([row], depth8)
    ensures var bytes := SentRow(row, depth8); var out := [BlitImage(r.x, r.y + (r.h - n), r.w, 1, OpaqueRow(row))];
            RawStep(n, r, depth8, bytes + x) == if n == 1 then Done(0, |bytes|, out) else More(n - 1, |bytes|, out)
  {
    SentRowBytes(row, depth8, 0);
    LineIsRow(row, depth8);
    hide RawLine, SentRow, OpaqueRow;
    var bytes := SentRow(row, depth8);
    assert (bytes + x)[..|bytes|] == bytes;
  }

  lemma RawRunUnfolds(lines: nat, r: Rect, depth8: bool, q: seq<byte>)
    ensures var p := RawStep(lines, r, depth8, q);
            && (p.Done? ==> RawRun(lines, r, depth8, q) == Decoded(Finished, p.s, q[p.n..], p.out))
            && (p.More? ==> RawRun(lines, r, depth8, q) == After(p.out, RawRun(p.s, r, depth8, q[p.n..])))
  {
  }

  lemma RawFirst(r: Rect, depth8: bool, row: Row, n: nat, x: seq<byte>)
    requires 0 < n <= r.h && r.w > 0 && |row| == r.w && Sendable([row], depth8)
    ensures var blit := [BlitImage(r.x, r.y + (r.h - n), r.w, 1, OpaqueRow(row))];
            RawRun(n, r, depth8, SentRow(row, depth8) + x)
            == if n == 1 then Decoded(Finished, 0, x, blit) else After(blit, RawRun(n - 1, r, depth8, x))
  {
    hide RawStep, RawRun, SentRow, OpaqueRow, Sendable;
    var bytes := SentRow(row, depth8);
    RawOne(r, depth8, row, n, x);
    RawRunUnfolds(n, r, depth8, bytes + x);
    assert (bytes + x)[|bytes|..] == x;
  }

  lemma {:induction false} RawRows(r: Rect, depth8: bool, rows: seq<Row>, x: seq<byte>)
    requires 0 < |rows| <= r.h && r.w > 0 && Sendable(rows, depth8) && Wide(rows, r.w)
    ensures RawRun(|rows|, r, depth8, SentRows(rows, depth8) + x)
         == Decoded(Finished, 0, x, RowBlits(r.x, r.y + (r.h - |rows|), r.w, rows))
    decreases |rows|
  {
    hide Wide, Sendable, RawStep, RawRun, SentRow, OpaqueRow;
    var rest := rows[1..];
    FirstRow(rows, r.w, depth8);
    RawFirst(r, depth8, rows[0], |rows|, SentRows(rest, depth8) + x);
    Behind(SentRow(rows[0], depth8), SentRows(rest, depth8), x);
    if |rest| > 0 {
      RawRows(r, depth8, rest, x);
    } else {
      assert [] + x == x;
    }
  }

  lemma Behind(a: seq<byte>, b: seq<byte>, c: seq<byte>)
    ensures a + b + c == a + (b + c) && (a + (b + c))[|a|..] == b + c
  {
  }

  /**
   * For every picture, decoding its bytes finishes, reads exactly those, and blits every row of
   * the picture, opaque, at its own place.
   */
  lemma RawIsDrawn(r: Rect, depth8: bool, rows: seq<Row>, x: seq<byte>)
    requires Sized(rows, r.w, r.h) && Sendable(rows, depth8)
    ensures RawRun(0, r, depth8, SentRows(rows, depth8) + x) == Decoded(Finished, 0, x, RawDrawing(r, rows))
  {
    var q := SentRows(rows, depth8) + x;
    RawRunStarts(r, depth8, q);
    hide RawRun, SentRows, RawStep, Sendable, RowBlits;
    if r.w == 0 || r.h == 0 {
      NoBytes(rows, depth8);
      assert [] + x == x;
    } else {
      hide Wide;
      RawRows(r, depth8, rows, x);
    }
  }

  lemma RawRunStarts(r: Rect, depth8: bool, q: seq<byte>)
    ensures RawRun(0, r, depth8, q)
         == if r.w == 0 || r.h == 0 then Decoded(Finished, 0, q, []) else RawRun(r.h, r, depth8, q)
  {
    assert q[0..] == q;
    RawRunUnfolds(0, r, depth8, q);
    hide RawRun;
    if r.w > 0 && r.h > 0 {
      AfterNothing(RawRun(r.h, r, depth8, q));
    }
  }

  lemma AfterNothing<S>(d: Decoded<S>)
    ensures After([], d) == d
  {
  }

  lemma {:induction false} NoBytes(rows: seq<Row>, depth8: bool)
    requires |rows| == 0 || Wide(rows, 0)
    ensures SentRows(rows, depth8) == []
    decreases |rows|
  {
    if |rows| > 0 {
      FirstRow(rows, 0, depth8);
      NoBytes(rows[1..], depth8);
    }
  }

  // ---------------------------------------------------------------- pixel by pixel

  /** A drawing call writes the pixel. */
  predicate Writes(o: Output, px: nat, py: nat) {
    o.BlitImage? && o.x <= px < o.x + o.w && o.y <= py < o.y + o.h
  }

  /** The bytes it writes there. */
  function Written(o: Output, px: nat, py: nat): seq<byte>
    requires Writes(o, px, py)
  {
    var k := (py - o.y) * o.w + (px - o.x);
    if 0 <= k && 4 * k + 4 <= |o.data| then PixelOf(o.data, k) else []
  }

  lemma {:induction false} RowBlitsSize(x: nat, y: nat, w: nat, rows: seq<Row>)
    ensures |RowBlits(x, y, w, rows)| == |rows|
    decreases |rows|
  {
    if |rows| > 0 {
      RowBlitsSize(x, y + 1, w, rows[1..]);
    }
  }

  lemma {:induction false} RowBlitAt(x: nat, y: nat, w: nat, rows: seq<Row>, j: nat)
    requires j < |rows|
    ensures |RowBlits(x, y, w, rows)| == |rows|
    ensures RowBlits(x, y, w, rows)[j] == BlitImage(x, y + j, w, 1, OpaqueRow(rows[j]))
    decreases |rows|
  {
    hide OpaqueRow;
    RowBlitsSize(x, y, w, rows);
    if j > 0 {
      RowBlitAt(x, y + 1, w, rows[1..], j - 1);
    }
  }

  /** Sample (i, j) of the picture, opaque, is written at (r.x + i, r.y + j), once, and nothing outside. */
  lemma RawPixel(r: Rect, rows: seq<Row>, px: nat, py: nat, k: nat)
    requires Sized(rows, r.w, r.h) && k < |RawDrawing(r, rows)|
    ensures var out := RawDrawing(r, rows);
            && |out| == r.h
            && (Writes(out[k], px, py) <==> Inside(r, px, py) && k == py - r.y)
            && (Inside(r, px, py) ==>
                  && Writes(out[py - r.y], px, py)
                  && Written(out[py - r.y], px, py) == Opaque(rows[py - r.y][px - r.x]))
  {
    hide OpaqueRow, RowBlits, Opaque;
    RowBlitsSize(r.x, r.y, r.w, rows);
    RowBlitAt(r.x, r.y, r.w, rows, k);
    if Inside(r, px, py) {
      var j, i := py - r.y, px - r.x;
      RowBlitAt(r.x, r.y, r.w, rows, j);
      assert rows[j] in rows;
      OpaqueRowBytes(rows[j], i);
      var o := RawDrawing(r, rows)[j];
      assert (py - o.y) * o.w == 0;
    }
  }

  // ---------------------------------------------------------------- on the canvas

  lemma {:induction false} OpaqueRowsSize(rows: seq<Row>, w: nat)
    requires Wide(rows, w)
    ensures |OpaqueRows(rows)| == 4 * (|rows| * w)
    decreases |rows|
  {
    if |rows| > 0 {
      var rest := rows[1..];
      FirstRow(rows, w, false);
      hide Wide;
      OpaqueRowBytes(rows[0], 0);
      hide OpaqueRow;
      OpaqueRowsSize(rest, w);
      Arith.Distribute(1, |rest|, w);
    }
  }

  /** Where sample `i` of row `j` is, counting from the first. */
  function Offset(w: nat, i: nat, j: nat): nat { if j == 0 then i else w + Offset(w, i, j - 1) }

  lemma {:induction false} OffsetIs(w: nat, i: nat, j: nat)
    ensures Offset(w, i, j) == j * w + i
  {
    if j > 0 {
      OffsetIs(w, i, j - 1);
      Arith.Distribute(1, j - 1, w);
    }
  }

  lemma {:induction false} OpaqueRowsPixel(rows: seq<Row>, w: nat, i: nat, j: nat)
    requires Wide(rows, w) && j < |rows| && i < w
    ensures var k := Offset(w, i, j);
            4 * k + 4 <= |OpaqueRows(rows)| && PixelOf(OpaqueRows(rows), k) == Opaque(rows[j][i])
    decreases |rows|
  {
    hide OpaqueRow, OpaqueRows, Opaque, Wide, PixelOf;
    if j > 0 {
      var first, rest := OpaqueRow(rows[0]), rows[1..];
      FirstRow(rows, w, false);
      OpaqueRowBytes(rows[0], 0);
      OpaqueRowsUnfold(rows);
      OpaqueRowsPixel(rest, w, i, j - 1);
      PixelBehind(first, OpaqueRows(rest), w, Offset(w, i, j - 1));
    } else {
      FirstRowPixel(rows, w, i);
    }
  }

  lemma FirstRowPixel(rows: seq<Row>, w: nat, i: nat)
    requires Wide(rows, w) && |rows| > 0 && i < w
    ensures 4 * i + 4 <= |OpaqueRows(rows)| && PixelOf(OpaqueRows(rows), i) == Opaque(rows[0][i])
  {
    FirstRow(rows, w, false);
    OpaqueRowBytes(rows[0], i);
    OpaqueRowsUnfold(rows);
    hide OpaqueRow, OpaqueRows, Opaque, Wide;
    PixelInFront(OpaqueRow(rows[0]), OpaqueRows(rows[1..]), i);
  }

  lemma OpaqueRowsUnfold(rows: seq<Row>)
    requires |rows| > 0
    ensures OpaqueRows(rows) == OpaqueRow(rows[0]) + OpaqueRows(rows[1..])
  {
  }

  lemma PixelInFront(a: seq<byte>, b: seq<byte>, k: nat)
    requires 4 * k + 4 <= |a|
    ensures PixelOf(a + b, k) == a[4 * k..4 * k + 4]
  {
  }

  lemma PixelBehind(a: seq<byte>, b: seq<byte>, w: nat, k: nat)
    requires 4 * k + 4 <= |b| && |a| == 4 * w
    ensures PixelOf(a + b, w + k) == PixelOf(b, k)
  {
  }

  lemma RowBefore(j: nat, w: nat)
    requires j > 0
    ensures 0 <= j * w - w == (j - 1) * w
  {
  }

  /** A blit of a picture's row-major bytes shows sample (i, j) at (x + i, y + j), and changes nothing else. */
  lemma BlitShowsPicture(c: Canvas.Canvas, x: int, y: int, w: nat, h: nat, rows: seq<Row>, px: int, py: int)
    requires Sized(rows, w, h)
    ensures Canvas.Put(c, x, y, w, h, OpaqueRows(rows)).px(px, py)
         == if c.Has(px, py) && x <= px < x + w && y <= py < y + h
            then var s := rows[py - y][px - x]; Canvas.Solid(s.r, s.g, s.b)
            else c.px(px, py)
  {
    hide OpaqueRows, Opaque, Canvas.PixelAt, Offset;
    var data := OpaqueRows(rows);
    if x <= px < x + w && y <= py < y + h {
      var i, j := px - x, py - y;
      assert rows[j] in rows;
      OpaqueRowsPixel(rows, w, i, j);
      OffsetIs(w, i, j);
      PixelAtIs(data, Offset(w, i, j), rows[j][i]);
      assert Canvas.PixelAt(data, j * w + i) == Canvas.Solid(rows[j][i].r, rows[j][i].g, rows[j][i].b);
      assert Canvas.InRect(px, py, x, y, w, h);
    } else {
      assert !Canvas.InRect(px, py, x, y, w, h);
    }
  }

  lemma PixelAtIs(data: seq<byte>, k: nat, s: Sample)
    requires 4 * k + 4 <= |data| && PixelOf(data, k) == Opaque(s)
    ensures Canvas.PixelAt(data, k) == Canvas.Solid(s.r, s.g, s.b)
  {
    var p := PixelOf(data, k);
    assert data[4 * k] == p[0] && data[4 * k + 1] == p[1] && data[4 * k + 2] == p[2];
  }
}
