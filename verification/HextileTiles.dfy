/**
 * Hextile rectangles as a server writes them: one description for each tile. What is drawn is
 * stated from the descriptions, with the colours that a tile inherits from the tiles before it.
 */
module HextileTiles {
  import opened Bytes
  import opened Decoders
  import opened Hextile
  import opened Pictures
  import opened Rects

  datatype Area = Area(x: nat, y: nat, w: nat, h: nat)

  /** A part has its own colour or the tile's foreground; without parts, the coloured flag may still be set. */
  datatype Parts = NoParts(flagged: bool) | Plain(areas: seq<Area>) | Coloured(pieces: seq<Subrect>)

  datatype Tile =
    | Blank
    | Raw(flags: nat, samples: Row)
    | Painted(bg: Option<Color>, fg: Option<Color>, parts: Parts)

  /** What a tile inherits: the colours sent last, and whether the tile before was raw. */
  datatype Pen = Pen(bg: Option<Color>, fg: Option<Color>, raw: bool)

  // ---------------------------------------------------------------- bytes

  predicate Fits(a: Area) { a.x < 16 && a.y < 16 && 1 <= a.w <= 16 && 1 <= a.h <= 16 }

  function AreaOf(b: Subrect): Area { Area(b.x, b.y, b.w, b.h) }

  predicate WellFormed(t: Tile, w: nat, h: nat) {
    match t
    case Blank => true
    case Raw(flags, samples) => flags <= 28 && flags % 2 == 0 && |samples| == w * h
    case Painted(bg, fg, parts) =>
      match parts
      case NoParts(flagged) => bg.Some? || fg.Some? || flagged
      case Plain(areas) => |areas| < 256 && forall a | a in areas :: Fits(a)
      case Coloured(pieces) => |pieces| < 256 && forall b | b in pieces :: Fits(AreaOf(b))
  }

  function Flags(t: Tile): nat {
    match t
    case Blank => 0
    case Raw(flags, _) => 1 + flags
    case Painted(bg, fg, parts) =>
      (if bg.Some? then 2 else 0) + (if fg.Some? then 4 else 0)
      + match parts
        case NoParts(flagged) => if flagged then 16 else 0
        case Plain(_) => 8
        case Coloured(_) => 24
  }

  function AreaBytes(a: Area): seq<byte>
    requires Fits(a)
  {
    [16 * a.x + a.y, 16 * (a.w - 1) + (a.h - 1)]
  }

  function AreasBytes(areas: seq<Area>): seq<byte>
    requires forall a | a in areas :: Fits(a)
  {
    if |areas| == 0 then [] else AreaBytes(areas[0]) + AreasBytes(areas[1..])
  }

  function PieceBytes(b: Subrect): seq<byte>
    requires Fits(AreaOf(b))
  {
    b.color + AreaBytes(AreaOf(b))
  }

  function PiecesBytes(pieces: seq<Subrect>): seq<byte>
    requires forall b | b in pieces :: Fits(AreaOf(b))
  {
    if |pieces| == 0 then [] else PieceBytes(pieces[0]) + PiecesBytes(pieces[1..])
  }

  function Optional(c: Option<Color>): seq<byte> { if c.Some? then c.value else [] }

  function PartsBytes(parts: Parts): seq<byte>
    requires WellFormed(Painted(Some([0, 0, 0, 0]), None, parts), 0, 0)
  {
    match parts
    case NoParts(_) => []
    case Plain(areas) => [|areas|] + AreasBytes(areas)
    case Coloured(pieces) => [|pieces|] + PiecesBytes(pieces)
  }

  lemma FlagsSmall(t: Tile, w: nat, h: nat)
    requires WellFormed(t, w, h)
    ensures Flags(t) <= 30
  {
  }

  function TileSent(t: Tile, w: nat, h: nat): seq<byte>
    requires WellFormed(t, w, h)
  {
    FlagsSmall(t, w, h);
    match t
    case Blank => [0]
    case Raw(_, samples) => [Flags(t)] + SentRow(samples, false)
    case Painted(bg, fg, parts) => [Flags(t)] + (Optional(bg) + (Optional(fg) + PartsBytes(parts)))
  }

  // ---------------------------------------------------------------- drawings

  function Latest(c: Option<Color>, before: Option<Color>): Option<Color> { if c.Some? then c else before }

  function PenAfter(p: Pen, t: Tile): Pen {
    match t
    case Blank => p.(raw := false)
    case Raw(_, _) => p.(raw := true)
    case Painted(bg, fg, _) => Pen(Latest(bg, p.bg), Latest(fg, p.fg), false)
  }

  /** Every colour that the tile uses has been sent. */
  predicate Inked(p: Pen, t: Tile) {
    match t
    case Blank => p.raw || p.bg.Some?
    case Raw(_, _) => true
    case Painted(bg, fg, parts) =>
      Latest(bg, p.bg).Some? && (parts.Plain? && |parts.areas| > 0 ==> Latest(fg, p.fg).Some?)
  }

  function Inks(areas: seq<Area>, color: Color): (s: seq<Subrect>)
    ensures |s| == |areas|
  {
    seq(|areas|, i requires 0 <= i < |areas| => Subrect(areas[i].x, areas[i].y, areas[i].w, areas[i].h, color))
  }

  function PartsDrawn(parts: Parts, fg: Option<Color>): seq<Subrect> {
    match parts
    case NoParts(_) => []
    case Plain(areas) => if fg.Some? then Inks(areas, fg.value) else []
    case Coloured(pieces) => pieces
  }

  /** A blank tile is filled with the background, unless the tile before it was raw: then nothing is drawn. */
  function TileDrawing(p: Pen, t: Tile, at: Rect): seq<Output>
    requires Inked(p, t)
  {
    match t
    case Blank => if p.raw then [] else [FillRect(at.x, at.y, at.w, at.h, p.bg.value)]
    case Raw(_, samples) => [BlitImage(at.x, at.y, at.w, at.h, OpaqueRow(samples))]
    case Painted(bg, fg, parts) =>
      [BlitImage(at.x, at.y, at.w, at.h,
                 TileData(at.w, at.h, Latest(bg, p.bg).value, PartsDrawn(parts, Latest(fg, p.fg))))]
  }

  // ---------------------------------------------------------------- reading back

  lemma {:induction false} AreaSlice(areas: seq<Area>, i: nat)
    requires forall a | a in areas :: Fits(a)
    ensures |AreasBytes(areas)| == 2 * |areas|
    ensures i < |areas| ==> AreasBytes(areas)[2 * i..2 * i + 2] == AreaBytes(areas[i])
    decreases |areas|
  {
    if |areas| > 0 {
      var first, rest := AreaBytes(areas[0]), AreasBytes(areas[1..]);
      AreaSlice(areas[1..], if i > 0 then i - 1 else 0);
      if 0 < i < |areas| {
        assert (first + rest)[2 * i..2 * i + 2] == rest[2 * (i - 1)..2 * (i - 1) + 2];
      }
    }
  }

  lemma {:induction false} PieceSlice(pieces: seq<Subrect>, i: nat)
    requires forall b | b in pieces :: Fits(AreaOf(b))
    ensures |PiecesBytes(pieces)| == 6 * |pieces|
    ensures i < |pieces| ==> PiecesBytes(pieces)[6 * i..6 * i + 6] == PieceBytes(pieces[i])
    decreases |pieces|
  {
    if |pieces| > 0 {
      var first, rest := PieceBytes(pieces[0]), PiecesBytes(pieces[1..]);
      PieceSlice(pieces[1..], if i > 0 then i - 1 else 0);
      if 0 < i < |pieces| {
        assert (first + rest)[6 * i..6 * i + 6] == rest[6 * (i - 1)..6 * (i - 1) + 6];
      }
    }
  }

  lemma Nibbles(a: Area)
    requires Fits(a)
    ensures var b := AreaBytes(a);
            b[0] / 16 == a.x && b[0] % 16 == a.y && b[1] / 16 + 1 == a.w && b[1] % 16 + 1 == a.h
  {
  }

  lemma {:induction false} SubrectsAt(b: seq<byte>, coloured: bool, fg: Color, n: nat, i: nat)
    requires Stride(coloured) * n <= |b| && i < n
    ensures Stride(coloured) * (i + 1) <= |b|
    ensures Subrects(b, coloured, fg, n)[i] == SubrectAt(b, coloured, fg, i)
  {
    if i < n - 1 {
      SubrectsAt(b, coloured, fg, n - 1, i);
    }
  }

  lemma AreasRead(areas: seq<Area>, fg: Color)
    requires forall a | a in areas :: Fits(a)
    ensures |AreasBytes(areas)| == 2 * |areas|
    ensures Subrects(AreasBytes(areas), false, fg, |areas|) == Inks(areas, fg)
  {
    var b := AreasBytes(areas);
    AreaSlice(areas, 0);
    forall i: nat | i < |areas|
      ensures Subrects(b, false, fg, |areas|)[i] == Inks(areas, fg)[i]
    {
      SubrectsAt(b, false, fg, |areas|, i);
      AreaSlice(areas, i);
      Nibbles(areas[i]);
      assert b[2 * i] == b[2 * i..2 * i + 2][0] && b[2 * i + 1] == b[2 * i..2 * i + 2][1];
    }
  }

  lemma PiecesRead(pieces: seq<Subrect>, fg: Color)
    requires forall b | b in pieces :: Fits(AreaOf(b))
    ensures |PiecesBytes(pieces)| == 6 * |pieces|
    ensures Subrects(PiecesBytes(pieces), true, fg, |pieces|) == pieces
  {
    var b := PiecesBytes(pieces);
    PieceSlice(pieces, 0);
    forall i: nat | i < |pieces|
      ensures Subrects(b, true, fg, |pieces|)[i] == pieces[i]
    {
      SubrectsAt(b, true, fg, |pieces|, i);
      PieceSlice(pieces, i);
      PieceRead(b, pieces[i], i, fg);
    }
  }

  lemma PieceRead(b: seq<byte>, piece: Subrect, i: nat, fg: Color)
    requires Fits(AreaOf(piece)) && 6 * i + 6 <= |b| && b[6 * i..6 * i + 6] == PieceBytes(piece)
    ensures SubrectAt(b, true, fg, i) == piece
  {
    Nibbles(AreaOf(piece));
    var s := b[6 * i..6 * i + 6];
    assert s[..4] == piece.color && s[..4] == b[6 * i..6 * i + 4];
    assert b[6 * i + 4] == s[4] && b[6 * i + 5] == s[5];
  }

  // ---------------------------------------------------------------- one tile

  /** The decoder holds the colours and the subencoding that the pen says. */
  predicate Agrees(s: Hex, p: Pen) { s.bg == p.bg && s.fg == p.fg && Bit(s.last, 0) == p.raw }

  lemma FlagBits(t: Tile, w: nat, h: nat)
    requires WellFormed(t, w, h) && !t.Blank?
    ensures Flags(t) > 0 && Bit(Flags(t), 0) == t.Raw?
    ensures t.Painted? ==>
              && Bit(Flags(t), 1) == t.bg.Some? && Bit(Flags(t), 2) == t.fg.Some?
              && Bit(Flags(t), 3) == !t.parts.NoParts? && (!t.parts.NoParts? ==> Bit(Flags(t), 4) == t.parts.Coloured?)
  {
  }

  lemma PartsOf(f: byte, a: seq<byte>, b: seq<byte>, d: seq<byte>, x: seq<byte>)
    ensures var q := [f] + (a + (b + d)) + x; var i, j := 1 + |a|, 1 + |a| + |b|;
            && |q| == j + |d| + |x| && q[0] == f && q[1..i] == a && q[i..j] == b && q[j..j + |d|] == d
            && (|d| > 0 ==> q[j] == d[0] && q[j + 1..j + |d|] == d[1..])
  {
    var q := [f] + (a + (b + d)) + x;
    var i, j := 1 + |a|, 1 + |a| + |b|;
    assert q[j..j + |d|] == d;
    if |d| > 0 {
      assert q[j] == q[j..j + |d|][0];
    }
  }

  lemma ColorsRead(s: Hex, t: Tile, q: seq<byte>, w: nat, h: nat)
    requires WellFormed(t, w, h) && t.Painted? && |q| >= 1 && q[0] == Flags(t)
    requires var i := 1 + |Optional(t.bg)|; var j := i + |Optional(t.fg)|;
             |q| >= j && q[1..i] == Optional(t.bg) && q[i..j] == Optional(t.fg)
    ensures ColorBytes(q[0]) == |Optional(t.bg)| + |Optional(t.fg)|
    ensures ReadColors(s, q) == s.(bg := Latest(t.bg, s.bg), fg := Latest(t.fg, s.fg))
  {
    FlagBits(t, w, h);
    hide Flags, Bit, WellFormed;
  }

  /** What the bytes of a painted tile count while peeking. */
  lemma PaintedCount(t: Tile, q: seq<byte>, w: nat, h: nat)
    requires WellFormed(t, w, h) && t.Painted? && |q| >= 1 && q[0] == Flags(t)
    requires ColorBytes(q[0]) == |Optional(t.bg)| + |Optional(t.fg)|
    requires var d := PartsBytes(t.parts); var c := 1 + ColorBytes(q[0]);
             |q| >= c + |d| && (|d| > 0 ==> q[c] == d[0])
    ensures TileBytes(q, w, h) == Some(1 + ColorBytes(q[0]) + |PartsBytes(t.parts)|)
  {
    FlagBits(t, w, h);
    TileBytesCases(q, w, h);
    hide Flags, Bit, TileBytes, ColorBytes;
    match t.parts
    case NoParts(_) =>
    case Plain(areas) => AreaSlice(areas, 0);
    case Coloured(pieces) => PieceSlice(pieces, 0);
  }

  lemma PartsRead(s: Hex, t: Tile, at: Rect, q: seq<byte>, n: nat)
    requires WellFormed(t, at.w, at.h) && t.Painted? && !t.parts.NoParts? && |q| >= 1 && q[0] == Flags(t)
    requires s.bg.Some? && (t.parts.Plain? && |t.parts.areas| > 0 ==> s.fg.Some?)
    requires var d := PartsBytes(t.parts); var c := 1 + ColorBytes(q[0]);
             n == c + |d| <= |q| && q[c] == d[0] && q[c + 1..n] == d[1..]
    ensures var c := 1 + ColorBytes(q[0]);
            && c < |q| && n == 1 + c + Stride(Bit(q[0], 4)) * q[c]
            && ReadSubrects(s, at, q, n)
            == Finish(s, q[0], n, [TileBlit(at, s.bg.value, PartsDrawn(t.parts, s.fg))])
  {
    FlagBits(t, at.w, at.h);
    hide Flags, Bit, ColorBytes, TileBlit, Finish;
    var fg := if s.fg.Some? then s.fg.value else [0, 0, 0, 0];
    match t.parts
    case Plain(areas) => AreasRead(areas, fg);
    case Coloured(pieces) => PiecesRead(pieces, fg);
  }

  lemma PaintedIsRead(s: Hex, p: Pen, t: Tile, at: Rect, x: seq<byte>)
    requires WellFormed(t, at.w, at.h) && t.Painted? && Inked(p, t) && Agrees(s, p)
    ensures var bytes := TileSent(t, at.w, at.h);
            && |bytes| >= 1 && TileBytes(bytes + x, at.w, at.h) == Some(|bytes|)
            && ReadTile(s, at, bytes + x, |bytes|)
            == Finish(s.(bg := PenAfter(p, t).bg, fg := PenAfter(p, t).fg), Flags(t), |bytes|, TileDrawing(p, t, at))
  {
    FlagsSmall(t, at.w, at.h);
    FlagBits(t, at.w, at.h);
    var d := PartsBytes(t.parts);
    PartsOf(Flags(t), Optional(t.bg), Optional(t.fg), d, x);
    var q := TileSent(t, at.w, at.h) + x;
    assert q == [Flags(t)] + (Optional(t.bg) + (Optional(t.fg) + d)) + x;
    ColorsRead(s, t, q, at.w, at.h);
    PaintedCount(t, q, at.w, at.h);
    var n := |TileSent(t, at.w, at.h)|;
    assert n == 1 + ColorBytes(q[0]) + |d|;
    var s2 := s.(bg := Latest(t.bg, s.bg), fg := Latest(t.fg, s.fg));
    hide Flags, Bit, ColorBytes, Optional, TileBytes, ReadColors, ReadSubrects, PartsBytes, WellFormed, Finish;
    if !t.parts.NoParts? {
      PartsRead(s2, t, at, q, n);
    }
  }

  /** A tile's bytes are counted and read whole, and make its drawing. */
  lemma TileIsRead(s: Hex, p: Pen, t: Tile, at: Rect, x: seq<byte>)
    requires WellFormed(t, at.w, at.h) && Inked(p, t) && Agrees(s, p)
    ensures var bytes := TileSent(t, at.w, at.h);
            && |bytes| >= 1 && bytes[0] == Flags(t) <= 30 && TileBytes(bytes + x, at.w, at.h) == Some(|bytes|)
            && ReadTile(s, at, bytes + x, |bytes|)
            == Finish(s.(bg := PenAfter(p, t).bg, fg := PenAfter(p, t).fg), Flags(t), |bytes|, TileDrawing(p, t, at))
  {
    FlagsSmall(t, at.w, at.h);
    match t
    case Blank =>
    case Raw(flags, samples) =>
      FlagBits(t, at.w, at.h);
      var data := SentRow(samples, false);
      SentRowBytes(samples, false, 0);
      LineIsRow(samples, false);
      var q := [Flags(t)] + data + x;
      assert q[1..1 + |data|] == data;
    case Painted(_, _, _) => PaintedIsRead(s, p, t, at, x);
  }

  // ---------------------------------------------------------------- a rectangle

  /** The tiles from the k-th on can be sent: each fits its place, and uses only colours that have been sent. */
  predicate TilesGood(r: Rect, tiles: seq<Tile>, k: nat, p: Pen)
    requires k <= |tiles| == TotalTiles(r)
    decreases |tiles| - k
  {
    k < |tiles| ==>
      && WellFormed(tiles[k], TileRect(r, k).w, TileRect(r, k).h) && Inked(p, tiles[k])
      && TilesGood(r, tiles, k + 1, PenAfter(p, tiles[k]))
  }

  function TilesSent(r: Rect, tiles: seq<Tile>, k: nat, p: Pen): seq<byte>
    requires k <= |tiles| == TotalTiles(r) && TilesGood(r, tiles, k, p)
    decreases |tiles| - k
  {
    if k == |tiles| then []
    else TileSent(tiles[k], TileRect(r, k).w, TileRect(r, k).h) + TilesSent(r, tiles, k + 1, PenAfter(p, tiles[k]))
  }

  /** Each tile's drawing at its own place, in order. */
  function TilesDrawing(r: Rect, tiles: seq<Tile>, k: nat, p: Pen): seq<Output>
    requires k <= |tiles| == TotalTiles(r) && TilesGood(r, tiles, k, p)
    decreases |tiles| - k
  {
    if k == |tiles| then []
    else TileDrawing(p, tiles[k], TileRect(r, k)) + TilesDrawing(r, tiles, k + 1, PenAfter(p, tiles[k]))
  }

  function PenAfterAll(p: Pen, tiles: seq<Tile>, k: nat): Pen
    requires k <= |tiles|
    decreases |tiles| - k
  {
    if k == |tiles| then p else PenAfterAll(PenAfter(p, tiles[k]), tiles, k + 1)
  }

  /** The decoder finished, left `x`, made the drawing, and holds what the pen says. */
  ghost predicate Draws(d: Decoded<Hex>, x: seq<byte>, out: seq<Output>, p: Pen) {
    d.status == Finished && d.rest == x && d.out == out && d.s.tiles == 0 && Agrees(d.s, p)
  }

  lemma TileStepped(s: Hex, r: Rect, tiles: seq<Tile>, k: nat, p: Pen, x: seq<byte>)
    requires k < |tiles| == TotalTiles(r) && TilesGood(r, tiles, k, p) && Agrees(s, p) && s.tiles == |tiles| - k
    ensures var bytes := TileSent(tiles[k], TileRect(r, k).w, TileRect(r, k).h);
            && |bytes| >= 1
            && HexStep(s, r, bytes + x)
            == Finish(s.(bg := PenAfter(p, tiles[k]).bg, fg := PenAfter(p, tiles[k]).fg), Flags(tiles[k]), |bytes|,
                      TileDrawing(p, tiles[k], TileRect(r, k)))
  {
    hide TileSent, TileDrawing, TileBytes, ReadTile, TileRect, TotalTiles, Flags, Agrees, PenAfter, Finish, Inked;
    TileIsRead(s, p, tiles[k], TileRect(r, k), x);
  }

  lemma FinishedTile(s: Hex, p: Pen, t: Tile, w: nat, h: nat, n: nat, out: seq<Output>)
    requires WellFormed(t, w, h) && s.tiles > 0
    ensures var f := Finish(s.(bg := PenAfter(p, t).bg, fg := PenAfter(p, t).fg), Flags(t), n, out);
            && (if s.tiles == 1 then f.Done? else f.More?) && f.n == n && f.out == out
            && f.s.tiles == s.tiles - 1 && Agrees(f.s, PenAfter(p, t))
  {
    if !t.Blank? {
      FlagBits(t, w, h);
      hide Flags;
    }
  }

  lemma HexRunUnfolds(s: Hex, r: Rect, q: seq<byte>)
    ensures var p := HexStep(s, r, q);
            && (p.Done? ==> HexRun(s, r, q) == Decoded(Finished, p.s, q[p.n..], p.out))
            && (p.More? ==> HexRun(s, r, q) == After(p.out, HexRun(p.s, r, q[p.n..])))
  {
    hide HexStep;
  }

  lemma {:induction false} TilesRun(s: Hex, r: Rect, tiles: seq<Tile>, k: nat, p: Pen, x: seq<byte>)
    requires k < |tiles| == TotalTiles(r) && TilesGood(r, tiles, k, p) && Agrees(s, p) && s.tiles == |tiles| - k
    ensures Draws(HexRun(s, r, TilesSent(r, tiles, k, p) + x), x, TilesDrawing(r, tiles, k, p),
                  PenAfterAll(p, tiles, k))
    decreases |tiles| - k
  {
    hide HexStep, HexRun, TileSent, TileDrawing, TileRect, TotalTiles, Agrees, PenAfter, Finish, WellFormed, Inked;
    var t := tiles[k];
    var bytes := TileSent(t, TileRect(r, k).w, TileRect(r, k).h);
    var p' := PenAfter(p, t);
    var tail := TilesSent(r, tiles, k + 1, p') + x;
    TileStepped(s, r, tiles, k, p, tail);
    FinishedTile(s, p, t, TileRect(r, k).w, TileRect(r, k).h, |bytes|, TileDrawing(p, t, TileRect(r, k)));
    Behind(bytes, TilesSent(r, tiles, k + 1, p'), x);
    HexRunUnfolds(s, r, bytes + tail);
    var f := HexStep(s, r, bytes + tail);
    if k + 1 < |tiles| {
      TilesRun(f.s, r, tiles, k + 1, p', x);
    } else {
      assert tail == x;
      assert f.out + [] == f.out;
    }
  }

  /**
   * For every list of tiles, decoding their bytes finishes, reads exactly those, and makes each
   * tile's drawing at its own place, in order; the colours sent last remain.
   */
  lemma TilesAreDrawn(s: Hex, r: Rect, tiles: seq<Tile>, p: Pen, x: seq<byte>)
    requires |tiles| == TotalTiles(r) && TilesGood(r, tiles, 0, p) && Agrees(s, p) && s.tiles == 0
    ensures Draws(HexRun(s, r, TilesSent(r, tiles, 0, p) + x), x, TilesDrawing(r, tiles, 0, p),
                  PenAfterAll(p, tiles, 0))
  {
    hide HexRun, TileSent, TileDrawing, TileRect, PenAfter, WellFormed, Inked;
    var q := TilesSent(r, tiles, 0, p) + x;
    HexRunUnfolds(s, r, q);
    assert q[0..] == q;
    if |tiles| > 0 {
      var s' := s.(tiles := |tiles|);
      TilesRun(s', r, tiles, 0, p, x);
      AfterNothing(HexRun(s', r, q));
    } else {
      assert q == x;
    }
  }
}
