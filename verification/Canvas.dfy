/**
 * The browser's canvas as the display uses it: a grid of pixels that are clear or have a
 * colour. Drawing is clipped to the grid; `drawImage` composes, so clear source pixels leave
 * what is there; `putImageData` replaces; setting a size clears.
 */
module Canvas {
  import opened Bytes

  datatype Pixel = Clear | Solid(r: byte, g: byte, b: byte)

  type Pixels = (int, int) -> Pixel

  datatype Canvas = Canvas(w: int, h: int, px: Pixels) {
    predicate Has(x: int, y: int) { 0 <= x < w && 0 <= y < h }
  }

  /** A decoded image; what it shows is the browser's business. */
  datatype Picture = Picture(w: int, h: int, px: Pixels)

  predicate InRect(x: int, y: int, left: int, top: int, w: int, h: int) {
    left <= x < left + w && top <= y < top + h
  }

  function NoPixels(): Pixels { (x: int, y: int) => Clear }

  function Blank(w: int, h: int): Canvas { Canvas(w, h, NoPixels()) }

  function Filled(c: Canvas, x: int, y: int, w: int, h: int, color: Pixel): Pixels {
    (i: int, j: int) => if c.Has(i, j) && InRect(i, j, x, y, w, h) then color else c.px(i, j)
  }

  function Fill(c: Canvas, x: int, y: int, w: int, h: int, color: Pixel): Canvas {
    c.(px := Filled(c, x, y, w, h, color))
  }

  function Composed(c: Canvas, src: Canvas, sx: int, sy: int, w: int, h: int, x: int, y: int): Pixels {
    (i: int, j: int) =>
      if c.Has(i, j) && InRect(i, j, x, y, w, h) && src.Has(i - x + sx, j - y + sy)
          && src.px(i - x + sx, j - y + sy).Solid?
      then src.px(i - x + sx, j - y + sy) else c.px(i, j)
  }

  /** Part of another canvas, or of this one, drawn at `(x, y)` without scaling. */
  function DrawFrom(c: Canvas, src: Canvas, sx: int, sy: int, w: int, h: int, x: int, y: int): Canvas {
    c.(px := Composed(c, src, sx, sy, w, h, x, y))
  }

  function DrawPicture(c: Canvas, pic: Picture, x: int, y: int): Canvas {
    DrawFrom(c, Canvas(pic.w, pic.h, pic.px), 0, 0, pic.w, pic.h, x, y)
  }

  /** Pixel `k` of opaque RGBA data. */
  function PixelAt(data: seq<byte>, k: int): Pixel {
    if 0 <= k && 4 * k + 2 < |data| then Solid(data[4 * k], data[4 * k + 1], data[4 * k + 2]) else Clear
  }

  function Replaced(c: Canvas, x: int, y: int, w: int, h: int, data: seq<byte>): Pixels {
    (i: int, j: int) =>
      if c.Has(i, j) && InRect(i, j, x, y, w, h) then PixelAt(data, (j - y) * w + (i - x)) else c.px(i, j)
  }

  function Put(c: Canvas, x: int, y: int, w: int, h: int, data: seq<byte>): Canvas {
    c.(px := Replaced(c, x, y, w, h, data))
  }

  function Kept(c: Canvas, w: int, h: int): Pixels {
    (i: int, j: int) => if c.Has(i, j) && 0 <= i < w && 0 <= j < h then c.px(i, j) else Clear
  }

  /** A new size with the old contents put back. */
  function Resized(c: Canvas, w: int, h: int): Canvas {
    Canvas(w, h, Kept(c, w, h))
  }
}
