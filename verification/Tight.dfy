/**
 * Pixel filters of the Tight decoder (tight.js): the gradient predictor and the two palette
 * forms, on inflated data.
 */
module Tight {
  import Arith
  import opened Bytes

  // ---------------------------------------------------------------- the gradient filter

  function Clamped(v: int): (b: byte)
    ensures 0 <= v < 256 ==> b == v
  {
    if v < 0 then 0 else if v > 255 then 255 else v
  }

  /** Channel `c` of a pixel of an RGBA image, and of its neighbours; zero outside the image. */
  function At(img: seq<byte>, p: nat, c: nat): byte
    requires c < 4 && 4 * p + 4 <= |img|
  {
    img[4 * p + c]
  }

  function LeftOf(img: seq<byte>, x: nat, p: nat, c: nat): byte
    requires c < 4 && x <= p && 4 * p <= |img|
  {
    if x > 0 then At(img, p - 1, c) else 0
  }

  function AboveOf(img: seq<byte>, w: nat, p: nat, c: nat): byte
    requires c < 4 && w > 0 && 4 * p <= |img|
  {
    if p >= w then At(img, p - w, c) else 0
  }

  function AboveLeftOf(img: seq<byte>, w: nat, x: nat, p: nat, c: nat): byte
    requires c < 4 && w > 0 && x <= p && 4 * p <= |img|
  {
    if x > 0 && p > w then At(img, p - w - 1, c) else 0
  }

  function Prediction(img: seq<byte>, w: nat, x: nat, p: nat, c: nat): byte
    requires c < 4 && w > 0 && x <= p && 4 * p <= |img|
  {
    Clamped(LeftOf(img, x, p, c) as int + AboveOf(img, w, p, c) as int - AboveLeftOf(img, w, x, p, c) as int)
  }

  /** What an encoder sends for a channel: its distance from the prediction, modulo 256. */
  function Residual(img: seq<byte>, w: nat, x: nat, p: nat, c: nat): byte
    requires c < 3 && w > 0 && x <= p && 4 * p + 4 <= |img|
  {
    (At(img, p, c) as int - Prediction(img, w, x, p, c) as int) % 256
  }

  /** Pixel `p`, which is in column `x`, is its prediction plus its three data bytes, and opaque. */
  ghost predicate PixelDecoded(img: seq<byte>, data: seq<byte>, w: nat, x: nat, p: nat)
    requires w > 0 && x <= p
  {
    && 4 * p + 4 <= |img| && 3 * p + 3 <= |data| && At(img, p, 3) == 255
    && forall c | 0 <= c < 3
        :: At(img, p, c) as int == (data[3 * p + c] as int + Prediction(img, w, x, p, c) as int) % 256
  }

  lemma ModLe(p: nat, w: nat)
    requires w > 0
    ensures p % w <= p
  {
    if p < w {
      Arith.DivModUnique(p, w, 0, p);
    }
  }

  function Column(p: nat, w: nat): (x: nat)
    requires w > 0
    ensures x <= p
  {
    ModLe(p, w);
    p % w
  }

  /** The first `n` pixels of an image, row after row. */
  ghost predicate Decoded(img: seq<byte>, data: seq<byte>, w: nat, n: nat)
    requires w > 0
  {
    forall p: nat | p < n :: PixelDecoded(img, data, w, Column(p, w), p)
  }

  /** The encoder's data for an image. */
  function Residuals(img: seq<byte>, w: nat): (data: seq<byte>)
    requires w > 0 && |img| % 4 == 0
    ensures |data| == |img| / 4 * 3
  {
    seq(|img| / 4 * 3, (i: nat) requires i < |img| / 4 * 3 => Residual(img, w, Column(i / 3, w), i / 3, i % 3))
  }

  ghost predicate Opaque(img: seq<byte>) {
    forall p: nat | 4 * p + 4 <= |img| :: img[4 * p + 3] == 255
  }

  lemma ResidualUndone(a: byte, d: byte, pred: byte)
    ensures a as int == (d as int + pred as int) % 256 <==> d as int == (a as int - pred as int) % 256
  {
  }

  /** Decoding undoes encoding and the other way round: an image belongs to exactly its own residuals. */
  lemma DecodedExactlyWhen(img: seq<byte>, data: seq<byte>, w: nat)
    requires w > 0 && |img| % 4 == 0 && |data| == |img| / 4 * 3
    ensures Decoded(img, data, w, |img| / 4) <==> Opaque(img) && data == Residuals(img, w)
  {
    var n := |img| / 4;
    if Decoded(img, data, w, n) {
      forall i: nat | i < |data|
        ensures data[i] == Residuals(img, w)[i]
      {
        var p, c := i / 3, i % 3;
        assert PixelDecoded(img, data, w, Column(p, w), p);
        hide Prediction, Column;
        assert data[3 * p + c] == data[i];
        ResidualUndone(At(img, p, c), data[i], Prediction(img, w, Column(p, w), p, c));
      }
      forall p: nat | 4 * p + 4 <= |img|
        ensures img[4 * p + 3] == 255
      {
        assert PixelDecoded(img, data, w, Column(p, w), p);
      }
    }
    if Opaque(img) && data == Residuals(img, w) {
      forall p: nat | p < n
        ensures PixelDecoded(img, data, w, Column(p, w), p)
      {
        ResidualsDecode(img, data, w, p);
      }
    }
  }

  lemma ResidualsDecode(img: seq<byte>, data: seq<byte>, w: nat, p: nat)
    requires w > 0 && |img| % 4 == 0 && 4 * p + 4 <= |img| && Opaque(img) && data == Residuals(img, w)
    ensures PixelDecoded(img, data, w, Column(p, w), p)
  {
    hide Prediction, Column;
    forall c | 0 <= c < 3
      ensures At(img, p, c) as int == (data[3 * p + c] as int + Prediction(img, w, Column(p, w), p, c) as int) % 256
    {
      assert (3 * p + c) / 3 == p && (3 * p + c) % 3 == c;
      ResidualUndone(At(img, p, c), data[3 * p + c], Prediction(img, w, Column(p, w), p, c));
    }
  }

  /** A pixel depends only on the pixels before it. */
  lemma {:induction false} DecodedFront(a: seq<byte>, b: seq<byte>, data: seq<byte>, w: nat, n: nat)
    requires w > 0 && 4 * n <= |a| && 4 * n <= |b| && Decoded(a, data, w, n) && Decoded(b, data, w, n)
    ensures a[..4 * n] == b[..4 * n]
  {
    if n > 0 {
      var p := n - 1;
      assert Decoded(a, data, w, p) && Decoded(b, data, w, p);
      assert PixelDecoded(a, data, w, Column(p, w), p) && PixelDecoded(b, data, w, Column(p, w), p);
      hide Decoded;
      DecodedFront(a, b, data, w, p);
      forall c | 0 <= c < 3
        ensures At(a, p, c) == At(b, p, c)
      {
        SamePrediction(a, b, w, Column(p, w), p, c);
        hide Prediction;
      }
      hide Prediction, PixelDecoded;
      assert At(a, p, 3) == At(b, p, 3);
      FrontGrows(a, b, p);
    }
  }

  lemma FrontGrows(a: seq<byte>, b: seq<byte>, p: nat)
    requires 4 * p + 4 <= |a| && 4 * p + 4 <= |b| && a[..4 * p] == b[..4 * p]
    requires At(a, p, 0) == At(b, p, 0) && At(a, p, 1) == At(b, p, 1) && At(a, p, 2) == At(b, p, 2)
        && At(a, p, 3) == At(b, p, 3)
    ensures a[..4 * (p + 1)] == b[..4 * (p + 1)]
  {
    assert a[..4 * p + 4] == a[..4 * p] + a[4 * p..4 * p + 4];
    assert b[..4 * p + 4] == b[..4 * p] + b[4 * p..4 * p + 4];
  }

  lemma SameAt(a: seq<byte>, b: seq<byte>, n: nat, p: nat, c: nat)
    requires n <= |a| && n <= |b| && a[..n] == b[..n] && c < 4 && 4 * p + 4 <= n
    ensures At(a, p, c) == At(b, p, c)
  {
    assert At(a, p, c) == a[..n][4 * p + c];
    assert At(b, p, c) == b[..n][4 * p + c];
  }

  lemma SamePrediction(a: seq<byte>, b: seq<byte>, w: nat, x: nat, p: nat, c: nat)
    requires w > 0 && x <= p && 4 * p <= |a| && 4 * p <= |b| && a[..4 * p] == b[..4 * p] && c < 4
    ensures Prediction(a, w, x, p, c) == Prediction(b, w, x, p, c)
  {
    if x > 0 { SameAt(a, b, 4 * p, p - 1, c); }
    if p >= w { SameAt(a, b, 4 * p, p - w, c); }
    if x > 0 && p > w { SameAt(a, b, 4 * p, p - w - 1, c); }
    hide At;
  }

  /** The image that data decodes to, pixel after pixel. */
  function GradientOf(data: seq<byte>, w: nat, n: nat): (img: seq<byte>)
    requires w > 0 && 3 * n <= |data|
    ensures |img| == 4 * n
  {
    if n == 0 then [] else
      var img := GradientOf(data, w, n - 1);
      img + GradientPixel(img, data, w, n - 1)
  }

  function GradientPixel(img: seq<byte>, data: seq<byte>, w: nat, p: nat): (pixel: seq<byte>)
    requires w > 0 && |img| == 4 * p && 3 * p + 3 <= |data|
    ensures |pixel| == 4
  {
    var x := Column(p, w);
    [(data[3 * p] as int + Prediction(img, w, x, p, 0) as int) % 256,
     (data[3 * p + 1] as int + Prediction(img, w, x, p, 1) as int) % 256,
     (data[3 * p + 2] as int + Prediction(img, w, x, p, 2) as int) % 256, 255]
  }

  lemma {:induction false} GradientDecoded(data: seq<byte>, w: nat, n: nat)
    requires w > 0 && 3 * n <= |data|
    ensures Decoded(GradientOf(data, w, n), data, w, n)
  {
    if n > 0 {
      var before := GradientOf(data, w, n - 1);
      assert GradientOf(data, w, n) == before + GradientPixel(before, data, w, n - 1);
      hide *;
      GradientDecoded(data, w, n - 1);
      NewPixel(before, data, w, n - 1);
      DecodedAppended(before, GradientPixel(before, data, w, n - 1), data, w, n - 1);
    }
  }

  lemma DecodedAppended(before: seq<byte>, pixel: seq<byte>, data: seq<byte>, w: nat, p: nat)
    requires w > 0 && Decoded(before, data, w, p) && PixelDecoded(before + pixel, data, w, Column(p, w), p)
    ensures Decoded(before + pixel, data, w, p + 1)
  {
    hide PixelDecoded, Column;
    forall q: nat | q < p
      ensures PixelDecoded(before + pixel, data, w, Column(q, w), q)
    {
      assert PixelDecoded(before, data, w, Column(q, w), q);
      LongerImage(before, before + pixel, data, w, Column(q, w), q);
    }
  }

  lemma NewPixel(before: seq<byte>, data: seq<byte>, w: nat, p: nat)
    requires w > 0 && |before| == 4 * p && 3 * p + 3 <= |data|
    ensures PixelDecoded(before + GradientPixel(before, data, w, p), data, w, Column(p, w), p)
  {
    var after := before + GradientPixel(before, data, w, p);
    forall c | 0 <= c < 3
        ensures Prediction(after, w, Column(p, w), p, c) == Prediction(before, w, Column(p, w), p, c) {
      SamePrediction(after, before, w, Column(p, w), p, c);
      hide Prediction;
    }
    hide Prediction, Column;
  }

  lemma LongerImage(before: seq<byte>, after: seq<byte>, data: seq<byte>, w: nat, x: nat, q: nat)
    requires w > 0 && x <= q && before <= after && PixelDecoded(before, data, w, x, q)
    ensures PixelDecoded(after, data, w, x, q)
  {
    assert before[..4 * q] == after[..4 * q];
    forall c | 0 <= c < 3 ensures Prediction(after, w, x, q, c) == Prediction(before, w, x, q, c) {
      SamePrediction(after, before, w, x, q, c);
    }
    hide Prediction;
  }

  /**
   * The gradient filter inverts its encoder: an image's residuals decode to the image, opaque
   * alpha included.
   */
  lemma GradientInverts(img: seq<byte>, w: nat)
    requires w > 0 && |img| % 4 == 0 && Opaque(img)
    ensures GradientOf(Residuals(img, w), w, |img| / 4) == img
  {
    var out := GradientOf(Residuals(img, w), w, |img| / 4);
    GradientDecoded(Residuals(img, w), w, |img| / 4);
    DecodedExactlyWhen(img, Residuals(img, w), w);
    DecodedFront(img, out, Residuals(img, w), w, |img| / 4);
    hide *;
    assert img[..4 * (|img| / 4)] == img && out[..4 * (|img| / 4)] == out;
  }

  /** The buffer of left values before pixel `p`. */
  ghost predicate LeftReady(left: seq<byte>, img: seq<byte>, x: nat, p: nat)
    requires x <= p && 4 * p <= |img|
  {
    |left| == 3 && forall c | 0 <= c < 3 :: left[c] == LeftOf(img, x, p, c)
  }

  ghost predicate UpperLeftReady(upperleft: seq<byte>, img: seq<byte>, w: nat, x: nat, p: nat)
    requires w > 0 && x <= p && 4 * p <= |img|
  {
    |upperleft| == 3 && forall c | 0 <= c < 3 :: upperleft[c] == AboveLeftOf(img, w, x, p, c)
  }

  /** One channel written at pixel `p`: what came before is untouched. */
  ghost predicate Wrote(before: seq<byte>, after: seq<byte>, p: nat) {
    |after| == |before| && 4 * p <= |before| && after[..4 * p] == before[..4 * p]
  }

  lemma FirstRowPrediction(img: seq<byte>, w: nat, p: nat, c: nat)
    requires p < w && 4 * p <= |img| && c < 4
    ensures Prediction(img, w, p, p, c) == LeftOf(img, p, p, c)
  {
  }

  lemma PredictionKept(before: seq<byte>, after: seq<byte>, w: nat, x: nat, p: nat, c: nat)
    requires Wrote(before, after, p) && w > 0 && x <= p && c < 4
    ensures Prediction(after, w, x, p, c) == Prediction(before, w, x, p, c)
  {
    SamePrediction(after, before, w, x, p, c);
  }

  /** The inner loop of the first row: the prediction is the left value. */
  method DecodeFirstRowPixel(rgbx: array<byte>, data: seq<byte>, w: nat, p: nat, left: array<byte>)
    requires p < w && 4 * p + 4 <= rgbx.Length && 3 * p + 3 <= |data| && left != rgbx && left.Length == 3
    requires LeftReady(left[..], rgbx[..], p, p)
    modifies rgbx, left
    ensures Wrote(old(rgbx[..]), rgbx[..], p) && PixelDecoded(rgbx[..], data, w, p, p)
    ensures LeftReady(left[..], rgbx[..], p + 1, p + 1)
  {
    ghost var img := rgbx[..];
    var c := 0;
    while c < 3
      invariant 0 <= c <= 3 && Wrote(img, rgbx[..], p)
      invariant forall k | 0 <= k < c
          :: rgbx[4 * p + k] as int == (data[3 * p + k] as int + Prediction(img, w, p, p, k) as int) % 256
      invariant forall k | 0 <= k < c :: left[k] == rgbx[4 * p + k]
      invariant forall k | c <= k < 3 :: left[k] == LeftOf(img, p, p, k)
    {
      hide Wrote, Prediction, LeftOf;
      FirstRowPrediction(img, w, p, c);
      var value := data[3 * p + c] as int + left[c] as int;
      WroteOne(img, rgbx[..], p, c, value % 256);
      rgbx[4 * p + c] := value % 256;
      left[c] := value % 256;
      c := c + 1;
    }
    WroteOne(img, rgbx[..], p, 3, 255);
    rgbx[4 * p + 3] := 255;
    FinishPixel(img, rgbx[..], data, w, p, p);
  }

  lemma WroteOne(before: seq<byte>, now: seq<byte>, p: nat, c: nat, v: byte)
    requires Wrote(before, now, p) && c < 4 && 4 * p + 4 <= |now|
    ensures Wrote(before, now[4 * p + c := v], p)
  {
  }

  lemma FinishPixel(before: seq<byte>, after: seq<byte>, data: seq<byte>, w: nat, x: nat, p: nat)
    requires Wrote(before, after, p) && 4 * p + 4 <= |after| && 3 * p + 3 <= |data| && w > 0 && x <= p
        && after[4 * p + 3] == 255
    requires forall k | 0 <= k < 3
        :: after[4 * p + k] as int == (data[3 * p + k] as int + Prediction(before, w, x, p, k) as int) % 256
    ensures PixelDecoded(after, data, w, x, p)
  {
    forall k | 0 <= k < 3 ensures Prediction(after, w, x, p, k) == Prediction(before, w, x, p, k) {
      PredictionKept(before, after, w, x, p, k);
    }
    hide Prediction;
  }

  /** The inner loop of the other rows. */
  method DecodeNextRowPixel(rgbx: array<byte>, data: seq<byte>, w: nat, ghost x: nat, p: nat,
                            left: array<byte>, upper: array<byte>, upperleft: array<byte>)
    requires 0 < w <= p && x < w && x <= p && (x > 0 ==> p > w) && 4 * p + 4 <= rgbx.Length && 3 * p + 3 <= |data|
    requires left.Length == upper.Length == upperleft.Length == 3
    requires left != upper && left != upperleft && upper != upperleft && rgbx != left && rgbx != upper
        && rgbx != upperleft
    requires LeftReady(left[..], rgbx[..], x, p) && UpperLeftReady(upperleft[..], rgbx[..], w, x, p)
    modifies rgbx, left, upper, upperleft
    ensures Wrote(old(rgbx[..]), rgbx[..], p) && PixelDecoded(rgbx[..], data, w, x, p)
    ensures LeftReady(left[..], rgbx[..], x + 1, p + 1) && UpperLeftReady(upperleft[..], rgbx[..], w, x + 1, p + 1)
  {
    ghost var img := rgbx[..];
    var c := 0;
    while c < 3
      invariant 0 <= c <= 3 && Wrote(img, rgbx[..], p)
      invariant forall k | 0 <= k < c
          :: rgbx[4 * p + k] as int == (data[3 * p + k] as int + Prediction(img, w, x, p, k) as int) % 256
      invariant forall k | 0 <= k < c :: left[k] == rgbx[4 * p + k] && upperleft[k] == AboveOf(img, w, p, k)
      invariant forall k | c <= k < 3 :: left[k] == LeftOf(img, x, p, k) && upperleft[k] == AboveLeftOf(img, w, x, p, k)
    {
      hide LeftOf, AboveLeftOf;
      SameAt(rgbx[..], img, 4 * p, p - w, c);
      upper[c] := rgbx[4 * (p - w) + c];
      assert upper[c] == AboveOf(img, w, p, c);
      hide AboveOf, Wrote;
      var prediction := left[c] as int + upper[c] as int - upperleft[c] as int;
      if prediction < 0 {
        prediction := 0;
      } else if prediction > 255 {
        prediction := 255;
      }
      assert prediction == Prediction(img, w, x, p, c);
      hide Prediction;
      var value := data[3 * p + c] as int + prediction;
      WroteOne(img, rgbx[..], p, c, value % 256);
      rgbx[4 * p + c] := value % 256;
      upperleft[c] := upper[c];
      left[c] := value % 256;
      c := c + 1;
    }
    WroteOne(img, rgbx[..], p, 3, 255);
    rgbx[4 * p + 3] := 255;
    FinishPixel(img, rgbx[..], data, w, x, p);
    NextReady(img, rgbx[..], left[..], upperleft[..], w, x, p);
  }

  lemma NextReady(before: seq<byte>, after: seq<byte>, left: seq<byte>, upperleft: seq<byte>, w: nat, x: nat, p: nat)
    requires Wrote(before, after, p) && 4 * p + 4 <= |after| && 0 < w <= p && x <= p && |left| == |upperleft| == 3
    requires forall k | 0 <= k < 3 :: left[k] == after[4 * p + k] && upperleft[k] == AboveOf(before, w, p, k)
    ensures LeftReady(left, after, x + 1, p + 1) && UpperLeftReady(upperleft, after, w, x + 1, p + 1)
  {
    forall k | 0 <= k < 3 ensures upperleft[k] == AboveLeftOf(after, w, x + 1, p + 1, k) {
      SameAt(before, after, 4 * p, p - w, k);
    }
  }

  /** More pixels decoded, the earlier ones kept. */
  lemma DecodedGrows(before: seq<byte>, after: seq<byte>, data: seq<byte>, w: nat, p: nat)
    requires w > 0 && Decoded(before, data, w, p) && Wrote(before, after, p)
        && PixelDecoded(after, data, w, Column(p, w), p)
    ensures Decoded(after, data, w, p + 1)
  {
    forall q: nat | q < p
      ensures PixelDecoded(after, data, w, Column(q, w), q)
    {
      assert PixelDecoded(before, data, w, Column(q, w), q);
      PixelKept(before, after, data, w, Column(q, w), q, p);
      hide PixelDecoded, Wrote, Column;
    }
  }

  lemma PixelKept(before: seq<byte>, after: seq<byte>, data: seq<byte>, w: nat, x: nat, q: nat, p: nat)
    requires w > 0 && x <= q < p && PixelDecoded(before, data, w, x, q) && Wrote(before, after, p)
    ensures PixelDecoded(after, data, w, x, q)
  {
    assert after[..4 * q] == after[..4 * p][..4 * q] && before[..4 * q] == before[..4 * p][..4 * q];
    forall c | 0 <= c < 4 ensures At(after, q, c) == At(before, q, c) {
      SameAt(after, before, 4 * p, q, c);
    }
    forall c | 0 <= c < 3 ensures Prediction(after, w, x, q, c) == Prediction(before, w, x, q, c) {
      SamePrediction(after, before, w, x, q, c);
    }
    hide Prediction;
  }

  lemma ColumnIs(y: nat, x: nat, w: nat)
    requires x < w
    ensures Column(y * w + x, w) == x
  {
    assert y * w == w * y;
    Arith.DivModUnique(y * w + x, w, y, x);
  }

  /** The pixels in `rows` rows. */
  function Count(width: nat, rows: nat): nat { rows * width }

  /** The two loops of the gradient filter over `width * height` pixels. */
  method Gradient(data: seq<byte>, width: nat, height: nat) returns (rgbx: array<byte>)
    requires width > 0 && height > 0 && |data| == 3 * Count(width, height)
    ensures fresh(rgbx) && rgbx[..] == GradientOf(data, width, Count(width, height))
  {
    rgbx := new byte[4 * Count(width, height)](_ => 0);
    hide *;
    DecodeTopRow(rgbx, data, width, height);
    var y := 1;
    while y < height
      invariant 1 <= y <= height && Decoded(rgbx[..], data, width, Count(width, y))
    {
      DecodeRow(rgbx, data, width, height, y);
      y := y + 1;
    }
    OnlyImage(rgbx[..], data, width, Count(width, height));
  }

  lemma OnlyImage(img: seq<byte>, data: seq<byte>, w: nat, n: nat)
    requires w > 0 && |img| == 4 * n && |data| == 3 * n && Decoded(img, data, w, n)
    ensures img == GradientOf(data, w, n)
  {
    GradientDecoded(data, w, n);
    DecodedFront(img, GradientOf(data, w, n), data, w, n);
    hide *;
    assert img[..4 * n] == img && GradientOf(data, w, n)[..4 * n] == GradientOf(data, w, n);
  }

  method DecodeTopRow(rgbx: array<byte>, data: seq<byte>, width: nat, height: nat)
    requires width > 0 && height > 0 && |data| == 3 * Count(width, height) && rgbx.Length == 4 * Count(width, height)
    modifies rgbx
    ensures Decoded(rgbx[..], data, width, Count(width, 1))
  {
    var left := new byte[3](_ => 0);
    TopFits(height, width);
    hide PixelDecoded, Wrote, LeftOf, AboveLeftOf, Column, Count;
    assert left[..] == [0, 0, 0];
    FirstReady(left[..], rgbx[..], width, 0);
    hide LeftReady;
    assert Decoded(rgbx[..], data, width, 0);
    hide Decoded;
    var x := 0;
    while x < width
      invariant 0 <= x <= width && Decoded(rgbx[..], data, width, x)
      invariant LeftReady(left[..], rgbx[..], x, x)
    {
      ghost var was := rgbx[..];
      DecodeFirstRowPixel(rgbx, data, width, x, left);
      ColumnIs(0, x, width);
      DecodedGrows(was, rgbx[..], data, width, x);
      x := x + 1;
    }
  }

  lemma TopFits(height: nat, width: nat)
    requires height > 0
    ensures Count(width, 1) == width <= Count(width, height)
  {
    Arith.MulLe(1, height, width);
  }

  lemma FirstReady(zeros: seq<byte>, img: seq<byte>, w: nat, p: nat)
    requires zeros == [0, 0, 0] && w > 0 && 4 * p <= |img|
    ensures LeftReady(zeros, img, 0, p) && UpperLeftReady(zeros, img, w, 0, p)
  {
  }

  /** One further row; the buffers start at zero. */
  method DecodeRow(rgbx: array<byte>, data: seq<byte>, width: nat, height: nat, y: nat)
    requires width > 0 && 0 < y < height && |data| == 3 * Count(width, height)
        && rgbx.Length == 4 * Count(width, height)
    requires Decoded(rgbx[..], data, width, Count(width, y))
    modifies rgbx
    ensures Decoded(rgbx[..], data, width, Count(width, y + 1))
  {
    var left, upper, upperleft := new byte[3](_ => 0), new byte[3](_ => 0), new byte[3](_ => 0);
    hide PixelDecoded, Wrote, LeftOf, AboveLeftOf, Column, Decoded, Count;
    RowFits(y, height, width);
    assert left[..] == [0, 0, 0] && upperleft[..] == [0, 0, 0];
    FirstReady(left[..], rgbx[..], width, Count(width, y));
    DecodeRowPixels(rgbx, data, width, y, left, upper, upperleft);
  }

  /** The inner loop of such a row. */
  method DecodeRowPixels(rgbx: array<byte>, data: seq<byte>, width: nat, y: nat,
                         left: array<byte>, upper: array<byte>, upperleft: array<byte>)
    requires 0 < width <= Count(width, y)
    requires 3 * (Count(width, y) + width) <= |data| && 4 * (Count(width, y) + width) <= rgbx.Length
    requires left.Length == upper.Length == upperleft.Length == 3
    requires left != upper && left != upperleft && upper != upperleft && rgbx != left && rgbx != upper
        && rgbx != upperleft
    requires Decoded(rgbx[..], data, width, Count(width, y))
    requires LeftReady(left[..], rgbx[..], 0, Count(width, y))
        && UpperLeftReady(upperleft[..], rgbx[..], width, 0, Count(width, y))
    modifies rgbx, left, upper, upperleft
    ensures Decoded(rgbx[..], data, width, Count(width, y) + width)
  {
    hide *;
    var first := Count(width, y);
    var x := 0;
    while x < width
      invariant 0 <= x <= width && Decoded(rgbx[..], data, width, first + x)
      invariant LeftReady(left[..], rgbx[..], x, first + x)
          && UpperLeftReady(upperleft[..], rgbx[..], width, x, first + x)
    {
      ghost var was := rgbx[..];
      DecodeNextRowPixel(rgbx, data, width, x, first + x, left, upper, upperleft);
      CountColumn(y, x, width);
      DecodedGrows(was, rgbx[..], data, width, first + x);
      x := x + 1;
    }
  }

  lemma CountColumn(y: nat, x: nat, w: nat)
    requires x < w
    ensures Column(Count(w, y) + x, w) == x
  {
    ColumnIs(y, x, w);
  }

  lemma RowFits(y: nat, height: nat, width: nat)
    requires 0 < y < height
    ensures width <= Count(width, y) && Count(width, y) + width == Count(width, y + 1) <= Count(width, height)
  {
    Arith.Distribute(y, 1, width);
    Arith.MulLe(y + 1, height, width);
    Arith.MulLe(1, y, width);
  }

  // ---------------------------------------------------------------- palettes

  /** Entry `k` of a palette of RGB bytes, made opaque. */
  function Entry(palette: seq<byte>, k: nat): (pixel: seq<byte>)
    requires 3 * k + 3 <= |palette|
    ensures |pixel| == 4
  {
    [palette[3 * k], palette[3 * k + 1], palette[3 * k + 2], 255]
  }

  /** Bytes in a row of one-bit pixels. */
  function MonoBytes(width: nat): nat { (width + 7) / 8 }

  /** The palette entry of pixel `x`: its own bit of its row, from the top of each byte. */
  function MonoEntry(row: seq<byte>, palette: seq<byte>, x: nat): (pixel: seq<byte>)
    requires x / 8 < |row| && |palette| >= 6
    ensures |pixel| == 4
  {
    Entry(palette, if Bit(row[x / 8], 7 - x % 8) then 1 else 0)
  }

  ghost predicate MonoDone(img: seq<byte>, row: seq<byte>, palette: seq<byte>, base: nat, x: nat)
    requires |palette| >= 6
  {
    x / 8 < |row| && 4 * (base + x) + 4 <= |img| && PixelOf(img, base + x) == MonoEntry(row, palette, x)
  }

  /** The first `n` pixels of a row that begins at pixel `base`. */
  ghost predicate MonoRow(img: seq<byte>, row: seq<byte>, palette: seq<byte>, base: nat, n: nat)
    requires |palette| >= 6
  {
    forall x: nat | x < n :: MonoDone(img, row, palette, base, x)
  }

  method WriteEntry(dest: array<byte>, palette: seq<byte>, p: nat, k: nat)
    requires 4 * p + 4 <= dest.Length && 3 * k + 3 <= |palette|
    modifies dest
    ensures Wrote(old(dest[..]), dest[..], p) && PixelOf(dest[..], p) == Entry(palette, k)
  {
    dest[4 * p] := palette[3 * k];
    dest[4 * p + 1] := palette[3 * k + 1];
    dest[4 * p + 2] := palette[3 * k + 2];
    dest[4 * p + 3] := 255;
  }

  lemma MonoGrows(before: seq<byte>, after: seq<byte>, row: seq<byte>, palette: seq<byte>, base: nat, n: nat)
    requires |palette| >= 6 && MonoRow(before, row, palette, base, n) && Wrote(before, after, base + n)
    requires MonoDone(after, row, palette, base, n)
    ensures MonoRow(after, row, palette, base, n + 1)
  {
    forall x: nat | x < n ensures MonoDone(after, row, palette, base, x) {
      assert MonoDone(before, row, palette, base, x);
      SamePixel(before, after, base + n, base + x);
      hide PixelOf, MonoEntry, Wrote;
    }
  }

  lemma SamePixel(before: seq<byte>, after: seq<byte>, n: nat, p: nat)
    requires Wrote(before, after, n) && p < n
    ensures PixelOf(after, p) == PixelOf(before, p)
  {
    assert PixelOf(after, p) == after[..4 * n][4 * p..4 * p + 4];
    assert PixelOf(before, p) == before[..4 * n][4 * p..4 * p + 4];
  }

  /** The loops of `_monoRect` over the bits of one byte: all eight, or those the width leaves over. */
  method MonoByte(dest: array<byte>, row: seq<byte>, palette: seq<byte>, base: nat, x: nat, bits: nat)
    requires |palette| >= 6 && x < |row| && bits <= 8 && 4 * (base + 8 * x + bits) <= dest.Length
    requires MonoRow(dest[..], row, palette, base, 8 * x)
    modifies dest
    ensures MonoRow(dest[..], row, palette, base, 8 * x + bits) && Wrote(old(dest[..]), dest[..], base)
  {
    hide MonoRow, PixelOf, Entry;
    ghost var start := dest[..];
    var b := 7;
    while b >= 8 - bits
      invariant 7 - bits <= b <= 7 && MonoRow(dest[..], row, palette, base, 8 * x + 7 - b)
          && Wrote(start, dest[..], base)
    {
      ghost var was := dest[..];
      var done := 7 - b;
      WriteEntry(dest, palette, base + 8 * x + done, if Bit(row[x], b) then 1 else 0);
      assert (8 * x + done) / 8 == x && (8 * x + done) % 8 == done;
      MonoGrows(was, dest[..], row, palette, base, 8 * x + done);
      WroteTwice(start, was, dest[..], base, base + 8 * x + done);
      b := b - 1;
    }
  }

  lemma WroteTwice(a: seq<byte>, b: seq<byte>, c: seq<byte>, n: nat, m: nat)
    requires Wrote(a, b, n) && Wrote(b, c, m) && n <= m
    ensures Wrote(a, c, n)
  {
    assert c[..4 * n] == c[..4 * m][..4 * n] && b[..4 * n] == b[..4 * m][..4 * n];
  }

  /** One row of `_monoRect`. */
  method MonoLine(dest: array<byte>, row: seq<byte>, palette: seq<byte>, base: nat, width: nat)
    requires |palette| >= 6 && |row| == MonoBytes(width) && 4 * (base + width) <= dest.Length
    modifies dest
    ensures MonoRow(dest[..], row, palette, base, width) && Wrote(old(dest[..]), dest[..], base)
  {
    ghost var start := dest[..];
    var w1 := width / 8;
    var x := 0;
    while x < w1
      invariant 0 <= x <= w1 && MonoRow(dest[..], row, palette, base, 8 * x) && Wrote(start, dest[..], base)
    {
      hide MonoRow;
      ghost var was := dest[..];
      MonoByte(dest, row, palette, base, x, 8);
      WroteTwice(start, was, dest[..], base, base);
      x := x + 1;
    }
    hide MonoRow;
    ghost var was := dest[..];
    if width % 8 > 0 {
      MonoByte(dest, row, palette, base, x, width % 8);
      WroteTwice(start, was, dest[..], base, base);
    }
  }

  /** Row `y` of one-bit data. */
  function RowOf(data: seq<byte>, width: nat, y: nat): seq<byte> {
    var at := Count(MonoBytes(width), y);
    if at + MonoBytes(width) <= |data| then data[at..at + MonoBytes(width)] else []
  }

  ghost predicate MonoRows(img: seq<byte>, data: seq<byte>, palette: seq<byte>, width: nat, n: nat)
    requires |palette| >= 6
  {
    forall y: nat | y < n :: MonoRow(img, RowOf(data, width, y), palette, Count(width, y), width)
  }

  lemma CountNext(width: nat, y: nat, rows: nat)
    requires y < rows
    ensures Count(width, y) + width == Count(width, y + 1) <= Count(width, rows)
  {
    Arith.Distribute(y, 1, width);
    Arith.MulLe(y + 1, rows, width);
  }

  lemma MonoRowKept(before: seq<byte>, after: seq<byte>, row: seq<byte>, palette: seq<byte>, base: nat, width: nat,
                    n: nat)
    requires |palette| >= 6 && MonoRow(before, row, palette, base, width) && Wrote(before, after, n)
        && base + width <= n
    ensures MonoRow(after, row, palette, base, width)
  {
    forall x: nat | x < width ensures MonoDone(after, row, palette, base, x) {
      assert MonoDone(before, row, palette, base, x);
      SamePixel(before, after, n, base + x);
      hide PixelOf, MonoEntry, Wrote;
    }
  }

  lemma MonoRowsGrow(before: seq<byte>, after: seq<byte>, data: seq<byte>, palette: seq<byte>, width: nat, n: nat)
    requires |palette| >= 6 && MonoRows(before, data, palette, width, n) && Wrote(before, after, Count(width, n))
    requires MonoRow(after, RowOf(data, width, n), palette, Count(width, n), width)
    ensures MonoRows(after, data, palette, width, n + 1)
  {
    hide MonoRow, RowOf, Count, Wrote;
    forall y: nat | y < n ensures MonoRow(after, RowOf(data, width, y), palette, Count(width, y), width) {
      CountNext(width, y, n);
      MonoRowKept(before, after, RowOf(data, width, y), palette, Count(width, y), width, Count(width, n));
    }
  }

  /** Every pixel of a two-colour rectangle is the entry that its bit names. */
  method MonoRect(data: seq<byte>, palette: seq<byte>, width: nat, height: nat) returns (dest: array<byte>)
    requires |palette| >= 6 && |data| == Count(MonoBytes(width), height)
    ensures fresh(dest) && dest.Length == 4 * Count(width, height)
    ensures MonoRows(dest[..], data, palette, width, height)
  {
    dest := new byte[4 * Count(width, height)](_ => 0);
    hide Count, MonoRow, Wrote;
    var y := 0;
    while y < height
      invariant 0 <= y <= height && MonoRows(dest[..], data, palette, width, y)
    {
      hide MonoRows;
      ghost var was := dest[..];
      CountNext(width, y, height);
      CountNext(MonoBytes(width), y, height);
      var at := Count(MonoBytes(width), y);
      MonoLine(dest, data[at..at + MonoBytes(width)], palette, Count(width, y), width);
      MonoRowsGrow(was, dest[..], data, palette, width, y);
      y := y + 1;
    }
  }

  /** A pixel whose data byte does not exist: three undefined channels stored as zero, and opaque. */
  const MISSING: seq<byte> := [0, 0, 0, 255]

  /** Pixel `j` of an indexed rectangle. */
  function IndexedEntry(data: seq<byte>, palette: seq<byte>, j: nat): seq<byte>
    requires |palette| >= 768
  {
    if j < |data| then Entry(palette, data[j]) else MISSING
  }

  method WritePixel(dest: array<byte>, p: nat, pixel: seq<byte>)
    requires 4 * p + 4 <= dest.Length && |pixel| == 4
    modifies dest
    ensures Wrote(old(dest[..]), dest[..], p) && PixelOf(dest[..], p) == pixel
  {
    dest[4 * p] := pixel[0];
    dest[4 * p + 1] := pixel[1];
    dest[4 * p + 2] := pixel[2];
    dest[4 * p + 3] := pixel[3];
  }

  /** Every pixel of an indexed rectangle is the entry its byte names, as far as there are bytes. */
  method PaletteRect(data: seq<byte>, palette: seq<byte>, width: nat, height: nat) returns (dest: array<byte>)
    requires |palette| >= 768
    ensures fresh(dest) && dest.Length == 4 * Count(width, height)
    ensures forall j | 0 <= j < Count(width, height) :: PixelOf(dest[..], j) == IndexedEntry(data, palette, j)
  {
    var total := Count(width, height);
    dest := new byte[4 * total](_ => 0);
    hide Count, PixelOf, Entry;
    var j := 0;
    while j < total
      invariant 0 <= j <= total
      invariant forall k | 0 <= k < j :: PixelOf(dest[..], k) == IndexedEntry(data, palette, k)
    {
      ghost var was := dest[..];
      WritePixel(dest, j, IndexedEntry(data, palette, j));
      forall k | 0 <= k < j ensures PixelOf(dest[..], k) == PixelOf(was, k) {
        SamePixel(was, dest[..], j, k);
        hide Wrote;
      }
      j := j + 1;
    }
  }

  /** The copy filter: three bytes a pixel, made opaque. */
  method CopyRect(data: seq<byte>, width: nat, height: nat) returns (dest: array<byte>)
    requires |data| == 3 * Count(width, height)
    ensures fresh(dest) && dest.Length == 4 * Count(width, height)
    ensures forall j | 0 <= j < Count(width, height) :: PixelOf(dest[..], j) == Entry(data, j)
  {
    var total := Count(width, height);
    dest := new byte[4 * total](_ => 0);
    hide Count, PixelOf, Entry;
    var j := 0;
    while j < total
      invariant 0 <= j <= total
      invariant forall k | 0 <= k < j :: PixelOf(dest[..], k) == Entry(data, k)
    {
      ghost var was := dest[..];
      WritePixel(dest, j, Entry(data, j));
      forall k | 0 <= k < j ensures PixelOf(dest[..], k) == PixelOf(was, k) {
        SamePixel(was, dest[..], j, k);
        hide Wrote;
      }
      j := j + 1;
    }
  }

  /** Data bytes of a palette rectangle: one bit a pixel up to two colours, else a byte. */
  function PaletteBytes(width: nat, height: nat, numColors: nat): nat {
    Count((width * (if numColors <= 2 then 1 else 8) + 7) / 8, height)
  }

  /**
   * The data of an indexed rectangle covers its area exactly when it has more than one colour,
   * is at most one pixel wide, or is empty: a single colour comes as bits, but is drawn as bytes.
   */
  lemma IndexedDataCoversExactlyWhen(width: nat, height: nat, numColors: nat)
    requires numColors == 1 || numColors > 2
    ensures PaletteBytes(width, height, numColors) >= Count(width, height)
       <==> numColors > 2 || width <= 1 || height == 0
  {
    var row := (width * (if numColors <= 2 then 1 else 8) + 7) / 8;
    if numColors > 2 || width <= 1 {
      assert row == width;
    } else {
      assert row < width;
      if height > 0 {
        Arith.MulLe(row + 1, width, height);
        assert height * (row + 1) == height * row + height;
      }
    }
  }

  /** A colour of the palette's own `n` entries. */
  ghost predicate Own(palette: seq<byte>, n: nat, pixel: seq<byte>)
    requires |palette| >= 768 && n <= 256
  {
    exists k: nat | k < n :: pixel == Entry(palette, k)
  }

  /** Every pixel of an indexed rectangle has one. */
  ghost predicate AllOwn(data: seq<byte>, palette: seq<byte>, n: nat, pixels: nat)
    requires |palette| >= 768 && n <= 256
  {
    forall j: nat | j < pixels :: Own(palette, n, IndexedEntry(data, palette, j))
  }

  /** A palette buffer of one value for the palette and another one behind it. */
  function TwoTone(n: nat, inside: byte, behind: byte): (palette: seq<byte>)
    ensures |palette| == 768
  {
    seq(768, (i: nat) => if i < 3 * n then inside else behind)
  }

  lemma NotOwn(n: nat, inside: byte, behind: byte, pixel: seq<byte>)
    requires n <= 256 && |pixel| == 4 && pixel[0] != inside
    ensures !Own(TwoTone(n, inside, behind), n, pixel)
  {
    forall k: nat | k < n ensures pixel != Entry(TwoTone(n, inside, behind), k) {
      assert Entry(TwoTone(n, inside, behind), k)[0] == inside;
    }
  }

  /** Pixel `j` has a byte, which names one of `n` colours. */
  predicate Named(data: seq<byte>, j: nat, n: nat) { j < |data| && (data[j] as int) < n }

  lemma NamedAreOwn(data: seq<byte>, palette: seq<byte>, n: nat, pixels: nat)
    requires |palette| >= 768 && n <= 256
    requires forall j: nat | j < pixels :: Named(data, j, n)
    ensures AllOwn(data, palette, n, pixels)
  {
    hide Entry;
    forall j: nat | j < pixels ensures Own(palette, n, IndexedEntry(data, palette, j)) {
      assert Named(data, j, n);
      assert IndexedEntry(data, palette, j) == Entry(palette, data[j]);
    }
  }

  /**
   * Nor are the indices of a palette rectangle checked. It shows nothing but colours of its
   * palette, whatever earlier rectangles left behind it in the buffer, exactly when every pixel
   * has a byte and the byte is below the number of colours.
   */
  lemma OwnColorsExactlyWhen(data: seq<byte>, numColors: nat, pixels: nat)
    requires numColors <= 256
    ensures (forall palette: seq<byte> | |palette| >= 768 :: AllOwn(data, palette, numColors, pixels))
       <==> (forall j: nat | j < pixels :: Named(data, j, numColors))
  {
    if forall j: nat | j < pixels :: Named(data, j, numColors) {
      hide AllOwn;
      forall palette: seq<byte> | |palette| >= 768 ensures AllOwn(data, palette, numColors, pixels) {
        NamedAreOwn(data, palette, numColors, pixels);
      }
    } else {
      var j: nat :| j < pixels && !Named(data, j, numColors);
      var palette := if j < |data| then TwoTone(numColors, 0, 1) else TwoTone(numColors, 1, 0);
      NotOwn(numColors, if j < |data| then 0 else 1, if j < |data| then 1 else 0, IndexedEntry(data, palette, j));
      assert !AllOwn(data, palette, numColors, pixels);
    }
  }

  // ---------------------------------------------------------------- compact lengths

  /** The length that `_readData` reads, and its bytes; it always waits for three bytes. */
  datatype Length = Unknown | Length(value: nat, size: nat)

  function ReadLength(q: seq<byte>): (l: Length)
    ensures l.Length? ==> 1 <= l.size <= 3
  {
    if |q| < 3 then Unknown
    else if q[0] < 128 then Length(q[0], 1)
    else if q[1] < 128 then Length(q[0] as int - 128 + 128 * (q[1] as int), 2)
    else Length(q[0] as int - 128 + 128 * (q[1] as int - 128) + 16384 * (q[2] as int), 3)
  }

  /** The code of a length, seven bits a byte and eight in the last. */
  function LengthCode(n: nat): seq<byte>
    requires n < 0x40_0000
  {
    if n < 128 then [n]
    else if n < 16384 then [n % 128 + 128, n / 128]
    else [n % 128 + 128, n / 128 % 128 + 128, n / 16384]
  }

  /** Every length up to 22 bits comes back, when three bytes are there. */
  lemma LengthRoundTrip(n: nat, rest: seq<byte>)
    requires n < 0x40_0000 && |LengthCode(n) + rest| >= 3
    ensures ReadLength(LengthCode(n) + rest) == Length(n, |LengthCode(n)|)
  {
    assert n == n % 128 + 128 * (n / 128);
    assert n / 128 == n / 128 % 128 + 128 * (n / 16384);
  }

  /** A code and its data that are shorter than three bytes are not read until more bytes come. */
  lemma ReadsExactlyWhen(n: nat, data: seq<byte>)
    requires n < 0x40_0000 && |data| == n
    ensures ReadLength(LengthCode(n) + data).Unknown? <==> n < 2
  {
    if n >= 2 {
      LengthRoundTrip(n, data);
    }
  }
}
