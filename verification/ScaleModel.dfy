/**
 Fitting a picture into bounds and sampling it bilinearly, over exact numbers.
 A bound that is zero or negative is unset.
 */
module ScaleModel {
  import opened Numbers

  type Channel = c: int | 0 <= c <= 255

  datatype Pixel = Pixel(r: Channel, g: Channel, b: Channel, a: Channel)

  // ---- Geometry ----

  predicate Fits(w: nat, h: nat, maxW: int, maxH: int) {
    && (maxW <= 0 || w <= maxW)
    && (maxH <= 0 || h <= maxH)
  }

  /** The length of a side when another side shrinks to a bound, rounded down. */
  function Share(other: nat, bound: nat, side: nat): nat
    requires side > 0
  {
    other * bound / side
  }

  function FitDims(srcW: nat, srcH: nat, maxW: int, maxH: int): (nat, nat) {
    if Fits(srcW, srcH, maxW, maxH) then (srcW, srcH)
    else
      var boundW: nat := if maxW <= 0 then srcW else maxW;
      var boundH: nat := if maxH <= 0 then srcH else maxH;
      var (w1, h1) := if srcW > boundW then (boundW, Share(srcH, boundW, srcW)) else (srcW, srcH);
      var (w2, h2) := if h1 > boundH && srcH > 0 then (Share(srcW, boundH, srcH), boundH) else (w1, h1);
      (if w2 <= 0 then 1 else w2, if h2 <= 0 then 1 else h2)
  }

  /** Shrinking `other` with `side` down to `bound`: the proportional length and what rounding down loses. */
  lemma Proportional(side: nat, other: nat, bound: nat)
    requires 0 < bound < side && other > 0
    ensures var p := Share(other, bound, side);
      && 0 <= p < other
      && 0 <= bound * other - p * side < side
      && (p == 0 ==> 0 < bound * other < side)
  {
    var p := Share(other, bound, side);
    assert other * bound == p * side + other * bound % side;
    assert other * bound < other * side;
    Cancel(p, other, side);
  }

  /** When both bounds bind, the second step cannot push the width back over its bound. */
  lemma SecondStep(srcW: nat, srcH: nat, boundW: nat, boundH: nat)
    requires 0 < boundW < srcW && 0 < boundH && Share(srcH, boundW, srcW) > boundH
    ensures srcH > 0 && Share(srcW, boundH, srcH) <= boundW && boundH < srcH
  {
    assert srcH > 0;
    var h1 := Share(srcH, boundW, srcW);
    Proportional(srcW, srcH, boundW);
    BoundedQuotient(srcW, srcH, boundW, boundH, h1);
  }

  lemma BoundedQuotient(srcW: nat, srcH: nat, boundW: nat, boundH: nat, h1: nat)
    requires srcH > 0 && boundH <= h1 && h1 * srcW <= boundW * srcH
    ensures Share(srcW, boundH, srcH) <= boundW
  {
    assert boundH * srcW <= h1 * srcW;
    var w := Share(srcW, boundH, srcH);
    assert w * srcH <= srcW * boundH;
    CancelWeak(w, boundW, srcH);
  }

  /** How far a w by h picture is from having the shape of a srcW by srcH one. */
  function Distortion(w: nat, h: nat, srcW: nat, srcH: nat): int {
    w * srcH - h * srcW
  }

  /** The geometry promised of a shrunk picture. */
  ghost predicate Shrunk(w: nat, h: nat, srcW: nat, srcH: nat, maxW: int, maxH: int) {
    && 1 <= w <= srcW && 1 <= h <= srcH
    && Fits(w, h, maxW, maxH)
    && (w == maxW || h == maxH)
    && -Max(srcW, srcH) < Distortion(w, h, srcW, srcH) < Max(srcW, srcH)
  }

  lemma ShrunkToWidth(srcW: nat, srcH: nat, maxW: nat, maxH: int)
    requires srcH > 0 && 0 < maxW < srcW
    requires maxH <= 0 || Share(srcH, maxW, srcW) <= maxH
    ensures var h := Share(srcH, maxW, srcW); Shrunk(maxW, if h == 0 then 1 else h, srcW, srcH, maxW, maxH)
  {
    Proportional(srcW, srcH, maxW);
    assert 1 * srcW == srcW;
  }

  lemma ShrunkToHeight(srcW: nat, srcH: nat, maxW: int, maxH: nat)
    requires srcW > 0 && 0 < maxH < srcH
    requires maxW <= 0 || Share(srcW, maxH, srcH) <= maxW
    ensures var w := Share(srcW, maxH, srcH); Shrunk(if w == 0 then 1 else w, maxH, srcW, srcH, maxW, maxH)
  {
    Proportional(srcH, srcW, maxH);
    assert 1 * srcH == srcH;
  }

  /**
   A picture that exceeds a bound is shrunk to one that has no empty side, fits, meets a
   set bound exactly and keeps the shape to within one row or column of the source.
   */
  lemma Geometry(srcW: nat, srcH: nat, maxW: int, maxH: int)
    requires srcW > 0 && srcH > 0 && !Fits(srcW, srcH, maxW, maxH)
    ensures var (w, h) := FitDims(srcW, srcH, maxW, maxH); Shrunk(w, h, srcW, srcH, maxW, maxH)
  {
    if 0 < maxW < srcW {
      if maxH > 0 && Share(srcH, maxW, srcW) > maxH {
        SecondStep(srcW, srcH, maxW, maxH);
        ShrunkToHeight(srcW, srcH, maxW, maxH);
      } else {
        ShrunkToWidth(srcW, srcH, maxW, maxH);
        Proportional(srcW, srcH, maxW);
      }
    } else {
      Proportional(srcH, srcW, maxH);
      ShrunkToHeight(srcW, srcH, maxW, maxH);
    }
  }

  /**
   The same in terms of the numbers alone. A picture within both set bounds keeps its size;
   any other comes within them, meets one exactly, and keeps its shape to within one row or
   column.
   */
  lemma FittedSize(srcW: nat, srcH: nat, maxW: int, maxH: int)
    requires srcW > 0 && srcH > 0
    ensures var (w, h) := FitDims(srcW, srcH, maxW, maxH);
      var larger := if srcW > srcH then srcW else srcH;
      if (maxW > 0 && srcW > maxW) || (maxH > 0 && srcH > maxH)
      then
        && 1 <= w <= srcW && 1 <= h <= srcH && (maxW > 0 ==> w <= maxW) && (maxH > 0 ==> h <= maxH)
        && ((maxW > 0 && w == maxW) || (maxH > 0 && h == maxH))
        && -larger < w * srcH - h * srcW < larger
      else w == srcW && h == srcH
  {
    if !Fits(srcW, srcH, maxW, maxH) {
      Geometry(srcW, srcH, maxW, maxH);
    }
  }

  /** What was fitted once is left alone the second time. */
  lemma FittingIsIdempotent(srcW: nat, srcH: nat, maxW: int, maxH: int)
    requires srcW > 0 && srcH > 0
    ensures var (w, h) := FitDims(srcW, srcH, maxW, maxH); FitDims(w, h, maxW, maxH) == (w, h)
  {
    if !Fits(srcW, srcH, maxW, maxH) {
      Geometry(srcW, srcH, maxW, maxH);
    }
  }

  // ---- Sampling ----

  function Lerp(a: real, b: real, t: real): real {
    a + (b - a) * t
  }

  function Clamp(v: int, lo: int, hi: int): (r: int)
    requires lo <= hi
    ensures lo <= r <= hi && (lo <= v <= hi ==> r == v)
  {
    if v < lo then lo else if v > hi then hi else v
  }

  /** The source coordinate of column (or row) d when `src` of them are mapped to `dst`. */
  function SourceAt(d: nat, src: nat, dst: nat): real
    requires dst > 0
  {
    d as real * src as real / dst as real
  }

  function Low(d: nat, src: nat, dst: nat): int
    requires dst > 0
  {
    Truncate(SourceAt(d, src, dst))
  }

  function High(d: nat, src: nat, dst: nat): int
    requires dst > 0
  {
    var x1 := Low(d, src, dst) + 1;
    if x1 >= src then src - 1 else x1
  }

  function Fraction(d: nat, src: nat, dst: nat): real
    requires dst > 0
  {
    SourceAt(d, src, dst) - Low(d, src, dst) as real
  }

  /** The pixel at a position; outside the picture it is transparent black. */
  function At(src: array2<Pixel>, x: int, y: int): Pixel
    reads src
  {
    if 0 <= x < src.Length1 && 0 <= y < src.Length0 then src[y, x] else Pixel(0, 0, 0, 0)
  }

  function Bilinear(c00: Channel, c10: Channel, c01: Channel, c11: Channel, tx: real, ty: real): real {
    Lerp(Lerp(c00 as real, c10 as real, tx), Lerp(c01 as real, c11 as real, tx), ty)
  }

  function Blend(c00: Channel, c10: Channel, c01: Channel, c11: Channel, tx: real, ty: real): Channel {
    Clamp(Truncate(Bilinear(c00, c10, c01, c11, tx, ty) + 0.5), 0, 255)
  }

  function BlendPixels(p00: Pixel, p10: Pixel, p01: Pixel, p11: Pixel, tx: real, ty: real): Pixel {
    Pixel(Blend(p00.r, p10.r, p01.r, p11.r, tx, ty),
          Blend(p00.g, p10.g, p01.g, p11.g, tx, ty),
          Blend(p00.b, p10.b, p01.b, p11.b, tx, ty),
          Blend(p00.a, p10.a, p01.a, p11.a, tx, ty))
  }

  /** The pixel of a dstW by dstH scaling of src at column dx, row dy. */
  function Sampled(src: array2<Pixel>, dstW: nat, dstH: nat, dx: nat, dy: nat): Pixel
    requires dstW > 0 && dstH > 0
    reads src
  {
    var w, h := src.Length1, src.Length0;
    var x0, x1, y0, y1 := Low(dx, w, dstW), High(dx, w, dstW), Low(dy, h, dstH), High(dy, h, dstH);
    BlendPixels(At(src, x0, y0), At(src, x1, y0), At(src, x0, y1), At(src, x1, y1),
                Fraction(dx, w, dstW), Fraction(dy, h, dstH))
  }

  lemma QuotientBounds(num: real, den: real, bound: real)
    requires den > 0.0 && 0.0 <= num < den * bound
    ensures 0.0 <= num / den < bound
  {
    assert num == num / den * den;
    Below(num / den, bound, den);
    NotBelowZero(num / den, den);
  }

  lemma Below(q: real, bound: real, den: real)
    requires den > 0.0 && q * den < bound * den
    ensures q < bound
  {
  }

  lemma NotBelowZero(q: real, den: real)
    requires den > 0.0 && q * den >= 0.0
    ensures q >= 0.0
  {
  }

  lemma ProductBelow(d: nat, src: nat, dst: nat)
    requires d < dst && src > 0
    ensures 0.0 <= d as real * src as real < dst as real * src as real
  {
    assert d * src < dst * src;
  }

  /** Every coordinate read lies in the picture, the two are at most one apart, and the fraction lies in [0, 1). */
  lemma ReadsInRange(d: nat, src: nat, dst: nat)
    requires d < dst && src > 0
    ensures 0 <= Low(d, src, dst) <= High(d, src, dst) < src
    ensures High(d, src, dst) <= Low(d, src, dst) + 1
    ensures 0.0 <= Fraction(d, src, dst) < 1.0
  {
    SourceInRange(d, src, dst);
    TruncateInRange(SourceAt(d, src, dst), src);
  }

  lemma SourceInRange(d: nat, src: nat, dst: nat)
    requires d < dst && src > 0
    ensures 0.0 <= SourceAt(d, src, dst) < src as real
  {
    ProductBelow(d, src, dst);
    QuotientBounds(d as real * src as real, dst as real, src as real);
  }

  lemma TruncateInRange(x: real, n: nat)
    requires 0.0 <= x < n as real
    ensures 0 <= Truncate(x) < n && 0.0 <= x - Truncate(x) as real < 1.0
  {
  }

  function Weighted(x: real, t: real): real {
    x * t
  }

  lemma Weights(x: real, y: real, t: real)
    requires x <= y && t >= 0.0
    ensures Weighted(x, t) <= Weighted(y, t)
  {
  }

  lemma LerpWeights(a: real, b: real, t: real)
    ensures Lerp(a, b, t) == Weighted(a, 1.0 - t) + Weighted(b, t)
  {
    assert a + (b - a) * t == a * (1.0 - t) + b * t;
  }

  lemma LerpBetween(a: real, b: real, t: real, lo: real, hi: real)
    requires lo <= a <= hi && lo <= b <= hi && 0.0 <= t <= 1.0
    ensures lo <= Lerp(a, b, t) <= hi
  {
    LerpMonotone(lo, lo, a, b, t);
    LerpMonotone(a, b, hi, hi, t);
    assert Lerp(lo, lo, t) == lo && Lerp(hi, hi, t) == hi;
  }

  lemma RoundedBetween(v: real, lo: int, hi: int)
    requires 0 <= lo && lo as real <= v <= hi as real
    ensures lo <= Truncate(v + 0.5) <= hi
    ensures -0.5 <= Truncate(v + 0.5) as real - v <= 0.5
  {
  }

  /**
   A blended channel is a nearest integer to the exact value, and lies between its least and
   greatest sample: the clamp never acts.
   */
  lemma BlendBetween(c00: Channel, c10: Channel, c01: Channel, c11: Channel, tx: real, ty: real)
    requires 0.0 <= tx <= 1.0 && 0.0 <= ty <= 1.0
    ensures var v := Bilinear(c00, c10, c01, c11, tx, ty);
      && Blend(c00, c10, c01, c11, tx, ty) == Truncate(v + 0.5)
      && -0.5 <= Truncate(v + 0.5) as real - v <= 0.5
    ensures Min(Min(c00, c10), Min(c01, c11)) <= Blend(c00, c10, c01, c11, tx, ty) <= Max(Max(c00, c10), Max(c01, c11))
  {
    var lo := Min(Min(c00, c10), Min(c01, c11));
    var hi := Max(Max(c00, c10), Max(c01, c11));
    LerpBetween(c00 as real, c10 as real, tx, lo as real, hi as real);
    LerpBetween(c01 as real, c11 as real, tx, lo as real, hi as real);
    LerpBetween(Lerp(c00 as real, c10 as real, tx), Lerp(c01 as real, c11 as real, tx), ty, lo as real, hi as real);
    RoundedBetween(Bilinear(c00, c10, c01, c11, tx, ty), lo, hi);
  }

  /** One channel of a pixel, selected by name. */
  datatype Select = Red | Green | Blue | Alpha

  function Get(p: Pixel, s: Select): Channel {
    match s
    case Red => p.r
    case Green => p.g
    case Blue => p.b
    case Alpha => p.a
  }

  /** Every channel of the picture lies between lo and hi. */
  ghost predicate Within(src: array2<Pixel>, s: Select, lo: int, hi: int)
    reads src
  {
    forall x, y | 0 <= x < src.Length1 && 0 <= y < src.Length0 :: lo <= Get(src[y, x], s) <= hi
  }

  /** Scaling stays within whatever range the channels of the source stay in. */
  lemma SampledWithin(src: array2<Pixel>, dstW: nat, dstH: nat, dx: nat, dy: nat, s: Select, lo: int, hi: int)
    requires src.Length0 > 0 && src.Length1 > 0 && dx < dstW && dy < dstH
    requires Within(src, s, lo, hi)
    ensures lo <= Get(Sampled(src, dstW, dstH, dx, dy), s) <= hi
  {
    var w, h := src.Length1, src.Length0;
    ReadsInRange(dx, w, dstW);
    ReadsInRange(dy, h, dstH);
    var x0, x1, y0, y1 := Low(dx, w, dstW), High(dx, w, dstW), Low(dy, h, dstH), High(dy, h, dstH);
    BlendBetween(Get(At(src, x0, y0), s), Get(At(src, x1, y0), s), Get(At(src, x0, y1), s), Get(At(src, x1, y1), s),
                 Fraction(dx, w, dstW), Fraction(dy, h, dstH));
  }

  /** A picture of one colour scales to the same colour. */
  lemma ConstantStaysConstant(src: array2<Pixel>, p: Pixel, dstW: nat, dstH: nat, dx: nat, dy: nat)
    requires src.Length0 > 0 && src.Length1 > 0 && dx < dstW && dy < dstH
    requires forall x, y | 0 <= x < src.Length1 && 0 <= y < src.Length0 :: src[y, x] == p
    ensures Sampled(src, dstW, dstH, dx, dy) == p
  {
    SampledWithin(src, dstW, dstH, dx, dy, Red, p.r, p.r);
    SampledWithin(src, dstW, dstH, dx, dy, Green, p.g, p.g);
    SampledWithin(src, dstW, dstH, dx, dy, Blue, p.b, p.b);
    SampledWithin(src, dstW, dstH, dx, dy, Alpha, p.a, p.a);
  }

  lemma DivideBack(x: real, n: real)
    requires n != 0.0
    ensures x * n / n == x
  {
  }

  lemma SameSizeCoordinate(d: nat, n: nat)
    requires d < n
    ensures SourceAt(d, n, n) == d as real && Low(d, n, n) == d && Fraction(d, n, n) == 0.0
  {
    DivideBack(d as real, n as real);
  }

  lemma BlendAtCorner(c00: Channel, c10: Channel, c01: Channel, c11: Channel)
    ensures Blend(c00, c10, c01, c11, 0.0, 0.0) == c00
  {
  }

  /** Scaling to the same size changes no pixel. */
  lemma SameSizeIsIdentity(src: array2<Pixel>, dx: nat, dy: nat)
    requires dx < src.Length1 && dy < src.Length0
    ensures Sampled(src, src.Length1, src.Length0, dx, dy) == src[dy, dx]
  {
    SameSizeCoordinate(dx, src.Length1);
    SameSizeCoordinate(dy, src.Length0);
    var x1, y1 := High(dx, src.Length1, src.Length1), High(dy, src.Length0, src.Length0);
    var p00, p10, p01, p11 := At(src, dx, dy), At(src, x1, dy), At(src, dx, y1), At(src, x1, y1);
    BlendAtCorner(p00.r, p10.r, p01.r, p11.r);
    BlendAtCorner(p00.g, p10.g, p01.g, p11.g);
    BlendAtCorner(p00.b, p10.b, p01.b, p11.b);
    BlendAtCorner(p00.a, p10.a, p01.a, p11.a);
  }

  lemma LerpMonotone(a: real, b: real, c: real, d: real, t: real)
    requires a <= c && b <= d && 0.0 <= t <= 1.0
    ensures Lerp(a, b, t) <= Lerp(c, d, t)
  {
    LerpWeights(a, b, t);
    LerpWeights(c, d, t);
    Weights(a, c, 1.0 - t);
    Weights(b, d, t);
  }

  lemma TruncateMonotone(x: real, y: real)
    requires x <= y
    ensures Truncate(x) <= Truncate(y)
  {
  }

  /** A picture that is nowhere darker in a channel scales to one that is nowhere darker in it. */
  lemma ScalingKeepsOrder(src: array2<Pixel>, brighter: array2<Pixel>, dstW: nat, dstH: nat, dx: nat, dy: nat,
                          s: Select)
    requires src.Length0 == brighter.Length0 > 0 && src.Length1 == brighter.Length1 > 0 && dx < dstW && dy < dstH
    requires forall x, y | 0 <= x < src.Length1 && 0 <= y < src.Length0 :: Get(src[y, x], s) <= Get(brighter[y, x], s)
    ensures Get(Sampled(src, dstW, dstH, dx, dy), s) <= Get(Sampled(brighter, dstW, dstH, dx, dy), s)
  {
    var w, h := src.Length1, src.Length0;
    ReadsInRange(dx, w, dstW);
    ReadsInRange(dy, h, dstH);
    var x0, x1, y0, y1 := Low(dx, w, dstW), High(dx, w, dstW), Low(dy, h, dstH), High(dy, h, dstH);
    BlendMonotone(Get(At(src, x0, y0), s), Get(At(src, x1, y0), s), Get(At(src, x0, y1), s), Get(At(src, x1, y1), s),
                  Get(At(brighter, x0, y0), s), Get(At(brighter, x1, y0), s),
                  Get(At(brighter, x0, y1), s), Get(At(brighter, x1, y1), s),
                  Fraction(dx, w, dstW), Fraction(dy, h, dstH));
  }

  lemma BlendMonotone(a00: Channel, a10: Channel, a01: Channel, a11: Channel,
                      b00: Channel, b10: Channel, b01: Channel, b11: Channel, tx: real, ty: real)
    requires a00 <= b00 && a10 <= b10 && a01 <= b01 && a11 <= b11
    requires 0.0 <= tx <= 1.0 && 0.0 <= ty <= 1.0
    ensures Blend(a00, a10, a01, a11, tx, ty) <= Blend(b00, b10, b01, b11, tx, ty)
  {
    LerpMonotone(a00 as real, a10 as real, b00 as real, b10 as real, tx);
    LerpMonotone(a01 as real, a11 as real, b01 as real, b11 as real, tx);
    LerpMonotone(Lerp(a00 as real, a10 as real, tx), Lerp(a01 as real, a11 as real, tx),
                 Lerp(b00 as real, b10 as real, tx), Lerp(b01 as real, b11 as real, tx), ty);
    TruncateMonotone(Bilinear(a00, a10, a01, a11, tx, ty) + 0.5, Bilinear(b00, b10, b01, b11, tx, ty) + 0.5);
  }

  /** The mean of four values, each weighted by the area of the opposite corner of a unit square. */
  function AreaMean(c00: real, c10: real, c01: real, c11: real, tx: real, ty: real): real {
    c00 * ((1.0 - tx) * (1.0 - ty)) + c10 * (tx * (1.0 - ty)) + c01 * ((1.0 - tx) * ty) + c11 * (tx * ty)
  }

  /** The interpolated value is that mean of the four samples, and the weights add up to 1. */
  lemma WeightsAreAreas(c00: Channel, c10: Channel, c01: Channel, c11: Channel, tx: real, ty: real)
    ensures Bilinear(c00, c10, c01, c11, tx, ty)
            == AreaMean(c00 as real, c10 as real, c01 as real, c11 as real, tx, ty)
    ensures (1.0 - tx) * (1.0 - ty) + tx * (1.0 - ty) + (1.0 - tx) * ty + tx * ty == 1.0
  {
    var a, b := Lerp(c00 as real, c10 as real, tx), Lerp(c01 as real, c11 as real, tx);
    Split(c00 as real, c10 as real, tx);
    Split(c01 as real, c11 as real, tx);
    Split(a, b, ty);
    Spread(c00 as real, c10 as real, tx, 1.0 - ty);
    Spread(c01 as real, c11 as real, tx, ty);
    assert (1.0 - tx) * (1.0 - ty) + tx * (1.0 - ty) == 1.0 - ty;
    assert (1.0 - tx) * ty + tx * ty == ty;
  }

  lemma Split(a: real, b: real, t: real)
    ensures Lerp(a, b, t) == a * (1.0 - t) + b * t
  {
  }

  lemma Spread(a: real, b: real, t: real, w: real)
    ensures (a * (1.0 - t) + b * t) * w == a * ((1.0 - t) * w) + b * (t * w)
  {
  }

  /**
   A sample of any picture: the four pixels around the source coordinate, the last column or
   row standing in for the next one, each weighted by how near the coordinate is, rounded to
   the nearest.
   */
  lemma SampleMeaning(src: array2<Pixel>, s: Select, dstW: nat, dstH: nat, dx: nat, dy: nat,
                      x: nat, y: nat, tx: real, ty: real)
    requires dx < dstW && dy < dstH && x < src.Length1 && y < src.Length0 && 0.0 <= tx < 1.0 && 0.0 <= ty < 1.0
    requires (x as real + tx) * dstW as real == dx as real * src.Length1 as real
    requires (y as real + ty) * dstH as real == dy as real * src.Length0 as real
    ensures var x1, y1 := Min(x + 1, src.Length1 - 1), Min(y + 1, src.Length0 - 1);
      var v := AreaMean(Get(src[y, x], s) as real, Get(src[y, x1], s) as real,
                        Get(src[y1, x], s) as real, Get(src[y1, x1], s) as real, tx, ty);
      var c := Get(Sampled(src, dstW, dstH, dx, dy), s);
      -0.5 <= c as real - v <= 0.5 && c == (v + 0.5).Floor
  {
    CoordinateIs(dx, src.Length1, dstW, x, tx);
    CoordinateIs(dy, src.Length0, dstH, y, ty);
    var x1, y1 := Min(x + 1, src.Length1 - 1), Min(y + 1, src.Length0 - 1);
    var c00, c10, c01, c11 := Get(src[y, x], s), Get(src[y, x1], s), Get(src[y1, x], s), Get(src[y1, x1], s);
    SampledAt(src, dstW, dstH, dx, dy, s, x, y);
    WeightsAreAreas(c00, c10, c01, c11, tx, ty);
    BlendBetween(c00, c10, c01, c11, tx, ty);
    NotNegative(c00, c10, c01, c11, tx, ty);
  }

  lemma NotNegative(c00: Channel, c10: Channel, c01: Channel, c11: Channel, tx: real, ty: real)
    requires 0.0 <= tx <= 1.0 && 0.0 <= ty <= 1.0
    ensures Bilinear(c00, c10, c01, c11, tx, ty) >= 0.0
  {
    LerpBetween(c00 as real, c10 as real, tx, 0.0, 255.0);
    LerpBetween(c01 as real, c11 as real, tx, 0.0, 255.0);
    LerpBetween(Lerp(c00 as real, c10 as real, tx), Lerp(c01 as real, c11 as real, tx), ty, 0.0, 255.0);
  }

  /** The whole and fractional part of a source coordinate, from the proportion alone. */
  lemma CoordinateIs(d: nat, src: nat, dst: nat, x: nat, t: real)
    requires d < dst && x < src && 0.0 <= t < 1.0 && (x as real + t) * dst as real == d as real * src as real
    ensures Low(d, src, dst) == x && Fraction(d, src, dst) == t && High(d, src, dst) == Min(x + 1, src - 1)
  {
    DivideBack(x as real + t, dst as real);
    assert SourceAt(d, src, dst) == x as real + t;
    assert (x as real + t).Floor == x;
  }

  lemma SampledAt(src: array2<Pixel>, dstW: nat, dstH: nat, dx: nat, dy: nat, s: Select, x: nat, y: nat)
    requires dx < dstW && dy < dstH && x < src.Length1 && y < src.Length0
    requires x == Low(dx, src.Length1, dstW) && High(dx, src.Length1, dstW) == Min(x + 1, src.Length1 - 1)
    requires y == Low(dy, src.Length0, dstH) && High(dy, src.Length0, dstH) == Min(y + 1, src.Length0 - 1)
    ensures var x1, y1 := Min(x + 1, src.Length1 - 1), Min(y + 1, src.Length0 - 1);
      Get(Sampled(src, dstW, dstH, dx, dy), s)
      == Blend(Get(src[y, x], s), Get(src[y, x1], s), Get(src[y1, x], s), Get(src[y1, x1], s),
               Fraction(dx, src.Length1, dstW), Fraction(dy, src.Length0, dstH))
  {
  }

  // ---- Gradients ----

  /** A channel that changes by gx from each column to the next and by gy from each row to the next. */
  ghost predicate Gradient(src: array2<Pixel>, s: Select, base: int, gx: int, gy: int)
    reads src
  {
    forall x, y | 0 <= x < src.Length1 && 0 <= y < src.Length0 :: Get(src[y, x], s) == base + gx * x + gy * y
  }

  lemma LerpStep(a: real, g: real, t: real)
    ensures Lerp(a, a + g, t) == a + g * t
  {
  }

  lemma LerpShift(a: real, b: real, g: real, t: real)
    ensures Lerp(a + g, b + g, t) == Lerp(a, b, t) + g
  {
    assert (b + g) - (a + g) == b - a;
  }

  lemma BilinearOfGradient(c: real, gx: real, gy: real, tx: real, ty: real)
    ensures Lerp(Lerp(c, c + gx, tx), Lerp(c + gy, c + gx + gy, tx), ty) == c + gx * tx + gy * ty
  {
    LerpStep(c, gx, tx);
    LerpShift(c, c + gx, gy, tx);
    LerpStep(Lerp(c, c + gx, tx), gy, ty);
  }

  lemma FourOfGradient(src: array2<Pixel>, s: Select, base: int, gx: int, gy: int, x: nat, y: nat)
    requires Gradient(src, s, base, gx, gy) && x + 1 < src.Length1 && y + 1 < src.Length0
    ensures var c := Get(src[y, x], s);
      && c == base + gx * x + gy * y
      && Get(src[y, x + 1], s) == c + gx && Get(src[y + 1, x], s) == c + gy && Get(src[y + 1, x + 1], s) == c + gx + gy
  {
    assert gx * (x + 1) == gx * x + gx && gy * (y + 1) == gy * y + gy;
  }

  lemma MoveAlong(base: int, gx: int, gy: int, x: int, y: int, tx: real, ty: real)
    ensures (base + gx * x + gy * y) as real + gx as real * tx + gy as real * ty
            == base as real + gx as real * (x as real + tx) + gy as real * (y as real + ty)
  {
    assert (gx * x) as real == gx as real * x as real && (gy * y) as real == gy as real * y as real;
  }

  /** The value of a gradient at a position between the pixels. */
  function Along(base: int, gx: int, gy: int, px: real, py: real): real {
    base as real + gx as real * px + gy as real * py
  }

  lemma GradientBetween(base: int, gx: int, gy: int, x: int, y: int, tx: real, ty: real,
                        c00: Channel, c10: Channel, c01: Channel, c11: Channel)
    requires c00 == base + gx * x + gy * y && c10 == c00 + gx && c01 == c00 + gy && c11 == c00 + gx + gy
    ensures Bilinear(c00, c10, c01, c11, tx, ty) == Along(base, gx, gy, x as real + tx, y as real + ty)
  {
    BilinearOfGradient(c00 as real, gx as real, gy as real, tx, ty);
    MoveAlong(base, gx, gy, x, y, tx, ty);
  }

  lemma LowAndFraction(d: nat, src: nat, dst: nat)
    requires dst > 0
    ensures Low(d, src, dst) as real + Fraction(d, src, dst) == SourceAt(d, src, dst)
  {
  }

  lemma SampledInside(src: array2<Pixel>, dstW: nat, dstH: nat, dx: nat, dy: nat, s: Select, x: nat, y: nat)
    requires dx < dstW && dy < dstH && x + 1 < src.Length1 && y + 1 < src.Length0
    requires x == Low(dx, src.Length1, dstW) && y == Low(dy, src.Length0, dstH)
    ensures Get(Sampled(src, dstW, dstH, dx, dy), s)
            == Blend(Get(src[y, x], s), Get(src[y, x + 1], s), Get(src[y + 1, x], s), Get(src[y + 1, x + 1], s),
                     Fraction(dx, src.Length1, dstW), Fraction(dy, src.Length0, dstH))
  {
  }

  /**
   Away from the last column and row, scaling takes a gradient exactly where it is at the
   source coordinate, rounded to the nearest: the weights are those of the position.
   */
  lemma GradientIsReproduced(src: array2<Pixel>, s: Select, base: int, gx: int, gy: int,
                             dstW: nat, dstH: nat, dx: nat, dy: nat)
    requires src.Length0 > 0 && src.Length1 > 0 && dx < dstW && dy < dstH
    requires Gradient(src, s, base, gx, gy)
    requires Low(dx, src.Length1, dstW) + 1 < src.Length1 && Low(dy, src.Length0, dstH) + 1 < src.Length0
    ensures Get(Sampled(src, dstW, dstH, dx, dy), s)
            == Truncate(Along(base, gx, gy, SourceAt(dx, src.Length1, dstW), SourceAt(dy, src.Length0, dstH)) + 0.5)
  {
    var w, h := src.Length1, src.Length0;
    ReadsInRange(dx, w, dstW);
    ReadsInRange(dy, h, dstH);
    var x, y, tx, ty := Low(dx, w, dstW), Low(dy, h, dstH), Fraction(dx, w, dstW), Fraction(dy, h, dstH);
    FourOfGradient(src, s, base, gx, gy, x, y);
    SampledInside(src, dstW, dstH, dx, dy, s, x, y);
    var c00, c10 := Get(src[y, x], s), Get(src[y, x + 1], s);
    var c01, c11 := Get(src[y + 1, x], s), Get(src[y + 1, x + 1], s);
    GradientBetween(base, gx, gy, x, y, tx, ty, c00, c10, c01, c11);
    LowAndFraction(dx, w, dstW);
    LowAndFraction(dy, h, dstH);
    BlendBetween(c00, c10, c01, c11, tx, ty);
  }
}
