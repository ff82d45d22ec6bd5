/** The screen streamer as an object, with its in-place scaling loop. */
module StreamerObjects {
  import opened ScaleModel
  import QualityModel

  method ScaleBilinear(src: array2<Pixel>, dstW: nat, dstH: nat) returns (dst: array2<Pixel>)
    requires dstW > 0 && dstH > 0
    ensures fresh(dst) && dst.Length1 == dstW && dst.Length0 == dstH
    ensures forall x, y | 0 <= x < dstW && 0 <= y < dstH :: dst[y, x] == Sampled(src, dstW, dstH, x, y)
  {
    dst := new Pixel[dstH, dstW]((y, x) => Pixel(0, 0, 0, 0));
    for dy := 0 to dstH
      invariant forall x, y | 0 <= x < dstW && 0 <= y < dy :: dst[y, x] == Sampled(src, dstW, dstH, x, y)
    {
      for dx := 0 to dstW
        invariant forall x, y | 0 <= x < dstW && 0 <= y < dy :: dst[y, x] == Sampled(src, dstW, dstH, x, y)
        invariant forall x | 0 <= x < dx :: dst[dy, x] == Sampled(src, dstW, dstH, x, dy)
      {
        var pixel := SamplePixel(src, dstW, dstH, dx, dy);
        dst[dy, dx] := pixel;
      }
    }
  }

  method SamplePixel(src: array2<Pixel>, dstW: nat, dstH: nat, dx: nat, dy: nat) returns (p: Pixel)
    requires dstW > 0 && dstH > 0
    ensures p == Sampled(src, dstW, dstH, dx, dy)
  {
    var srcW, srcH := src.Length1, src.Length0;
    var x0, y0 := Low(dx, srcW, dstW), Low(dy, srcH, dstH);
    var x1, y1 := x0 + 1, y0 + 1;
    if x1 >= srcW {
      x1 := srcW - 1;
    }
    if y1 >= srcH {
      y1 := srcH - 1;
    }
    var xFrac, yFrac := Fraction(dx, srcW, dstW), Fraction(dy, srcH, dstH);
    p := BlendPixels(At(src, x0, y0), At(src, x1, y0), At(src, x0, y1), At(src, x1, y1), xFrac, yFrac);
  }

  lemma NoHeight(srcW: nat, srcH: nat, maxW: nat)
    requires srcW > 0
    ensures Share(srcH, maxW, srcW) > 0 ==> srcH > 0
  {
    assert srcH == 0 ==> srcH * maxW == 0;
  }

  class Streamer {
    var cfg: QualityModel.Config
    var frameTimes: seq<nat>
    var lastFrameTime: nat
    var framesCaptured: nat
    var framesSkipped: nat
    var totalBytes: nat

    ghost predicate Valid()
      reads this
    {
      QualityModel.Normal(cfg) && |frameTimes| <= QualityModel.WINDOW
    }

    function Contents(): QualityModel.StreamState
      reads this
    {
      QualityModel.StreamState(cfg, frameTimes)
    }

    constructor (config: QualityModel.Config, now: nat)
      ensures Valid() && lastFrameTime == now
      ensures Contents() == QualityModel.StreamState(QualityModel.Normalize(config), [])
      ensures framesCaptured == framesSkipped == totalBytes == 0
    {
      var c := config;
      if c.fps <= 0 {
        c := c.(fps := 15);
      }
      if c.quality <= 0 {
        c := c.(quality := 60);
      }
      if c.minQuality <= 0 {
        c := c.(minQuality := 20);
      }
      if c.maxQuality <= 0 {
        c := c.(maxQuality := 90);
      }
      if c.maxQuality < c.minQuality {
        c := c.(maxQuality := c.minQuality + 10);
      }
      if c.quality < c.minQuality {
        c := c.(quality := c.minQuality);
      }
      if c.quality > c.maxQuality {
        c := c.(quality := c.maxQuality);
      }
      QualityModel.NormalizeIsNormal(config);
      cfg, frameTimes, lastFrameTime := c, [], now;
      framesCaptured, framesSkipped, totalBytes := 0, 0, 0;
    }

    /** The size of a picture that is to be shrunk. */
    method ScaledSize(srcW: nat, srcH: nat) returns (dstW: nat, dstH: nat)
      requires !Fits(srcW, srcH, cfg.maxWidth, cfg.maxHeight)
      ensures (dstW, dstH) == FitDims(srcW, srcH, cfg.maxWidth, cfg.maxHeight)
      ensures dstW >= 1 && dstH >= 1
    {
      var maxW, maxH := cfg.maxWidth, cfg.maxHeight;
      if maxW <= 0 {
        maxW := srcW;
      }
      if maxH <= 0 {
        maxH := srcH;
      }
      dstW, dstH := srcW, srcH;
      if srcW > maxW {
        dstW := maxW;
        dstH := Share(srcH, maxW, srcW);
        NoHeight(srcW, srcH, maxW);
      }
      if dstH > maxH {
        dstH := maxH;
        dstW := Share(srcW, maxH, srcH);
      }
      if dstW <= 0 {
        dstW := 1;
      }
      if dstH <= 0 {
        dstH := 1;
      }
    }

    /** The picture itself when it fits, and a scaled copy when it does not. */
    method Downscale(src: array2<Pixel>) returns (dst: array2<Pixel>)
      ensures (dst.Length1, dst.Length0) == FitDims(src.Length1, src.Length0, cfg.maxWidth, cfg.maxHeight)
      ensures dst == src || fresh(dst)
      ensures dst == src <==> (dst.Length1, dst.Length0) == (src.Length1, src.Length0)
      ensures dst != src ==>
                forall x, y | 0 <= x < dst.Length1 && 0 <= y < dst.Length0 ::
                  dst[y, x] == Sampled(src, dst.Length1, dst.Length0, x, y)
    {
      var srcW, srcH := src.Length1, src.Length0;
      if (cfg.maxWidth <= 0 || srcW <= cfg.maxWidth) && (cfg.maxHeight <= 0 || srcH <= cfg.maxHeight) {
        return src;
      }
      var dstW, dstH := ScaledSize(srcW, srcH);
      if dstW == srcW && dstH == srcH {
        return src;
      }
      dst := ScaleBilinear(src, dstW, dstH);
    }

    method AverageFrameTime() returns (average: nat)
      requires frameTimes != []
      ensures average == QualityModel.Average(frameTimes)
    {
      var total: nat := 0;
      for i := 0 to |frameTimes|
        invariant total == QualityModel.Sum(frameTimes[..i])
      {
        assert frameTimes[..i + 1][..i] == frameTimes[..i];
        total := total + frameTimes[i];
      }
      assert frameTimes[..|frameTimes|] == frameTimes;
      average := total / |frameTimes|;
    }

    method ComputeAdaptiveQuality() returns (quality: int)
      requires Valid()
      modifies this`cfg
      ensures Valid() && cfg == QualityModel.Evaluate(old(cfg), frameTimes) && quality == cfg.quality
    {
      if !cfg.adaptive || |frameTimes| == 0 {
        return cfg.quality;
      }
      var average := AverageFrameTime();
      var budget := QualityModel.Interval(cfg.fps);
      quality := cfg.quality;
      if QualityModel.Over(average, 85, budget) {
        quality := quality - 5;
      } else if QualityModel.Under(average, 40, budget) && quality < cfg.maxQuality {
        quality := quality + 5;
      } else if QualityModel.Under(average, 60, budget) && quality < cfg.maxQuality {
        quality := quality + 2;
      }
      if quality < cfg.minQuality {
        quality := cfg.minQuality;
      }
      if quality > cfg.maxQuality {
        quality := cfg.maxQuality;
      }
      cfg := cfg.(quality := quality);
    }

    /**
     One tick: `captured` is the picture the display gave, if any, and `encodedLength` the
     size of its encoding, if that succeeded. A frame is handed on with the quality it was encoded at.
     */
    method CaptureAndSend(captured: array2?<Pixel>, encodedLength: int, now: nat)
      returns (frame: array2?<Pixel>, quality: int)
      requires Valid() && lastFrameTime <= now
      modifies this
      ensures Valid()
      ensures Contents() == QualityModel.Step(old(Contents()),
                                               if captured == null then QualityModel.CaptureFailed
                                               else if encodedLength < 0 then QualityModel.EncodeFailed
                                               else QualityModel.Sent(now - old(lastFrameTime)))
      ensures frame != null <==> captured != null && encodedLength >= 0
      ensures frame != null ==>
                && quality == cfg.quality && lastFrameTime == now
                && (frame.Length1, frame.Length0)
                   == FitDims(captured.Length1, captured.Length0, cfg.maxWidth, cfg.maxHeight)
                && framesCaptured == old(framesCaptured) + 1 && framesSkipped == old(framesSkipped)
                && totalBytes == old(totalBytes) + encodedLength
      ensures frame == null ==>
                && lastFrameTime == old(lastFrameTime) && totalBytes == old(totalBytes)
                && framesCaptured == old(framesCaptured) && framesSkipped == old(framesSkipped) + 1
    {
      quality := cfg.quality;
      if captured == null {
        framesSkipped := framesSkipped + 1;
        return null, quality;
      }
      var picture := captured;
      if cfg.maxWidth > 0 || cfg.maxHeight > 0 {
        picture := Downscale(captured);
      }
      if cfg.adaptive {
        quality := ComputeAdaptiveQuality();
      }
      if encodedLength < 0 {
        framesSkipped := framesSkipped + 1;
        return null, quality;
      }
      framesCaptured := framesCaptured + 1;
      totalBytes := totalBytes + encodedLength;
      var elapsed := now - lastFrameTime;
      lastFrameTime := now;
      frameTimes := frameTimes + [elapsed];
      if |frameTimes| > QualityModel.WINDOW {
        frameTimes := frameTimes[1..];
      }
      return picture, quality;
    }

    /** Asking for statistics evaluates the quality too. */
    method CurrentQuality() returns (quality: int)
      requires Valid()
      modifies this
      ensures Valid() && Contents() == QualityModel.Step(old(Contents()), QualityModel.Query) && quality == cfg.quality
      ensures unchanged(this`frameTimes, this`lastFrameTime, this`framesCaptured, this`framesSkipped, this`totalBytes)
    {
      quality := cfg.quality;
      if cfg.adaptive {
        quality := ComputeAdaptiveQuality();
      }
    }
  }
}
