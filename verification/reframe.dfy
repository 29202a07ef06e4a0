/** Reframing to a 9:16 canvas: the strategy choice and fallback of the newer
    bot's `convert_to_9_16_enhanced`, and the scale-axis choice of the older
    bot's `convert_to_9_16`. ffmpeg itself is opaque: an encode either
    succeeds or fails, and the model records which encodes were attempted. */
module Reframe {
  import opened Common

  /** The default `target_height` of both converters. */
  const TargetHeight: nat := 1920

  /** `int(target_height * 9 / 16)`: the canvas width that goes with a height. */
  function TargetWidth(th: nat): (tw: nat)
    ensures 16 * tw <= 9 * th < 16 * (tw + 1)
    ensures th == TargetHeight ==> tw == 1080
  {
    th * 9 / 16
  }

  datatype Strategy = CropCenter | PadLetterbox | BlurredOverlay

  /** Source frame size as ffprobe reports it. */
  datatype Dimensions = Dimensions(width: nat, height: nat)

  /** The branch on `aspect_ratio = width / height`, with the thresholds 1.7
      and 0.7 compared exactly by cross-multiplication. */
  function SelectStrategy(w: nat, h: nat): Strategy
    requires h > 0
  {
    if 10 * w > 17 * h then CropCenter
    else if 10 * w < 7 * h then PadLetterbox
    else BlurredOverlay
  }

  lemma ScaleByPositive(x: real, c: real, h: real)
    requires h > 0.0
    ensures x > c <==> x * h > c * h
  {
    var p := (x - c) * h;
    assert x * h - c * h == p;
    if x > c {
      assert p > 0.0;
    } else if x < c {
      assert p < 0.0;
    } else {
      assert p == 0.0;
    }
  }

  /** Comparing two ratios is comparing the cross products. */
  lemma RatioAbove(w: nat, h: nat, a: nat, b: nat)
    requires h > 0 && b > 0
    ensures (w as real) / (h as real) > (a as real) / (b as real) <==> w * b > a * h
  {
    var x := (w as real) / (h as real);
    var y := (a as real) / (b as real);
    var hb := (h * b) as real;
    ScaleByPositive(x, y, hb);
    assert x * hb == (w * b) as real;
    assert y * hb == (a * h) as real;
  }

  /** The integer tests are exactly the ratio tests of the source: above 1.7
      crops, below 0.7 pads, and the closed band [0.7, 1.7] (both ends
      included) gets the blurred background. */
  lemma SelectStrategyByRatio(w: nat, h: nat)
    requires h > 0
    ensures var ratio := (w as real) / (h as real);
      && (SelectStrategy(w, h) == CropCenter <==> ratio > 1.7)
      && (SelectStrategy(w, h) == PadLetterbox <==> ratio < 0.7)
      && (SelectStrategy(w, h) == BlurredOverlay <==> 0.7 <= ratio <= 1.7)
  {
    RatioAbove(w, h, 17, 10);
    RatioAbove(7, 10, w, h);
    assert (17 as real) / (10 as real) == 1.7;
    assert (7 as real) / (10 as real) == 0.7;
  }

  /** The order CropCenter > BlurredOverlay > PadLetterbox follows the aspect
      ratio: a wider source never gets a "taller" strategy. */
  function Rank(s: Strategy): nat
  {
    match s
    case PadLetterbox => 0
    case BlurredOverlay => 1
    case CropCenter => 2
  }

  lemma SelectStrategyMonotone(w1: nat, h1: nat, w2: nat, h2: nat)
    requires h1 > 0 && h2 > 0
    requires w1 * h2 <= w2 * h1
    ensures Rank(SelectStrategy(w1, h1)) <= Rank(SelectStrategy(w2, h2))
  {
    MulMonotone(w1 * h2, w2 * h1, 10);
    assert 10 * (w1 * h2) == 10 * w1 * h2 && 10 * (w2 * h1) == 10 * w2 * h1;
    assert 17 * h1 * h2 == 17 * h2 * h1 && 7 * h1 * h2 == 7 * h2 * h1;
    if SelectStrategy(w1, h1) == CropCenter {
      ScaleCompare(17 * h1, 10 * w1, h2);
      ScaleCompare(17 * h2, 10 * w2, h1);
    }
    if SelectStrategy(w2, h2) == PadLetterbox {
      ScaleCompare(10 * w2, 7 * h2, h1);
      ScaleCompare(10 * w1, 7 * h1, h2);
    }
  }

  /** 16:9 material (ratio 1.78) is above the 1.7 threshold and is cropped,
      although the source's comment on the last branch calls it the
      blurred-background case. */
  lemma WidescreenIsCropped()
    ensures SelectStrategy(1920, 1080) == CropCenter
    ensures SelectStrategy(1, 1) == BlurredOverlay
    ensures SelectStrategy(17, 10) == BlurredOverlay && SelectStrategy(7, 10) == BlurredOverlay
    ensures SelectStrategy(235, 100) == CropCenter
  {
  }

  /** The `-vf` chain of one ffmpeg encode: a strategy's filter or the
      simple scale-to-fit-and-pad filter, for a `width` x `height` canvas. */
  datatype Filter =
    | StrategyFilter(strategy: Strategy, width: nat, height: nat)
    | FitAndPad(width: nat, height: nat)
    | LegacyScalePad(scaled: Option<Dimensions>, width: nat, height: nat)

  datatype Encode = Encode(filter: Filter, input: string, output: string)

  /** The encodes attempted, in order, and whether the conversion returned
      (true) or raised (false). */
  datatype Conversion = Conversion(encodes: seq<Encode>, succeeded: bool)

  /** What the external tools do during one conversion: the dimension probe
      (`None` when ffprobe or the parsing of its output raises), and whether
      the strategy encode and the fallback encode exit successfully. */
  datatype ConvertTools = ConvertTools(dims: Option<Dimensions>, primaryOk: bool, fallbackOk: bool)

  /** The strategy encode is attempted only when the probe worked and the
      height is non-zero (`width / height` raises ZeroDivisionError otherwise). */
  predicate StrategyAttempted(t: ConvertTools)
  {
    t.dims.Some? && t.dims.value.height > 0
  }

  /** `convert_to_9_16_enhanced(input, output, th)`. Any exception in the
      enhanced path, the dimension probe included, runs the fallback encode on
      the same input and output; the fallback's own failure propagates. */
  function ConvertEnhanced(input: string, output: string, th: nat, t: ConvertTools): (c: Conversion)
    ensures 1 <= |c.encodes| <= 2
    ensures forall e :: e in c.encodes ==> e.input == input && e.output == output
    ensures StrategyAttempted(t) ==>
      c.encodes[0].filter == StrategyFilter(SelectStrategy(t.dims.value.width, t.dims.value.height), TargetWidth(th), th)
    ensures c.encodes[|c.encodes| - 1].filter == FitAndPad(TargetWidth(th), th)
      <==> !(StrategyAttempted(t) && t.primaryOk)
    ensures |c.encodes| == 2 <==> StrategyAttempted(t) && !t.primaryOk
    ensures c.succeeded <==> (StrategyAttempted(t) && t.primaryOk) || t.fallbackOk
  {
    var tw := TargetWidth(th);
    var fallback := Encode(FitAndPad(tw, th), input, output);
    if StrategyAttempted(t) then
      var d := t.dims.value;
      var first := Encode(StrategyFilter(SelectStrategy(d.width, d.height), tw, th), input, output);
      if t.primaryOk then Conversion([first], true)
      else Conversion([first, fallback], t.fallbackOk)
    else Conversion([fallback], t.fallbackOk)
  }

  datatype Axis = FitWidth | FitHeight

  /** The older bot's `if(gt(a, 9/16), ...)`: sources wider than 9:16 are
      scaled to the canvas width, the others to the canvas height. */
  function LegacyAxis(d: Dimensions): Axis
    requires d.height > 0
  {
    if 16 * d.width > 9 * d.height then FitWidth else FitHeight
  }

  lemma LegacyAxisByRatio(d: Dimensions)
    requires d.height > 0
    ensures LegacyAxis(d) == FitWidth <==> (d.width as real) / (d.height as real) > 0.5625
  {
    RatioAbove(d.width, d.height, 9, 16);
    assert (9 as real) / (16 as real) == 0.5625;
  }

  /** Frame size after the older bot's scale step, the free side keeping
      the aspect ratio and rounded down. */
  function LegacyScaledSize(d: Dimensions, th: nat): (s: Dimensions)
    requires d.width > 0 && d.height > 0
  {
    var tw := TargetWidth(th);
    if LegacyAxis(d) == FitWidth then Dimensions(tw, ScaleSide(d.height, tw, d.width))
    else Dimensions(ScaleSide(d.width, th, d.height), th)
  }

  /** `side * target / other`, rounded down. */
  function ScaleSide(side: nat, target: nat, other: nat): nat
    requires other > 0
  {
    (side * target) / other
  }

  lemma FitWidthHeightFits(w: nat, h: nat, th: nat, tw: nat)
    requires w > 0 && 16 * w > 9 * h && 16 * tw <= 9 * th
    ensures ScaleSide(h, tw, w) <= th
  {
    MulMonotone(16 * tw, 9 * th, h);
    assert 16 * tw * h == 16 * (h * tw);
    MulMonotone(9 * h, 16 * w, th);
    assert 9 * th * h == 9 * h * th;
    assert 16 * w * th == 16 * (th * w);
    assert h * tw <= th * w;
    DivBound(h * tw, w, th);
  }

  lemma FitHeightWidthFits(w: nat, h: nat, th: nat, tw: nat)
    requires h > 0 && 16 * w <= 9 * h && 9 * th < 16 * (tw + 1)
    ensures ScaleSide(w, th, h) <= tw
  {
    var q := ScaleSide(w, th, h);
    var a := w * th;
    var x := 16 * q;
    var y := 16 * (tw + 1);
    DivMulBelow(a, h);
    MulMonotone(q * h, a, 16);
    assert (q * h) * 16 == x * h;
    MulMonotone(16 * w, 9 * h, th);
    assert (16 * w) * th == a * 16;
    assert (9 * h) * th == (9 * th) * h;
    ScaleCompare(9 * th, y, h);
    ScaleCompare(x, y, h);
  }

  /** The axis choice is what makes the following pad valid: the scaled
      frame always fits inside the `TargetWidth(th)` x `th` canvas, touching
      it on the axis that was scaled. */
  lemma LegacyScaledFitsCanvas(d: Dimensions, th: nat)
    requires d.width > 0 && d.height > 0
    ensures var s := LegacyScaledSize(d, th);
      && s.width <= TargetWidth(th) && s.height <= th
      && (LegacyAxis(d) == FitWidth ==> s.width == TargetWidth(th))
      && (LegacyAxis(d) == FitHeight ==> s.height == th)
  {
    var tw := TargetWidth(th);
    if LegacyAxis(d) == FitWidth {
      FitWidthHeightFits(d.width, d.height, th, tw);
    } else {
      FitHeightWidthFits(d.width, d.height, th, tw);
    }
  }

  /** The scale step keeps the source's aspect ratio: the free side is the
      exact proportional length rounded down, so the scaled ratio differs
      from the source's by less than one pixel on that side. */
  lemma LegacyScaledKeepsAspect(d: Dimensions, th: nat)
    requires d.width > 0 && d.height > 0
    ensures var s := LegacyScaledSize(d, th);
      && (LegacyAxis(d) == FitWidth ==>
            s.height * d.width <= d.height * s.width < (s.height + 1) * d.width)
      && (LegacyAxis(d) == FitHeight ==>
            s.width * d.height <= d.width * s.height < (s.width + 1) * d.height)
  {
    if LegacyAxis(d) == FitWidth {
      FloorBracket(d.height * TargetWidth(th), d.width);
    } else {
      FloorBracket(d.width * th, d.height);
    }
  }

  /** `convert_to_9_16(input, output, th)` of the older bot: a single
      scale-and-pad encode with no fallback; its failure propagates. `frame`
      is the size ffmpeg decodes from the input; the encode records the frame
      the scale step produces from it (`None` for a frame with a zero side,
      where the ratio `a` is undefined), before the pad to the canvas. */
  function ConvertLegacy(input: string, output: string, th: nat, frame: Dimensions, encodeOk: bool): (c: Conversion)
    ensures |c.encodes| == 1 && c.succeeded == encodeOk
    ensures var e := c.encodes[0];
      && e.input == input && e.output == output
      && e.filter.LegacyScalePad?
      && e.filter.width == TargetWidth(th) && e.filter.height == th
    ensures frame.width > 0 && frame.height > 0 ==>
      var f := c.encodes[0].filter;
      && f.scaled.Some?
      && f.scaled.value.width <= f.width && f.scaled.value.height <= f.height
      && (LegacyAxis(frame) == FitWidth ==> f.scaled.value.width == f.width)
      && (LegacyAxis(frame) == FitHeight ==> f.scaled.value.height == f.height)
    ensures frame.width > 0 && frame.height > 0 ==>
      var s := c.encodes[0].filter.scaled.value;
      && (LegacyAxis(frame) == FitWidth ==>
            s.height * frame.width <= frame.height * s.width < (s.height + 1) * frame.width)
      && (LegacyAxis(frame) == FitHeight ==>
            s.width * frame.height <= frame.width * s.height < (s.width + 1) * frame.height)
  {
    var tw := TargetWidth(th);
    if frame.width > 0 && frame.height > 0 then
      LegacyScaledFitsCanvas(frame, th);
      LegacyScaledKeepsAspect(frame, th);
      Conversion([Encode(LegacyScalePad(Some(LegacyScaledSize(frame, th)), tw, th), input, output)], encodeOk)
    else
      Conversion([Encode(LegacyScalePad(None, tw, th), input, output)], encodeOk)
  }
}
