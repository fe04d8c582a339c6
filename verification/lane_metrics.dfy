/** The lane processor's arithmetic over fitted curves: sampling a fitted quadratic at every
    image row, the frame plausibility gate, and the car's lateral offset. Values are exact
    reals where the source computes in float64. */
module LaneMetrics {
  import opened Wrappers

  /** Metres per pixel in x: a 3.7 m lane spans 640 pixels. */
  const XMetersPerPixel: real := 3.7 / 640.0

  /** The gate's constants. */
  const MinLaneWidth: real := 3.4
  const MaxLaneWidth: real := 4.0
  const ReliableRadius: real := 1000.0
  const MinRadiusRatio: real := 0.5
  const MaxRadiusRatio: real := 2.0

  /** What `np.polyfit` hands to the sampler: the three coefficients of `x = a*y^2 + b*y + c`
      (highest power first), or a value that cannot be indexed. */
  datatype Fit = Coefficients(a: real, b: real, c: real) | NotSubscriptable

  /** A curvature radius in metres; a zero leading coefficient divides by zero, which float64
      turns into positive infinity. */
  datatype Radius = Finite(meters: real) | Infinite

  /** Sampled curve: `xs[i]` at row `ys[i]`. */
  datatype Plot = Plot(xs: seq<real>, ys: seq<real>)

  /** The x a fit gives at row y. */
  function Evaluate(fit: Fit, y: real): (x: real)
    ensures fit.Coefficients? && fit.a == 0.0 && fit.b == 0.0 ==> x == fit.c
    ensures fit.Coefficients? && y == 0.0 ==> x == fit.c
    ensures fit.NotSubscriptable? ==> x == y * (y + 1.0)
  {
    match fit
    case Coefficients(a, b, c) => a * y * y + b * y + c
    case NotSubscriptable => y * y + y
  }

  /** `_pixelsForPlotting`: one sample per row `0 .. H - 1`; a fit that cannot be indexed falls
      back to the curve `x = y^2 + y`. */
  function PixelsForPlotting(fit: Fit, height: nat): (plot: Plot)
    ensures |plot.xs| == height && |plot.ys| == height
    ensures forall i | 0 <= i < height :: plot.ys[i] == i as real
    ensures forall i | 0 <= i < height ::
      plot.xs[i] == Evaluate(fit, i as real)
  {
    Plot(seq(height, i requires 0 <= i < height => Evaluate(fit, i as real)),
         seq(height, i => i as real))
  }

  /** The fallback samples are those of the fit with coefficients (1, 1, 0). */
  lemma FallbackCurve(height: nat)
    ensures PixelsForPlotting(NotSubscriptable, height) == PixelsForPlotting(Coefficients(1.0, 1.0, 0.0), height)
  {
    var fallback, unit := PixelsForPlotting(NotSubscriptable, height), PixelsForPlotting(Coefficients(1.0, 1.0, 0.0), height);
    forall i | 0 <= i < height ensures fallback.xs[i] == unit.xs[i] {
      var y := i as real;
      assert 1.0 * y * y + 1.0 * y + 0.0 == y * y + y;
    }
    assert fallback.xs == unit.xs;
  }

  /** A fit with zero quadratic and linear terms samples a vertical line. */
  lemma StraightFit(c: real, height: nat)
    ensures forall i | 0 <= i < height :: PixelsForPlotting(Coefficients(0.0, 0.0, c), height).xs[i] == c
  {
  }

  function Sum(s: seq<real>): real {
    if |s| == 0 then 0.0 else Sum(s[..|s| - 1]) + s[|s| - 1]
  }

  /** `np.mean`; the mean of an empty array is NaN, which is `None` here. */
  function Mean(s: seq<real>): (m: Option<real>)
    ensures m.None? <==> |s| == 0
  {
    if |s| == 0 then None else Some(Sum(s) / |s| as real)
  }

  /** `(rightPlotX - leftPlotX) * 3.7 / 640`: the lane width in metres at each row. */
  function LaneWidths(leftPlotX: seq<real>, rightPlotX: seq<real>): (widths: seq<real>)
    requires |leftPlotX| == |rightPlotX|
    ensures |widths| == |leftPlotX|
    ensures forall i | 0 <= i < |widths| :: widths[i] == (rightPlotX[i] - leftPlotX[i]) * 3.7 / 640.0
  {
    seq(|leftPlotX|, i requires 0 <= i < |leftPlotX| => (rightPlotX[i] - leftPlotX[i]) * 3.7 / 640.0)
  }

  /** Whether `right / left` falls outside `[0.5, 2]` under float64 division: a division by zero
      yields an infinity (outside) unless the numerator is zero too (NaN, which every
      comparison rejects, so it counts as inside). */
  predicate RatioOutOfRange(left: real, right: real)
    ensures left < 0.0 ==>
      (RatioOutOfRange(left, right) <==> right > MinRadiusRatio * left || right < MaxRadiusRatio * left)
  {
    if left < 0.0 then
      assert right / left == (-right) / (-left);
      ScaledBound(-right, -left, MinRadiusRatio);
      ScaledBound(-right, -left, MaxRadiusRatio);
      right / left < MinRadiusRatio || right / left > MaxRadiusRatio
    else if left != 0.0 then right / left < MinRadiusRatio || right / left > MaxRadiusRatio
    else right != 0.0
  }

  /** `r < 1000`; an infinite radius is not. */
  predicate BelowReliable(r: Radius)
    ensures r.Infinite? ==> !BelowReliable(r)
    ensures BelowReliable(r) ==> r.meters < ReliableRadius
  {
    r.Finite? && r.meters < ReliableRadius
  }

  /** `sanityCheck`: rejects a frame whose mean lane width lies outside `[3.4, 4.0]` m, or,
      when both radii are below 1000 m, whose radius ratio right/left lies outside
      `[0.5, 2]`. A NaN mean (no rows) fails both width comparisons and so passes. */
  function SanityCheck(leftPlotX: seq<real>, rightPlotX: seq<real>, leftRadius: Radius, rightRadius: Radius): (ok: bool)
    requires |leftPlotX| == |rightPlotX|
    ensures var width := Mean(LaneWidths(leftPlotX, rightPlotX));
      width.Some? && !(MinLaneWidth <= width.value <= MaxLaneWidth) ==> !ok
    ensures !(BelowReliable(leftRadius) && BelowReliable(rightRadius)) ==>
      (ok <==> (|leftPlotX| == 0 || MinLaneWidth <= Mean(LaneWidths(leftPlotX, rightPlotX)).value <= MaxLaneWidth))
    ensures |leftPlotX| == 0 ==>
      (ok <==> !(BelowReliable(leftRadius) && BelowReliable(rightRadius)) || !RatioOutOfRange(leftRadius.meters, rightRadius.meters))
  {
    var width := Mean(LaneWidths(leftPlotX, rightPlotX));
    if width.Some? && (MinLaneWidth > width.value || width.value > MaxLaneWidth) then false
    else if BelowReliable(leftRadius) && BelowReliable(rightRadius) then
      !RatioOutOfRange(leftRadius.meters, rightRadius.meters)
    else true
  }

  /** A sum of |s| copies of v is |s| * v. */
  lemma {:induction false} SumOfConstant(s: seq<real>, v: real)
    requires forall i | 0 <= i < |s| :: s[i] == v
    ensures Sum(s) == |s| as real * v
  {
    if |s| > 0 {
      SumOfConstant(s[..|s| - 1], v);
    }
  }

  lemma MulDivCancel(n: real, v: real)
    requires n != 0.0
    ensures (n * v) / n == v
  {
  }

  /** Rows a constant d pixels apart have mean width d * 3.7 / 640 m. */
  lemma ConstantSeparation(leftPlotX: seq<real>, rightPlotX: seq<real>, d: real)
    requires |leftPlotX| == |rightPlotX| > 0
    requires forall i | 0 <= i < |leftPlotX| :: rightPlotX[i] - leftPlotX[i] == d
    ensures Mean(LaneWidths(leftPlotX, rightPlotX)) == Some(d * 3.7 / 640.0)
  {
    var widths := LaneWidths(leftPlotX, rightPlotX);
    var v := d * 3.7 / 640.0;
    assert forall i | 0 <= i < |widths| :: widths[i] == v;
    SumOfConstant(widths, v);
    var n := |widths| as real;
    assert Sum(widths) == n * v;
    MulDivCancel(n, v);
    assert Sum(widths) / n == v;
  }

  /** For two lanes a constant d pixels apart the gate passes exactly when d * 3.7 / 640 lies in
      `[3.4, 4.0]` and, if both radii are below 1000 m, their ratio lies in `[0.5, 2]`. */
  lemma SanityOfParallelLanes(leftPlotX: seq<real>, rightPlotX: seq<real>, d: real, leftRadius: Radius, rightRadius: Radius)
    requires |leftPlotX| == |rightPlotX| > 0
    requires forall i | 0 <= i < |leftPlotX| :: rightPlotX[i] - leftPlotX[i] == d
    ensures SanityCheck(leftPlotX, rightPlotX, leftRadius, rightRadius) <==>
      && MinLaneWidth <= d * 3.7 / 640.0 <= MaxLaneWidth
      && (BelowReliable(leftRadius) && BelowReliable(rightRadius) ==>
            !RatioOutOfRange(leftRadius.meters, rightRadius.meters))
  {
    ConstantSeparation(leftPlotX, rightPlotX, d);
  }

  /** For a positive left radius the ratio test is `0.5 * left <= right <= 2 * left`. */
  lemma RatioForPositiveLeft(left: real, right: real)
    requires left > 0.0
    ensures !RatioOutOfRange(left, right) <==> 0.5 * left <= right <= 2.0 * left
  {
    ScaledBound(right, left, MinRadiusRatio);
    ScaledBound(right, left, MaxRadiusRatio);
  }

  /** The widths sum to the difference of the two lanes' column sums, scaled to metres. */
  lemma {:induction false} SumOfWidths(leftPlotX: seq<real>, rightPlotX: seq<real>)
    requires |leftPlotX| == |rightPlotX|
    ensures Sum(LaneWidths(leftPlotX, rightPlotX)) == (Sum(rightPlotX) - Sum(leftPlotX)) * 3.7 / 640.0
  {
    var n := |leftPlotX|;
    if n > 0 {
      var l, r := leftPlotX[..n - 1], rightPlotX[..n - 1];
      SumOfWidths(l, r);
      assert LaneWidths(leftPlotX, rightPlotX)[..n - 1] == LaneWidths(l, r);
    }
  }

  /** The gate in pixel terms, for positive radii (the curvature formula never gives less): it
      passes exactly when there are no rows or the summed pixel separation of the lanes over n
      rows lies between n * 3.4 m and n * 4.0 m, and, when both radii are below 1000 m, the
      right radius lies between half and twice the left one. */
  lemma SanityCheckCharacterised(leftPlotX: seq<real>, rightPlotX: seq<real>, leftRadius: Radius, rightRadius: Radius)
    requires |leftPlotX| == |rightPlotX|
    requires leftRadius.Finite? ==> leftRadius.meters > 0.0
    ensures var n := |leftPlotX| as real;
      var separation := (Sum(rightPlotX) - Sum(leftPlotX)) * 3.7 / 640.0;
      SanityCheck(leftPlotX, rightPlotX, leftRadius, rightRadius) <==>
        && (n == 0.0 || MinLaneWidth * n <= separation <= MaxLaneWidth * n)
        && (BelowReliable(leftRadius) && BelowReliable(rightRadius) ==>
              0.5 * leftRadius.meters <= rightRadius.meters <= 2.0 * leftRadius.meters)
  {
    SumOfWidths(leftPlotX, rightPlotX);
    var n := |leftPlotX| as real;
    var separation := (Sum(rightPlotX) - Sum(leftPlotX)) * 3.7 / 640.0;
    var width := Mean(LaneWidths(leftPlotX, rightPlotX));
    if n > 0.0 {
      assert width == Some(separation / n);
    }
    WidthGate(width, separation, n);
    var below := BelowReliable(leftRadius) && BelowReliable(rightRadius);
    if below {
      RatioForPositiveLeft(leftRadius.meters, rightRadius.meters);
    }
  }

  /** The width test on the mean, restated on the summed separation over n rows. */
  lemma WidthGate(width: Option<real>, separation: real, n: real)
    requires n >= 0.0 && (width.None? <==> n == 0.0)
    requires n > 0.0 ==> width == Some(separation / n)
    ensures (width.None? || MinLaneWidth <= width.value <= MaxLaneWidth)
        <==> (n == 0.0 || MinLaneWidth * n <= separation <= MaxLaneWidth * n)
  {
    if n > 0.0 {
      ScaledBound(separation, n, MinLaneWidth);
      ScaledBound(separation, n, MaxLaneWidth);
    }
  }

  /** Comparing a quotient by a positive n is comparing the dividend with n times the bound. */
  lemma ScaledBound(s: real, n: real, bound: real)
    requires n > 0.0
    ensures bound <= s / n <==> bound * n <= s
    ensures s / n <= bound <==> s <= bound * n
  {
    var q := s / n;
    assert s == q * n;
    if bound <= q {
      assert bound * n <= q * n;
    }
    if q <= bound {
      assert q * n <= bound * n;
    }
  }

  /** The ratio test reads the same with the two radii swapped. */
  lemma RatioSymmetric(left: real, right: real)
    ensures RatioOutOfRange(left, right) == RatioOutOfRange(right, left)
  {
    if left != 0.0 && right != 0.0 {
      var q := right / left;
      assert left / right == 1.0 / q;
      if q > 0.0 {
        assert q < 0.5 <==> 1.0 / q > 2.0;
        assert q > 2.0 <==> 1.0 / q < 0.5;
      }
    }
  }

  /** So the gate does not care which lane is called left in the curvature test. */
  lemma SanityRadiusSymmetric(leftPlotX: seq<real>, rightPlotX: seq<real>, leftRadius: Radius, rightRadius: Radius)
    requires |leftPlotX| == |rightPlotX|
    ensures SanityCheck(leftPlotX, rightPlotX, leftRadius, rightRadius)
         == SanityCheck(leftPlotX, rightPlotX, rightRadius, leftRadius)
  {
    if leftRadius.Finite? && rightRadius.Finite? {
      RatioSymmetric(leftRadius.meters, rightRadius.meters);
    }
  }

  /** `getXOffset`: how far the image centre lies right of the lane centre at the bottom row, in
      metres (positive when the car sits right of the lane centre). Indexing an empty plot
      raises, which is `None` here. */
  function XOffset(leftPlotX: seq<real>, rightPlotX: seq<real>, imageWidth: nat): (offset: Option<real>)
    ensures offset.None? <==> |leftPlotX| == 0 || |rightPlotX| == 0
    ensures offset.Some? ==>
      var middle := (leftPlotX[|leftPlotX| - 1] + rightPlotX[|rightPlotX| - 1]) / 2.0;
      && (offset.value == 0.0 <==> middle == imageWidth as real / 2.0)
      && (offset.value > 0.0 <==> middle < imageWidth as real / 2.0)
  {
    if |leftPlotX| == 0 || |rightPlotX| == 0 then None
    else
      var middleOfTheLane := (leftPlotX[|leftPlotX| - 1] + rightPlotX[|rightPlotX| - 1]) / 2.0;
      var currentXPosition := imageWidth as real / 2.0;
      Some((currentXPosition - middleOfTheLane) * 3.7 / 640.0)
  }

  /** Adds d to every sample. */
  function Shift(s: seq<real>, d: real): (r: seq<real>)
    ensures |r| == |s| && forall i | 0 <= i < |s| :: r[i] == s[i] + d
  {
    seq(|s|, i requires 0 <= i < |s| => s[i] + d)
  }

  /** Moving both lanes d pixels right lowers the offset by d * 3.7 / 640 m. */
  lemma XOffsetShift(leftPlotX: seq<real>, rightPlotX: seq<real>, imageWidth: nat, d: real)
    requires |leftPlotX| > 0 && |rightPlotX| > 0
    ensures XOffset(Shift(leftPlotX, d), Shift(rightPlotX, d), imageWidth).value
         == XOffset(leftPlotX, rightPlotX, imageWidth).value - d * 3.7 / 640.0
  {
  }

  /** Mirroring both lanes about the image centre (and swapping them) negates the offset. */
  lemma XOffsetMirror(leftPlotX: seq<real>, rightPlotX: seq<real>, imageWidth: nat)
    requires |leftPlotX| > 0 && |rightPlotX| > 0
    ensures var w := imageWidth as real;
      XOffset(Shift(Negate(rightPlotX), w), Shift(Negate(leftPlotX), w), imageWidth).value
      == -XOffset(leftPlotX, rightPlotX, imageWidth).value
  {
  }

  function Negate(s: seq<real>): (r: seq<real>)
    ensures |r| == |s| && forall i | 0 <= i < |s| :: r[i] == -s[i]
  {
    seq(|s|, i requires 0 <= i < |s| => -s[i])
  }

  /** The offset is measured where the fitted curves cross the bottom row, `y = H - 1`. */
  lemma XOffsetAtBottomRow(leftFit: Fit, rightFit: Fit, height: nat, imageWidth: nat)
    requires height > 0
    ensures XOffset(PixelsForPlotting(leftFit, height).xs, PixelsForPlotting(rightFit, height).xs, imageWidth)
         == Some((imageWidth as real / 2.0
                  - (Evaluate(leftFit, (height - 1) as real) + Evaluate(rightFit, (height - 1) as real)) / 2.0)
                 * 3.7 / 640.0)
  {
  }

  /** Two straight vertical lanes at columns 300 and 900 of a 1280-pixel image, radii infinite:
      the lanes are 600 px = 3.47 m apart, the gate passes, and the car is 0.23 m right of the
      lane centre. */
  lemma StraightLanesExample(height: nat)
    requires height > 0
    ensures var left := PixelsForPlotting(Coefficients(0.0, 0.0, 300.0), height).xs;
      var right := PixelsForPlotting(Coefficients(0.0, 0.0, 900.0), height).xs;
      SanityCheck(left, right, Infinite, Infinite) &&
      XOffset(left, right, 1280) == Some(0.23125)
  {
    var left := PixelsForPlotting(Coefficients(0.0, 0.0, 300.0), height).xs;
    var right := PixelsForPlotting(Coefficients(0.0, 0.0, 900.0), height).xs;
    SanityOfParallelLanes(left, right, 600.0, Infinite, Infinite);
  }

  /** Lanes exactly 640 px apart (3.7 m wide): radii 500 m and 800 m pass (ratio 1.6); 500 m and
      1100 m pass because a radius of 1000 m or more skips the ratio test; 300 m and 900 m fail
      (ratio 3); 1200 m and 3000 m pass (both skip the ratio test). */
  lemma ReferenceWidthExamples(leftPlotX: seq<real>, rightPlotX: seq<real>)
    requires |leftPlotX| == |rightPlotX| > 0
    requires forall i | 0 <= i < |leftPlotX| :: rightPlotX[i] - leftPlotX[i] == 640.0
    ensures SanityCheck(leftPlotX, rightPlotX, Finite(500.0), Finite(800.0))
    ensures SanityCheck(leftPlotX, rightPlotX, Finite(500.0), Finite(1100.0))
    ensures !SanityCheck(leftPlotX, rightPlotX, Finite(300.0), Finite(900.0))
    ensures SanityCheck(leftPlotX, rightPlotX, Finite(1200.0), Finite(3000.0))
  {
    ConstantSeparation(leftPlotX, rightPlotX, 640.0);
  }
}
