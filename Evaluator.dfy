/** The metric evaluator: three mean-squared-error metrics over flat buffers,
    the per-pixel heatmap and its colour ramp (src/Metrics/Evaluator.cpp). */
module Evaluator {
  import opened MathLib

  // ---------------------------------------------------------------------
  // Mean squared error, the common core of the three metrics
  // ---------------------------------------------------------------------

  /** Sum of squared differences over the first `k` positions. */
  function SumSqDiff(xs: seq<real>, ys: seq<real>, k: nat): real
    requires k <= |xs| && k <= |ys|
  {
    if k == 0 then 0.0
    else SumSqDiff(xs, ys, k - 1) + (xs[k - 1] - ys[k - 1]) * (xs[k - 1] - ys[k - 1])
  }

  /** `sumSqDiff / count`; a division by a zero count is NaN. */
  function MeanSq(xs: seq<real>, ys: seq<real>): Float
    requires |xs| == |ys|
  {
    if |xs| == 0 then NonFinite else Finite(SumSqDiff(xs, ys, |xs|) / |xs| as real)
  }

  /** Bytes read as `value / 255.0`. */
  function Normalized(a: seq<Byte>): (r: seq<real>)
    ensures |r| == |a|
    ensures forall i :: 0 <= i < |a| ==> 0.0 <= r[i] <= 1.0
  {
    seq(|a|, i requires 0 <= i < |a| => a[i] as real / 255.0)
  }

  /** Bytes read as `(value > 0) ? 1.0 : 0.0`. */
  function Occupancy(a: seq<Byte>): (r: seq<real>)
    ensures |r| == |a|
    ensures forall i :: 0 <= i < |a| ==> r[i] == 0.0 || r[i] == 1.0
  {
    seq(|a|, i requires 0 <= i < |a| => if a[i] > 0 then 1.0 else 0.0)
  }

  lemma {:induction false} SumSqDiffNonNegative(xs: seq<real>, ys: seq<real>, k: nat)
    requires k <= |xs| && k <= |ys|
    ensures 0.0 <= SumSqDiff(xs, ys, k)
  {
    if k > 0 {
      SumSqDiffNonNegative(xs, ys, k - 1);
    }
  }

  lemma {:induction false} SumSqDiffSymmetric(xs: seq<real>, ys: seq<real>, k: nat)
    requires k <= |xs| && k <= |ys|
    ensures SumSqDiff(xs, ys, k) == SumSqDiff(ys, xs, k)
  {
    if k > 0 {
      SumSqDiffSymmetric(xs, ys, k - 1);
      assert (xs[k - 1] - ys[k - 1]) * (xs[k - 1] - ys[k - 1]) == (ys[k - 1] - xs[k - 1]) * (ys[k - 1] - xs[k - 1]);
    }
  }

  /** Equal prefixes give a zero sum of squares. */
  lemma {:induction false} SumSqDiffZeroOfEqual(xs: seq<real>, ys: seq<real>, k: nat)
    requires k <= |xs| && k <= |ys|
    requires forall i :: 0 <= i < k ==> xs[i] == ys[i]
    ensures SumSqDiff(xs, ys, k) == 0.0
  {
    if k > 0 {
      SumSqDiffZeroOfEqual(xs, ys, k - 1);
      assert xs[k - 1] - ys[k - 1] == 0.0;
    }
  }

  /** A quotient of a sum bounded by its count. */
  lemma RatioInUnitRange(s: real, n: real)
    requires 0.0 < n && 0.0 <= s <= n
    ensures 0.0 <= s / n <= 1.0
  {
    var q := s / n;
    assert q * n == s;
  }

  /** With every entry in [0, 1], each squared difference is at most 1. */
  lemma {:induction false} SumSqDiffBounded(xs: seq<real>, ys: seq<real>, k: nat)
    requires k <= |xs| && k <= |ys|
    requires forall i :: 0 <= i < |xs| ==> 0.0 <= xs[i] <= 1.0
    requires forall i :: 0 <= i < |ys| ==> 0.0 <= ys[i] <= 1.0
    ensures SumSqDiff(xs, ys, k) <= k as real
  {
    if k > 0 {
      SumSqDiffBounded(xs, ys, k - 1);
      var d := xs[k - 1] - ys[k - 1];
      assert -1.0 <= d <= 1.0;
      assert d * d <= 1.0 by {
        if d >= 0.0 { assert d * d <= d * 1.0; } else { assert d * d <= (-d) * 1.0; }
      }
    }
  }

  /** Number of positions below `k` whose "> 0" status differs. */
  function Mismatches(a: seq<Byte>, b: seq<Byte>, k: nat): nat
    requires k <= |a| && k <= |b|
  {
    if k == 0 then 0
    else Mismatches(a, b, k - 1) + (if (a[k - 1] > 0) != (b[k - 1] > 0) then 1 else 0)
  }

  lemma {:induction false} OccupancyCountsMismatches(a: seq<Byte>, b: seq<Byte>, k: nat)
    requires k <= |a| && k <= |b|
    ensures SumSqDiff(Occupancy(a), Occupancy(b), k) == Mismatches(a, b, k) as real
  {
    if k > 0 {
      OccupancyCountsMismatches(a, b, k - 1);
    }
  }

  // ---------------------------------------------------------------------
  // ComputePSNR
  // ---------------------------------------------------------------------

  /** Below this MSE the images count as identical. */
  const IdenticalMse: real := 0.0000000001
  /** The PSNR reported for identical images. */
  const IdenticalPsnr: real := 99.99

  /** The pair (mse, psnr) that ComputePSNR returns. */
  function Psnr(img1: seq<Byte>, img2: seq<Byte>, m: Math): (Float, Float)
  {
    if |img1| != |img2| then (Finite(0.0), Finite(0.0))
    else match MeanSq(Normalized(img1), Normalized(img2))
      case NonFinite => (NonFinite, NonFinite)
      case Finite(mse) =>
        if mse < IdenticalMse then (Finite(0.0), Finite(IdenticalPsnr))
        else (Finite(mse), Finite(10.0 * m.log10(1.0 / mse)))
  }

  method ComputePSNR(img1: seq<Byte>, img2: seq<Byte>, width: int, height: int, m: Math)
    returns (mse: Float, psnr: Float)
    ensures (mse, psnr) == Psnr(img1, img2, m)
  {
    if |img1| != |img2| {
      return Finite(0.0), Finite(0.0);
    }
    var sumSqDiff := 0.0;
    var totalPixels := |img1|;
    for i := 0 to totalPixels
      invariant sumSqDiff == SumSqDiff(Normalized(img1), Normalized(img2), i)
    {
      var v1 := img1[i] as real / 255.0;
      var v2 := img2[i] as real / 255.0;
      var diff := v1 - v2;
      sumSqDiff := sumSqDiff + diff * diff;
    }
    if totalPixels == 0 {
      return NonFinite, NonFinite;
    }
    var meanSq := sumSqDiff / totalPixels as real;
    if meanSq < IdenticalMse {
      return Finite(0.0), Finite(IdenticalPsnr);
    }
    mse, psnr := Finite(meanSq), Finite(10.0 * m.log10(1.0 / meanSq));
  }

  /** Identical non-empty images give MSE 0 and the "identical" PSNR. */
  lemma PsnrOfIdentical(img: seq<Byte>, m: Math)
    requires |img| > 0
    ensures Psnr(img, img, m) == (Finite(0.0), Finite(IdenticalPsnr))
  {
    SumSqDiffZeroOfEqual(Normalized(img), Normalized(img), |img|);
  }

  lemma PsnrSymmetric(img1: seq<Byte>, img2: seq<Byte>, m: Math)
    ensures Psnr(img1, img2, m) == Psnr(img2, img1, m)
  {
    if |img1| == |img2| {
      SumSqDiffSymmetric(Normalized(img1), Normalized(img2), |img1|);
    }
  }

  /** On equal sizes the reported MSE is finite and lies in [0, 1], and the
      pair is the sentinel (0, 99.99) exactly when the mean squared
      difference is below the floor. */
  lemma PsnrMseInUnitRange(img1: seq<Byte>, img2: seq<Byte>, m: Math)
    requires |img1| == |img2| > 0
    ensures Psnr(img1, img2, m).0.Finite? && Psnr(img1, img2, m).1.Finite?
    ensures 0.0 <= Psnr(img1, img2, m).0.value <= 1.0
    ensures MeanSq(Normalized(img1), Normalized(img2)).Finite?
    ensures MeanSq(Normalized(img1), Normalized(img2)).value < IdenticalMse
        <==> Psnr(img1, img2, m) == (Finite(0.0), Finite(IdenticalPsnr))
  {
    var xs, ys := Normalized(img1), Normalized(img2);
    SumSqDiffNonNegative(xs, ys, |xs|);
    SumSqDiffBounded(xs, ys, |xs|);
    RatioInUnitRange(SumSqDiff(xs, ys, |xs|), |xs| as real);
  }

  // ---------------------------------------------------------------------
  // ComputeNormalError and ComputeSilhouetteError
  // ---------------------------------------------------------------------

  /** Mean squared component difference, unclamped; 0 on size mismatch. */
  function NormalError(nMap1: seq<real>, nMap2: seq<real>): Float
  {
    if |nMap1| != |nMap2| then Finite(0.0) else MeanSq(nMap1, nMap2)
  }

  method ComputeNormalError(nMap1: seq<real>, nMap2: seq<real>, width: int, height: int)
    returns (r: Float)
    ensures r == NormalError(nMap1, nMap2)
  {
    if |nMap1| != |nMap2| {
      return Finite(0.0);
    }
    var sumSqDiff := 0.0;
    var totalComponents := |nMap1|;
    for i := 0 to totalComponents
      invariant sumSqDiff == SumSqDiff(nMap1, nMap2, i)
    {
      var diff := nMap1[i] - nMap2[i];
      sumSqDiff := sumSqDiff + diff * diff;
    }
    if totalComponents == 0 {
      return NonFinite;
    }
    r := Finite(sumSqDiff / totalComponents as real);
  }

  /** The normal error is non-negative, symmetric and zero on identical
      non-empty inputs. */
  lemma NormalErrorProperties(nMap1: seq<real>, nMap2: seq<real>)
    requires |nMap1| == |nMap2| > 0
    ensures NormalError(nMap1, nMap2).Finite?
    ensures 0.0 <= NormalError(nMap1, nMap2).value
    ensures NormalError(nMap1, nMap2) == NormalError(nMap2, nMap1)
    ensures NormalError(nMap1, nMap1) == Finite(0.0)
  {
    SumSqDiffNonNegative(nMap1, nMap2, |nMap1|);
    SumSqDiffSymmetric(nMap1, nMap2, |nMap1|);
    SumSqDiffZeroOfEqual(nMap1, nMap1, |nMap1|);
  }

  /** MSE of the two masks after reading each byte as occupied (> 0) or not;
      0 on size mismatch. */
  function SilhouetteError(sil1: seq<Byte>, sil2: seq<Byte>): Float
  {
    if |sil1| != |sil2| then Finite(0.0) else MeanSq(Occupancy(sil1), Occupancy(sil2))
  }

  method ComputeSilhouetteError(sil1: seq<Byte>, sil2: seq<Byte>, width: int, height: int)
    returns (r: Float)
    ensures r == SilhouetteError(sil1, sil2)
  {
    if |sil1| != |sil2| {
      return Finite(0.0);
    }
    var sumSqDiff := 0.0;
    for i := 0 to |sil1|
      invariant sumSqDiff == SumSqDiff(Occupancy(sil1), Occupancy(sil2), i)
    {
      var v1 := if sil1[i] > 0 then 1.0 else 0.0;
      var v2 := if sil2[i] > 0 then 1.0 else 0.0;
      var diff := v1 - v2;
      sumSqDiff := sumSqDiff + diff * diff;
    }
    if |sil1| == 0 {
      return NonFinite;
    }
    r := Finite(sumSqDiff / |sil1| as real);
  }

  /** Buffers of different sizes give the sentinel results: (0, 0) for the
      PSNR pair, 0 for the normal and the silhouette error. */
  lemma SizeMismatchSentinels(img1: seq<Byte>, img2: seq<Byte>, n1: seq<real>, n2: seq<real>, m: Math)
    ensures |img1| != |img2| ==> Psnr(img1, img2, m) == (Finite(0.0), Finite(0.0))
                                 && SilhouetteError(img1, img2) == Finite(0.0)
    ensures |n1| != |n2| ==> NormalError(n1, n2) == Finite(0.0)
  {
  }

  /** The silhouette error is the fraction of positions whose occupancy
      differs, hence lies in [0, 1]. */
  lemma SilhouetteErrorIsMismatchFraction(sil1: seq<Byte>, sil2: seq<Byte>)
    requires |sil1| == |sil2| > 0
    ensures SilhouetteError(sil1, sil2) == Finite(Mismatches(sil1, sil2, |sil1|) as real / |sil1| as real)
    ensures 0.0 <= SilhouetteError(sil1, sil2).value <= 1.0
  {
    var xs, ys := Occupancy(sil1), Occupancy(sil2);
    OccupancyCountsMismatches(sil1, sil2, |sil1|);
    SumSqDiffNonNegative(xs, ys, |xs|);
    SumSqDiffBounded(xs, ys, |xs|);
    RatioInUnitRange(SumSqDiff(xs, ys, |xs|), |xs| as real);
  }

  // ---------------------------------------------------------------------
  // ValueToColor
  // ---------------------------------------------------------------------

  /** The value of pi written in ValueToColor. */
  const RampPi: real := 3.1415926

  lemma MulAtMost(a: real, b: real)
    requires 0.0 <= a && b <= 1.0
    ensures a * b <= a
  {
    assert a * b <= a * 1.0;
  }

  function SmoothPoly(t: real): real { t * t * (3.0 - 2.0 * t) }

  function Smoothstep(edge0: real, edge1: real, x: real): real
    requires edge0 != edge1
  {
    SmoothPoly(Clamp((x - edge0) / (edge1 - edge0), 0.0, 1.0))
  }

  lemma SmoothPolyMonotone(a: real, b: real)
    requires 0.0 <= a <= b <= 1.0
    ensures SmoothPoly(a) <= SmoothPoly(b)
  {
    var aa, ab, bb := a * a, a * b, b * b;
    assert SmoothPoly(b) - SmoothPoly(a) == (b - a) * (3.0 * (a + b) - 2.0 * (aa + ab + bb));
    assert aa <= a by { MulAtMost(a, a); }
    assert ab <= a by { MulAtMost(a, b); }
    assert bb <= b by { MulAtMost(b, b); }
    var k := 3.0 * (a + b) - 2.0 * (aa + ab + bb);
    assert 0.0 <= k;
    assert 0.0 <= (b - a) * k;
  }

  /** Red rises from 0 at 0.5 to full at 0.8. */
  function RampRed(v: real): Byte { ToByte(Smoothstep(0.5, 0.8, v) * 255.0) }
  /** Green is the arch sin(pi v). */
  function RampGreen(v: real, m: Math): Byte { ToByte(m.sin(v * RampPi) * 255.0) }
  /** Blue falls from full at 0.2 to 0 at 0.5. */
  function RampBlue(v: real): Byte { ToByte(Smoothstep(0.5, 0.2, v) * 255.0) }

  function Ramp(v: real, m: Math): (Byte, Byte, Byte)
  {
    (RampRed(v), RampGreen(v, m), RampBlue(v))
  }

  /** The colour of an error value: the ramp at the value clamped to [0, 1]
      (each channel scaled by 255 and truncated). */
  function ValueToColor(value: real, m: Math): (Byte, Byte, Byte)
  {
    Ramp(Clamp(value, 0.0, 1.0), m)
  }

  lemma RedMonotone(v1: real, v2: real)
    requires v1 <= v2
    ensures RampRed(v1) <= RampRed(v2)
  {
    var r1, r2 := Clamp((v1 - 0.5) / (0.8 - 0.5), 0.0, 1.0), Clamp((v2 - 0.5) / (0.8 - 0.5), 0.0, 1.0);
    assert (v1 - 0.5) / (0.8 - 0.5) <= (v2 - 0.5) / (0.8 - 0.5);
    assert r1 <= r2;
    SmoothPolyMonotone(r1, r2);
    ToByteMonotone(SmoothPoly(r1) * 255.0, SmoothPoly(r2) * 255.0);
  }

  lemma BlueAntitone(v1: real, v2: real)
    requires v1 <= v2
    ensures RampBlue(v2) <= RampBlue(v1)
  {
    var b1, b2 := Clamp((v1 - 0.5) / (0.2 - 0.5), 0.0, 1.0), Clamp((v2 - 0.5) / (0.2 - 0.5), 0.0, 1.0);
    assert (v2 - 0.5) / (0.2 - 0.5) <= (v1 - 0.5) / (0.2 - 0.5);
    assert b2 <= b1;
    SmoothPolyMonotone(b2, b1);
    ToByteMonotone(SmoothPoly(b2) * 255.0, SmoothPoly(b1) * 255.0);
  }

  /** Red never decreases and blue never increases as the value grows. */
  lemma RampMonotone(v1: real, v2: real, m: Math)
    requires v1 <= v2
    ensures ValueToColor(v1, m).0 <= ValueToColor(v2, m).0
    ensures ValueToColor(v1, m).2 >= ValueToColor(v2, m).2
  {
    var c1, c2 := Clamp(v1, 0.0, 1.0), Clamp(v2, 0.0, 1.0);
    assert c1 <= c2;
    RedMonotone(c1, c2);
    BlueAntitone(c1, c2);
  }

  lemma RedEnds(v: real)
    ensures v <= 0.5 ==> RampRed(v) == 0
    ensures v >= 0.8 ==> RampRed(v) == 255
  {
    var t := (v - 0.5) / (0.8 - 0.5);
    if v <= 0.5 {
      assert t <= 0.0;
      assert Clamp(t, 0.0, 1.0) == 0.0;
      assert SmoothPoly(0.0) == 0.0;
    }
    if v >= 0.8 {
      assert t >= 1.0;
      assert Clamp(t, 0.0, 1.0) == 1.0;
      assert SmoothPoly(1.0) == 1.0;
    }
  }

  lemma BlueEnds(v: real)
    ensures v <= 0.2 ==> RampBlue(v) == 255
    ensures v >= 0.5 ==> RampBlue(v) == 0
  {
    var t := (v - 0.5) / (0.2 - 0.5);
    if v <= 0.2 {
      assert t >= 1.0;
      assert Clamp(t, 0.0, 1.0) == 1.0;
      assert SmoothPoly(1.0) == 1.0;
    }
    if v >= 0.5 {
      assert t <= 0.0;
      assert Clamp(t, 0.0, 1.0) == 0.0;
      assert SmoothPoly(0.0) == 0.0;
    }
  }

  /** Red is off up to the middle of the ramp and saturated from 0.8 on;
      blue is saturated up to 0.2 and off from the middle on. */
  lemma RampEnds(v: real, m: Math)
    ensures v <= 0.5 ==> ValueToColor(v, m).0 == 0
    ensures v >= 0.8 ==> ValueToColor(v, m).0 == 255
    ensures v <= 0.2 ==> ValueToColor(v, m).2 == 255
    ensures v >= 0.5 ==> ValueToColor(v, m).2 == 0
  {
    var c := Clamp(v, 0.0, 1.0);
    assert v <= 0.5 ==> c <= 0.5;
    assert v >= 0.8 ==> c >= 0.8;
    assert v <= 0.2 ==> c <= 0.2;
    assert v >= 0.5 ==> c >= 0.5;
    RedEnds(c);
    BlueEnds(c);
  }

  // ---------------------------------------------------------------------
  // GenerateHeatmap
  // ---------------------------------------------------------------------

  /** The buffers a heatmap over `count` pixels reads: floats in mode 1,
      bytes in every other mode (three entries per pixel). */
  predicate HeatmapReadsFit(refBytes: seq<Byte>, refFloats: seq<real>, optBytes: seq<Byte>,
                            optFloats: seq<real>, count: int, mode: int)
  {
    if mode == 1 then count * 3 <= |refFloats| && count * 3 <= |optFloats|
    else count * 3 <= |refBytes| && count * 3 <= |optBytes|
  }

  predicate BlackBytes(b: seq<Byte>, p: nat)
    requires p * 3 + 2 < |b|
  {
    b[p * 3 + 0] == 0 && b[p * 3 + 1] == 0 && b[p * 3 + 2] == 0
  }

  predicate BlackFloats(f: seq<real>, p: nat)
    requires p * 3 + 2 < |f|
  {
    f[p * 3 + 0] == 0.0 && f[p * 3 + 1] == 0.0 && f[p * 3 + 2] == 0.0
  }

  /** Pixel `p` is background when the reference OR the candidate pixel is
      all zero. */
  predicate IsBackground(refBytes: seq<Byte>, refFloats: seq<real>, optBytes: seq<Byte>,
                         optFloats: seq<real>, p: nat, mode: int)
    requires HeatmapReadsFit(refBytes, refFloats, optBytes, optFloats, p + 1, mode)
  {
    if mode == 1 then BlackFloats(refFloats, p) || BlackFloats(optFloats, p)
    else BlackBytes(refBytes, p) || BlackBytes(optBytes, p)
  }

  /** `v * 2 - 1`: a stored [0, 1] normal component back in [-1, 1]. */
  function ToNormal(v: real): real { v * 2.0 - 1.0 }

  function SumOfSquares(a: real, b: real, c: real): real { a * a + b * b + c * c }

  /** Mode 0: five times the Euclidean distance of the two colours. */
  function ColorDistance(refBytes: seq<Byte>, optBytes: seq<Byte>, p: nat, m: Math): real
    requires p * 3 + 2 < |refBytes| && p * 3 + 2 < |optBytes|
  {
    var dr := refBytes[p * 3 + 0] as real / 255.0 - optBytes[p * 3 + 0] as real / 255.0;
    var dg := refBytes[p * 3 + 1] as real / 255.0 - optBytes[p * 3 + 1] as real / 255.0;
    var db := refBytes[p * 3 + 2] as real / 255.0 - optBytes[p * 3 + 2] as real / 255.0;
    m.sqrt(SumOfSquares(dr, dg, db)) * 5.0
  }

  /** Mode 1: twice one minus the cosine of the decoded normals. */
  function NormalDeviation(refFloats: seq<real>, optFloats: seq<real>, p: nat): real
    requires p * 3 + 2 < |refFloats| && p * 3 + 2 < |optFloats|
  {
    var dot := ToNormal(refFloats[p * 3 + 0]) * ToNormal(optFloats[p * 3 + 0])
             + ToNormal(refFloats[p * 3 + 1]) * ToNormal(optFloats[p * 3 + 1])
             + ToNormal(refFloats[p * 3 + 2]) * ToNormal(optFloats[p * 3 + 2]);
    (1.0 - dot) * 2.0
  }

  /** Mode 2: the absolute difference of the first channel. */
  function MaskDifference(refBytes: seq<Byte>, optBytes: seq<Byte>, p: nat): real
    requires p * 3 < |refBytes| && p * 3 < |optBytes|
  {
    Abs(refBytes[p * 3 + 0] as real / 255.0 - optBytes[p * 3 + 0] as real / 255.0)
  }

  /** The value handed to the colour ramp for a foreground pixel. */
  function HeatValue(refBytes: seq<Byte>, refFloats: seq<real>, optBytes: seq<Byte>,
                     optFloats: seq<real>, p: nat, mode: int, m: Math): real
    requires HeatmapReadsFit(refBytes, refFloats, optBytes, optFloats, p + 1, mode)
  {
    if mode == 0 then ColorDistance(refBytes, optBytes, p, m)
    else if mode == 1 then NormalDeviation(refFloats, optFloats, p)
    else if mode == 2 then MaskDifference(refBytes, optBytes, p)
    else 0.0
  }

  /** The RGBA value of heatmap pixel `p`. */
  function PixelColor(refBytes: seq<Byte>, refFloats: seq<real>, optBytes: seq<Byte>,
                      optFloats: seq<real>, p: nat, mode: int, m: Math): (Byte, Byte, Byte, Byte)
    requires HeatmapReadsFit(refBytes, refFloats, optBytes, optFloats, p + 1, mode)
  {
    if IsBackground(refBytes, refFloats, optBytes, optFloats, p, mode) then (0, 0, 0, 255)
    else
      var c := ValueToColor(HeatValue(refBytes, refFloats, optBytes, optFloats, p, mode, m), m);
      (c.0, c.1, c.2, 255)
  }

  function Channel(c: (Byte, Byte, Byte, Byte), k: int): Byte
  {
    if k == 0 then c.0 else if k == 1 then c.1 else if k == 2 then c.2 else c.3
  }

  /** The four bytes of one pixel, in RGBA order. */
  function Rgba(c: (Byte, Byte, Byte, Byte)): (r: seq<Byte>)
    ensures |r| == 4 && forall k :: 0 <= k < 4 ==> r[k] == Channel(c, k)
  {
    [c.0, c.1, c.2, c.3]
  }

  /** The heatmap bytes of the first `n` pixels, four per pixel. */
  function HeatmapUpTo(refBytes: seq<Byte>, refFloats: seq<real>, optBytes: seq<Byte>,
                       optFloats: seq<real>, n: nat, mode: int, m: Math): (r: seq<Byte>)
    requires HeatmapReadsFit(refBytes, refFloats, optBytes, optFloats, n, mode)
    ensures |r| == n * 4
  {
    if n == 0 then []
    else HeatmapUpTo(refBytes, refFloats, optBytes, optFloats, n - 1, mode, m)
         + Rgba(PixelColor(refBytes, refFloats, optBytes, optFloats, n - 1, mode, m))
  }

  /** The RGBA heatmap of a `width` x `height` image. */
  function Heatmap(refBytes: seq<Byte>, refFloats: seq<real>, optBytes: seq<Byte>,
                   optFloats: seq<real>, width: nat, height: nat, mode: int, m: Math): seq<Byte>
    requires HeatmapReadsFit(refBytes, refFloats, optBytes, optFloats, width * height, mode)
  {
    HeatmapUpTo(refBytes, refFloats, optBytes, optFloats, width * height, mode, m)
  }

  /** Byte `k` of pixel `p` is channel `k` of that pixel's colour. */
  lemma {:induction false} HeatmapAt(refBytes: seq<Byte>, refFloats: seq<real>, optBytes: seq<Byte>,
                                     optFloats: seq<real>, n: nat, mode: int, m: Math, p: nat, k: nat)
    requires HeatmapReadsFit(refBytes, refFloats, optBytes, optFloats, n, mode)
    requires p < n && k < 4
    ensures HeatmapUpTo(refBytes, refFloats, optBytes, optFloats, n, mode, m)[p * 4 + k]
         == Channel(PixelColor(refBytes, refFloats, optBytes, optFloats, p, mode, m), k)
  {
    var c := PixelColor(refBytes, refFloats, optBytes, optFloats, n - 1, mode, m);
    var prefix := HeatmapUpTo(refBytes, refFloats, optBytes, optFloats, n - 1, mode, m);
    assert HeatmapUpTo(refBytes, refFloats, optBytes, optFloats, n, mode, m) == prefix + Rgba(c);
    if p < n - 1 {
      HeatmapAt(refBytes, refFloats, optBytes, optFloats, n - 1, mode, m, p, k);
      assert p * 4 + k < |prefix|;
    } else {
      assert p * 4 + k == |prefix| + k;
    }
  }

  /** The background test of the pixel loop. */
  method PixelIsBackground(refBytes: seq<Byte>, refFloats: seq<real>, optBytes: seq<Byte>,
                           optFloats: seq<real>, i: nat, mode: int)
    returns (isBackground: bool)
    requires HeatmapReadsFit(refBytes, refFloats, optBytes, optFloats, i + 1, mode)
    ensures isBackground == IsBackground(refBytes, refFloats, optBytes, optFloats, i, mode)
  {
    isBackground := false;
    if mode == 1 {
      if refFloats[i * 3 + 0] == 0.0 && refFloats[i * 3 + 1] == 0.0 && refFloats[i * 3 + 2] == 0.0 { isBackground := true; }
      if optFloats[i * 3 + 0] == 0.0 && optFloats[i * 3 + 1] == 0.0 && optFloats[i * 3 + 2] == 0.0 { isBackground := true; }
    } else {
      if refBytes[i * 3 + 0] == 0 && refBytes[i * 3 + 1] == 0 && refBytes[i * 3 + 2] == 0 { isBackground := true; }
      if optBytes[i * 3 + 0] == 0 && optBytes[i * 3 + 1] == 0 && optBytes[i * 3 + 2] == 0 { isBackground := true; }
    }
  }

  /** The per-mode difference value of the pixel loop. */
  method PixelHeatValue(refBytes: seq<Byte>, refFloats: seq<real>, optBytes: seq<Byte>,
                        optFloats: seq<real>, i: nat, mode: int, m: Math)
    returns (diff: real)
    requires HeatmapReadsFit(refBytes, refFloats, optBytes, optFloats, i + 1, mode)
    ensures diff == HeatValue(refBytes, refFloats, optBytes, optFloats, i, mode, m)
  {
    diff := 0.0;
    if mode == 0 {
      var dr := refBytes[i * 3 + 0] as real / 255.0 - optBytes[i * 3 + 0] as real / 255.0;
      var dg := refBytes[i * 3 + 1] as real / 255.0 - optBytes[i * 3 + 1] as real / 255.0;
      var db := refBytes[i * 3 + 2] as real / 255.0 - optBytes[i * 3 + 2] as real / 255.0;
      diff := m.sqrt(SumOfSquares(dr, dg, db)) * 5.0;
      assert diff == ColorDistance(refBytes, optBytes, i, m);
    } else if mode == 1 {
      var dot := ToNormal(refFloats[i * 3 + 0]) * ToNormal(optFloats[i * 3 + 0])
               + ToNormal(refFloats[i * 3 + 1]) * ToNormal(optFloats[i * 3 + 1])
               + ToNormal(refFloats[i * 3 + 2]) * ToNormal(optFloats[i * 3 + 2]);
      diff := (1.0 - dot) * 2.0;
      assert diff == NormalDeviation(refFloats, optFloats, i);
    } else if mode == 2 {
      var v1 := refBytes[i * 3 + 0] as real / 255.0;
      var v2 := optBytes[i * 3 + 0] as real / 255.0;
      diff := Abs(v1 - v2);
      assert diff == MaskDifference(refBytes, optBytes, i);
    }
  }

  /** The body of the pixel loop: background black, or the ramp colour of
      the pixel's difference value, opaque either way. */
  method ComputePixel(refBytes: seq<Byte>, refFloats: seq<real>, optBytes: seq<Byte>,
                      optFloats: seq<real>, i: nat, mode: int, m: Math)
    returns (pixel: (Byte, Byte, Byte, Byte))
    requires HeatmapReadsFit(refBytes, refFloats, optBytes, optFloats, i + 1, mode)
    ensures pixel == PixelColor(refBytes, refFloats, optBytes, optFloats, i, mode, m)
  {
    var isBackground := PixelIsBackground(refBytes, refFloats, optBytes, optFloats, i, mode);
    if isBackground {
      pixel := (0, 0, 0, 255);
    } else {
      var diff := PixelHeatValue(refBytes, refFloats, optBytes, optFloats, i, mode, m);
      var c := ValueToColor(diff, m);
      pixel := (c.0, c.1, c.2, 255);
    }
  }

  /** Stores the RGBA bytes of pixel `p` and nothing else. */
  method StorePixel(hm: array<Byte>, p: nat, pixel: (Byte, Byte, Byte, Byte))
    requires p * 4 + 4 <= hm.Length
    modifies hm
    ensures forall j :: 0 <= j < hm.Length && (j < p * 4 || p * 4 + 4 <= j) ==> hm[j] == old(hm[j])
    ensures hm[p * 4 + 0] == pixel.0 && hm[p * 4 + 1] == pixel.1
    ensures hm[p * 4 + 2] == pixel.2 && hm[p * 4 + 3] == pixel.3
    ensures hm[..p * 4 + 4] == old(hm[..p * 4]) + Rgba(pixel)
  {
    hm[p * 4 + 0] := pixel.0;
    hm[p * 4 + 1] := pixel.1;
    hm[p * 4 + 2] := pixel.2;
    hm[p * 4 + 3] := pixel.3;
    assert hm[..p * 4] == old(hm[..p * 4]);
  }

  /** One pass of the pixel loop: pixel `i` is computed and stored after
      the first `i` pixels, which stay as they were. */
  method FillPixel(hm: array<Byte>, refBytes: seq<Byte>, refFloats: seq<real>, optBytes: seq<Byte>,
                   optFloats: seq<real>, i: nat, mode: int, m: Math)
    requires HeatmapReadsFit(refBytes, refFloats, optBytes, optFloats, i + 1, mode)
    requires i * 4 + 4 <= hm.Length
    requires hm[..i * 4] == HeatmapUpTo(refBytes, refFloats, optBytes, optFloats, i, mode, m)
    modifies hm
    ensures hm[..i * 4 + 4] == HeatmapUpTo(refBytes, refFloats, optBytes, optFloats, i + 1, mode, m)
  {
    ghost var prefix := HeatmapUpTo(refBytes, refFloats, optBytes, optFloats, i, mode, m);
    var pixel := ComputePixel(refBytes, refFloats, optBytes, optFloats, i, mode, m);
    assert HeatmapUpTo(refBytes, refFloats, optBytes, optFloats, i + 1, mode, m) == prefix + Rgba(pixel);
    StorePixel(hm, i, pixel);
  }

  method GenerateHeatmap(refBytes: seq<Byte>, refFloats: seq<real>, optBytes: seq<Byte>,
                         optFloats: seq<real>, width: nat, height: nat, mode: int, m: Math)
    returns (heatmap: seq<Byte>)
    requires HeatmapReadsFit(refBytes, refFloats, optBytes, optFloats, width * height, mode)
    ensures heatmap == Heatmap(refBytes, refFloats, optBytes, optFloats, width, height, mode, m)
  {
    var count := width * height;
    var hm := new Byte[count * 4](_ => 0);
    FillHeatmap(hm, refBytes, refFloats, optBytes, optFloats, count, mode, m);
    heatmap := hm[..];
  }

  /** The pixel loop of `generateHeatmap` over `count` pixels. */
  method FillHeatmap(hm: array<Byte>, refBytes: seq<Byte>, refFloats: seq<real>, optBytes: seq<Byte>,
                     optFloats: seq<real>, count: nat, mode: int, m: Math)
    requires HeatmapReadsFit(refBytes, refFloats, optBytes, optFloats, count, mode)
    requires hm.Length == count * 4
    modifies hm
    ensures hm[..] == HeatmapUpTo(refBytes, refFloats, optBytes, optFloats, count, mode, m)
  {
    for i := 0 to count
      invariant hm[..i * 4] == HeatmapUpTo(refBytes, refFloats, optBytes, optFloats, i, mode, m)
    {
      FillPixel(hm, refBytes, refFloats, optBytes, optFloats, i, mode, m);
    }
    assert hm[..] == hm[..count * 4];
  }

  /** Every pixel colour is opaque, and a background pixel is black. */
  lemma PixelColorOpaque(refBytes: seq<Byte>, refFloats: seq<real>, optBytes: seq<Byte>,
                         optFloats: seq<real>, p: nat, mode: int, m: Math)
    requires HeatmapReadsFit(refBytes, refFloats, optBytes, optFloats, p + 1, mode)
    ensures PixelColor(refBytes, refFloats, optBytes, optFloats, p, mode, m).3 == 255
    ensures IsBackground(refBytes, refFloats, optBytes, optFloats, p, mode) ==>
              PixelColor(refBytes, refFloats, optBytes, optFloats, p, mode, m) == (0, 0, 0, 255)
  {
  }

  /** Comparing a colour or silhouette image with itself: every pixel is
      either background black or the bottom of the ramp, pure blue. */
  lemma PixelOfIdenticalIsBlueOrBlack(bytes: seq<Byte>, mode: int, m: Math, p: nat)
    requires mode == 0 || mode == 2
    requires p * 3 + 2 < |bytes|
    requires m.sqrt(0.0) == 0.0 && m.sin(0.0) == 0.0
    ensures PixelColor(bytes, [], bytes, [], p, mode, m) == (0, 0, 0, 255)
         || PixelColor(bytes, [], bytes, [], p, mode, m) == (0, 0, 255, 255)
  {
    if !IsBackground(bytes, [], bytes, [], p, mode) {
      var v := HeatValue(bytes, [], bytes, [], p, mode, m);
      if mode == 0 {
        var dr := bytes[p * 3 + 0] as real / 255.0 - bytes[p * 3 + 0] as real / 255.0;
        var dg := bytes[p * 3 + 1] as real / 255.0 - bytes[p * 3 + 1] as real / 255.0;
        var db := bytes[p * 3 + 2] as real / 255.0 - bytes[p * 3 + 2] as real / 255.0;
        assert dr == 0.0 && dg == 0.0 && db == 0.0;
        assert SumOfSquares(dr, dg, db) == 0.0;
      }
      assert v == 0.0;
      RampEnds(0.0, m);
      assert Clamp(0.0, 0.0, 1.0) == 0.0;
      assert 0.0 * RampPi == 0.0;
      assert RampGreen(0.0, m) == 0;
    }
  }
}
