/** Guided capture (front/side/back photos), in both copies of the scan
    pipeline: the photo-quality checks, the cross-view fusion of the
    per-view metrics, and the 0-100 posture and symmetry scores. */
module Guided {
  import opened Wrappers
  import opened JsMath
  import opened Pose

  // ---------------------------------------------------------------------
  // Cross-view fusion

  /** The fused record: one number per field, never null. */
  datatype Fused = Fused(shoulderTilt: real, hipTilt: real, forwardHead: real, torsoDiffPct: real)

  /** What each view contributes: a null field (or a NaN torso difference)
      adds 0 to the sum. */
  function ShoulderOrZero(m: Metrics): real { m.shoulderTilt.GetOr(0.0) }
  function HipOrZero(m: Metrics): real { m.hipTilt.GetOr(0.0) }
  function HeadOrZero(m: Metrics): real { m.forwardHead.GetOr(0.0) }
  function TorsoOrZero(m: Metrics): real {
    if m.symmetry.Some? then m.symmetry.value.torsoDiffPct.GetOr(0.0) else 0.0
  }

  /** The `reduce` over the views, left to right. */
  function SumBy(ms: seq<Metrics>, f: Metrics -> real): real {
    if |ms| == 0 then 0.0 else SumBy(ms[..|ms| - 1], f) + f(ms[|ms| - 1])
  }

  /** Every record of a sequence is in range. */
  predicate EveryInRange(ms: seq<Metrics>) {
    forall i :: 0 <= i < |ms| ==> InRange(ms[i])
  }

  /** `collectMetrics` over the views: a view contributes its posture
      fields only when the estimator found keypoints in it. The two copies
      differ only in the landmark gate and the head chain. */
  function ViewMetrics(g: Geometry, gate: Gate, headChain: seq<string>, views: seq<seq<Keypoint>>): (ms: seq<Metrics>)
    requires ValidGeometry(g)
    ensures |ms| <= |views|
    ensures EveryInRange(ms)
    ensures |ms| == 0 <==> forall i :: 0 <= i < |views| ==> |views[i]| == 0
  {
    if |views| == 0 then []
    else
      var rest := ViewMetrics(g, gate, headChain, views[1..]);
      assert forall i :: 1 <= i < |views| ==> views[i] == views[1..][i - 1];
      var here := if |views[0]| > 0 then [PostureFields(g, gate, views[0], headChain)] else [];
      assert |here + rest| == 0 <==> |views[0]| == 0 && |rest| == 0;
      here + rest
  }

  /** One view with keypoints gives exactly its own posture fields. */
  lemma SingleViewMetrics(g: Geometry, gate: Gate, headChain: seq<string>, v: seq<Keypoint>)
    requires ValidGeometry(g) && |v| > 0
    ensures ViewMetrics(g, gate, headChain, [v]) == [PostureFields(g, gate, v, headChain)]
  {
    assert [v][1..] == [];
  }

  /** The first view's records come first. */
  lemma ViewMetricsCons(g: Geometry, gate: Gate, headChain: seq<string>, views: seq<seq<Keypoint>>)
    requires ValidGeometry(g) && |views| > 0
    ensures ViewMetrics(g, gate, headChain, views)
            == ViewMetrics(g, gate, headChain, views[..1]) + ViewMetrics(g, gate, headChain, views[1..])
  {
    assert views[..1][1..] == [];
  }

  /** The views' records are those of the first views followed by those of
      the rest: `collectMetrics` handles each view on its own. */
  lemma {:induction false} ViewMetricsAppend(g: Geometry, gate: Gate, headChain: seq<string>,
                                             a: seq<seq<Keypoint>>, b: seq<seq<Keypoint>>)
    requires ValidGeometry(g)
    ensures ViewMetrics(g, gate, headChain, a + b)
            == ViewMetrics(g, gate, headChain, a) + ViewMetrics(g, gate, headChain, b)
  {
    if |a| > 0 {
      assert (a + b)[..1] == a[..1] && (a + b)[1..] == a[1..] + b;
      ViewMetricsCons(g, gate, headChain, a + b);
      ViewMetricsCons(g, gate, headChain, a);
      ViewMetricsAppend(g, gate, headChain, a[1..], b);
      AppendAssoc(ViewMetrics(g, gate, headChain, a[..1]), ViewMetrics(g, gate, headChain, a[1..]),
                  ViewMetrics(g, gate, headChain, b));
    } else {
      assert a + b == b;
    }
  }

  lemma AppendAssoc<T>(x: seq<T>, y: seq<T>, z: seq<T>)
    ensures x + (y + z) == (x + y) + z
  {
  }

  /** A view without keypoints contributes no record. */
  lemma EmptyViewMetrics(g: Geometry, gate: Gate, headChain: seq<string>)
    requires ValidGeometry(g)
    ensures ViewMetrics(g, gate, headChain, [[]]) == []
  {
    var views: seq<seq<Keypoint>> := [[]];
    assert views[1..] == [];
  }

  /** Each field's sum over the views divided by the number of views; no
      fusion at all without a view. */
  function FuseViews(ms: seq<Metrics>): (r: Option<Fused>)
    ensures r.Some? <==> |ms| > 0
  {
    if |ms| == 0 then None
    else
      var n := |ms| as real;
      Some(Fused(SumBy(ms, ShoulderOrZero) / n, SumBy(ms, HipOrZero) / n,
                 SumBy(ms, HeadOrZero) / n, SumBy(ms, TorsoOrZero) / n))
  }

  lemma {:induction false} SumByBounds(ms: seq<Metrics>, f: Metrics -> real, lo: real, hi: real)
    requires forall i :: 0 <= i < |ms| ==> lo <= f(ms[i]) <= hi
    ensures lo * |ms| as real <= SumBy(ms, f) <= hi * |ms| as real
  {
    if |ms| > 0 {
      var k := |ms| - 1;
      SumByBounds(ms[..k], f, lo, hi);
      assert SumBy(ms, f) == SumBy(ms[..k], f) + f(ms[k]);
      assert |ms| as real == 1.0 + k as real;
      ScaleStep(lo, k as real);
      ScaleStep(hi, k as real);
    }
  }

  lemma {:induction false} SumByAtLeastZero(ms: seq<Metrics>, f: Metrics -> real)
    requires forall i :: 0 <= i < |ms| ==> 0.0 <= f(ms[i])
    ensures 0.0 <= SumBy(ms, f)
  {
    if |ms| > 0 {
      SumByAtLeastZero(ms[..|ms| - 1], f);
    }
  }

  lemma MeanBetween(s: real, n: real, lo: real, hi: real)
    requires n > 0.0 && lo * n <= s <= hi * n
    ensures lo <= s / n <= hi
  {
    var m := s / n;
    assert m * n == s;
    ScaledCompare(m, n, lo);
    ScaledCompare(m, n, hi);
  }

  /** The mean of one field over the views lies in the field's range. */
  lemma MeanInRange(ms: seq<Metrics>, f: Metrics -> real, lo: real, hi: real)
    requires |ms| > 0 && forall i :: 0 <= i < |ms| ==> lo <= f(ms[i]) <= hi
    ensures lo <= SumBy(ms, f) / |ms| as real <= hi
  {
    SumByBounds(ms, f, lo, hi);
    MeanBetween(SumBy(ms, f), |ms| as real, lo, hi);
  }

  /** Fusing in-range views gives tilts in [0, 45], a non-negative head
      offset and a torso difference in [0, 1]. */
  lemma FusedInRange(ms: seq<Metrics>)
    requires forall i :: 0 <= i < |ms| ==> InRange(ms[i])
    ensures FuseViews(ms).Some? ==>
              var f := FuseViews(ms).value;
              && 0.0 <= f.shoulderTilt <= MaxTilt && 0.0 <= f.hipTilt <= MaxTilt
              && 0.0 <= f.forwardHead && 0.0 <= f.torsoDiffPct <= 1.0
  {
    if |ms| > 0 {
      MeanInRange(ms, ShoulderOrZero, 0.0, MaxTilt);
      MeanInRange(ms, HipOrZero, 0.0, MaxTilt);
      SumByAtLeastZero(ms, HeadOrZero);
      MeanInRange(ms, TorsoOrZero, 0.0, 1.0);
    }
  }

  /** A single fully populated view fuses to its own values. */
  lemma SingleViewFusesToItself(m: Metrics)
    requires m.shoulderTilt.Some? && m.hipTilt.Some? && m.forwardHead.Some?
    requires m.symmetry.Some? && m.symmetry.value.torsoDiffPct.Some?
    ensures FuseViews([m]) == Some(Fused(m.shoulderTilt.value, m.hipTilt.value, m.forwardHead.value,
                                         m.symmetry.value.torsoDiffPct.value))
  {
    assert [m][..0] == [];
    assert SumBy([m], ShoulderOrZero) == ShoulderOrZero(m);
    assert SumBy([m], HipOrZero) == HipOrZero(m);
    assert SumBy([m], HeadOrZero) == HeadOrZero(m);
    assert SumBy([m], TorsoOrZero) == TorsoOrZero(m);
  }

  /** A single view that is level, has its head over the shoulders and
      equal torso sides fuses to zeros and scores 100 on both scores. */
  lemma LevelViewScoresFull(m: Metrics)
    requires m.shoulderTilt == Some(0.0) && m.hipTilt == Some(0.0) && m.forwardHead == Some(0.0)
    requires TorsoOrZero(m) == 0.0
    ensures FuseViews([m]) == Some(Fused(0.0, 0.0, 0.0, 0.0))
    ensures PostureScore(FuseViews([m]).value) == 100 && SymmetryScore(FuseViews([m]).value) == 100
  {
    assert [m][..0] == [];
    assert SumBy([m], ShoulderOrZero) == 0.0;
    assert SumBy([m], HipOrZero) == 0.0;
    assert SumBy([m], HeadOrZero) == 0.0;
    assert SumBy([m], TorsoOrZero) == 0.0;
  }

  /** Unlike the high-accuracy average, a view that lacks a field still
      counts in the divisor: 4 degrees and a missing tilt fuse to 2. */
  lemma MissingFieldStillCounts(m1: Metrics, m2: Metrics)
    requires m1.shoulderTilt == Some(4.0) && m2.shoulderTilt.None?
    ensures FuseViews([m1, m2]).value.shoulderTilt == 2.0
  {
    assert [m1, m2][..1] == [m1];
    assert [m1][..0] == [];
    assert SumBy([m1], ShoulderOrZero) == 4.0;
    assert SumBy([m1, m2], ShoulderOrZero) == 4.0;
  }

  // ---------------------------------------------------------------------
  // Scores

  /** `score(val, good)`: 100 at or below zero error, falling linearly to 0
      at the `good` threshold, rounded. */
  function Score(val: real, good: real): (r: int)
    requires good > 0.0
    ensures 0 <= r <= 100
    ensures val <= 0.0 ==> r == 100
    ensures val >= good ==> r == 0
  {
    var pct := Max(0.0, 1.0 - val / good);
    var x := Max(0.0, Min(1.0, pct)) * 100.0;
    RoundOfInt(100);
    RoundOfInt(0);
    Round(x)
  }

  /** A larger error never scores higher. */
  lemma ScoreMonotone(v1: real, v2: real, good: real)
    requires good > 0.0 && v1 <= v2
    ensures Score(v2, good) <= Score(v1, good)
  {
    assert v1 / good <= v2 / good;
    RoundMonotone(Max(0.0, Min(1.0, Max(0.0, 1.0 - v2 / good))) * 100.0,
                  Max(0.0, Min(1.0, Max(0.0, 1.0 - v1 / good))) * 100.0);
  }

  /** Thresholds: 2 degrees for each tilt, 5% for head offset and torso. */
  const TiltGood: real := 2.0
  const PercentGood: real := 5.0

  /** The rounded mean of the shoulder, hip and head scores. */
  function PostureScore(f: Fused): (r: int)
    ensures 0 <= r <= 100
    ensures f.shoulderTilt == 0.0 && f.hipTilt == 0.0 && f.forwardHead <= 0.0 ==> r == 100
  {
    var total := Score(Abs(f.shoulderTilt), TiltGood) + Score(Abs(f.hipTilt), TiltGood)
                 + Score(f.forwardHead * 100.0, PercentGood);
    RoundOfInt(100);
    RoundMonotone(total as real / 3.0, 100.0);
    Round(total as real / 3.0)
  }

  /** The torso score, rounded once more (a no-op on an integer). */
  function SymmetryScore(f: Fused): (r: int)
    ensures 0 <= r <= 100
    ensures r == Score(f.torsoDiffPct * 100.0, PercentGood)
  {
    RoundOfInt(Score(f.torsoDiffPct * 100.0, PercentGood));
    Round(Score(f.torsoDiffPct * 100.0, PercentGood) as real)
  }

  /** The fallback copy's posture score: the same decay, with no upper clamp
      per component and a single rounding of the mean. */
  function FallbackPostureScore(f: Fused): (r: int)
    ensures r >= 0
    ensures f.forwardHead >= 0.0 ==> r <= 100
    ensures f.shoulderTilt == 0.0 && f.hipTilt == 0.0 && f.forwardHead == 0.0 ==> r == 100
  {
    var s := Max(0.0, 1.0 - Abs(f.shoulderTilt) / TiltGood) * 100.0;
    var h := Max(0.0, 1.0 - Abs(f.hipTilt) / TiltGood) * 100.0;
    var d := Max(0.0, 1.0 - (f.forwardHead * 100.0) / PercentGood) * 100.0;
    RoundOfInt(100);
    RoundOfInt(0);
    Round((s + h + d) / 3.0)
  }

  /** The fallback copy's symmetry score. */
  function FallbackSymmetryScore(f: Fused): (r: int)
    ensures r >= 0
    ensures f.torsoDiffPct >= 0.0 ==> r <= 100
  {
    var x := Max(0.0, 1.0 - (f.torsoDiffPct * 100.0) / PercentGood) * 100.0;
    RoundOfInt(100);
    RoundOfInt(0);
    Round(x)
  }

  /** For a non-negative torso difference the two copies agree on the
      symmetry score. */
  lemma SymmetryScoresAgree(f: Fused)
    requires f.torsoDiffPct >= 0.0
    ensures SymmetryScore(f) == FallbackSymmetryScore(f)
  {
    var x := 1.0 - (f.torsoDiffPct * 100.0) / PercentGood;
    assert x <= 1.0;
    assert Min(1.0, Max(0.0, x)) == Max(0.0, x);
  }

  // ---------------------------------------------------------------------
  // Photo quality

  newtype byte = x: int | 0 <= x < 256

  /** Luma of one RGBA pixel, with the ITU-R BT.709 weights. */
  function PixelLuma(r: byte, g: byte, b: byte): (y: real)
    ensures 0.0 <= y <= 255.0
  {
    0.2126 * r as real + 0.7152 * g as real + 0.0722 * b as real
  }

  /** The luma of the pixels in an RGBA buffer, summed front to back. */
  function LumaSum(d: seq<byte>): real
    requires |d| % 4 == 0
  {
    if |d| == 0 then 0.0
    else LumaSum(d[..|d| - 4]) + PixelLuma(d[|d| - 4], d[|d| - 3], d[|d| - 2])
  }

  lemma {:induction false} LumaSumBounds(d: seq<byte>)
    requires |d| % 4 == 0
    ensures 0.0 <= LumaSum(d) <= 255.0 * (|d| / 4) as real
  {
    if |d| > 0 {
      LumaSumBounds(d[..|d| - 4]);
    }
  }

  /** The mean luma scaled to [0, 1]; an empty buffer gives 0/0 = NaN. */
  function MeanLuma(d: seq<byte>): (luma: JsNumber)
    requires |d| % 4 == 0
    ensures |d| == 0 <==> luma == NaN
    ensures |d| > 0 ==> luma.Finite? && 0.0 <= luma.v <= 1.0
  {
    if |d| == 0 then NaN
    else
      LumaSumBounds(d);
      var pixels := (|d| / 4) as real;
      MeanBetween(LumaSum(d), pixels, 0.0, 255.0);
      Finite(LumaSum(d) / pixels / 255.0)
  }

  /** `quickLuma`: one pass over the RGBA buffer, four bytes per pixel. */
  method QuickLuma(data: array<byte>) returns (luma: JsNumber)
    requires data.Length % 4 == 0
    ensures luma == MeanLuma(data[..])
  {
    var s := 0.0;
    var i := 0;
    while i < data.Length
      invariant 0 <= i <= data.Length && i % 4 == 0
      invariant s == LumaSum(data[..i])
    {
      assert data[..i + 4][..i] == data[..i];
      s := s + 0.2126 * data[i] as real + 0.7152 * data[i + 1] as real + 0.0722 * data[i + 2] as real;
      i := i + 4;
    }
    assert data[..i] == data[..];
    var pixels := (data.Length / 4) as real;
    var mean := Divide(s, pixels);
    luma := if mean.Finite? then Finite(mean.v / 255.0) else mean;
  }

  const DarkBelow: real := 0.25
  const BrightAbove: real := 0.95
  const CenterLow: real := 0.3
  const CenterHigh: real := 0.7

  datatype Issue = TooDark | TooBright | NoPerson | OffCenter

  /** `centerDetect`: the shoulder midpoint, only when both shoulders pass
      this copy's confidence gate. */
  function CenterDetect(kps: seq<Keypoint>): (c: Option<Point>)
    ensures c.Some? <==> Key(Strict, kps, "left_shoulder").Some? && Key(Strict, kps, "right_shoulder").Some?
    ensures c.Some? ==> c.value.x == (Key(Strict, kps, "left_shoulder").value.x + Key(Strict, kps, "right_shoulder").value.x) / 2.0
  {
    var ls := Key(Strict, kps, "left_shoulder");
    var rs := Key(Strict, kps, "right_shoulder");
    if ls.Some? && rs.Some? then Some(Point((ls.value.x + rs.value.x) / 2.0, (ls.value.y + rs.value.y) / 2.0))
    else None
  }

  /** The fallback copy's framing point: the first shoulder keypoints with
      no confidence gate at all. */
  function FallbackCenter(kps: seq<Keypoint>): (c: Option<Point>)
    ensures c.Some? <==> FindFirst(kps, "left_shoulder").Some? && FindFirst(kps, "right_shoulder").Some?
  {
    match (FindFirst(kps, "left_shoulder"), FindFirst(kps, "right_shoulder"))
    case (Some(i), Some(j)) => Some(Point((kps[i].x + kps[j].x) / 2.0, (kps[i].y + kps[j].y) / 2.0))
    case _ => None
  }

  /** The checks of one view, in the order they are reported. The centre
      test divides by the image width as JavaScript does, so a zero width
      flags any centre off the left edge and lets x = 0 (NaN) through. */
  function ViewIssues(luma: JsNumber, personFound: bool, center: Option<Point>, width: real): (issues: seq<Issue>)
    ensures TooDark in issues <==> luma.Below(DarkBelow)
    ensures TooBright in issues <==> luma.Above(BrightAbove)
    ensures NoPerson in issues <==> !personFound
    ensures OffCenter in issues <==>
              center.Some? && (Divide(center.value.x, width).Below(CenterLow) || Divide(center.value.x, width).Above(CenterHigh))
    ensures width > 0.0 && center.Some? ==>
              (OffCenter in issues <==> center.value.x < CenterLow * width || center.value.x > CenterHigh * width)
  {
    DivideCompare(center.GetOr(Point(0.0, 0.0)).x, width, CenterLow);
    DivideCompare(center.GetOr(Point(0.0, 0.0)).x, width, CenterHigh);
    (if luma.Below(DarkBelow) then [TooDark] else [])
    + (if luma.Above(BrightAbove) then [TooBright] else [])
    + (if !personFound then [NoPerson] else [])
    + (match center
       case Some(c) =>
         var cx := Divide(c.x, width);
         if cx.Below(CenterLow) || cx.Above(CenterHigh) then [OffCenter] else []
       case None => [])
  }

  lemma DivideCompare(x: real, w: real, c: real)
    ensures w > 0.0 ==> (x / w < c <==> x < c * w) && (x / w > c <==> x > c * w)
  {
    if w > 0.0 {
      assert x == (x / w) * w;
    }
  }

  /** No view is ever reported both too dark and too bright. */
  lemma NeverDarkAndBright(luma: JsNumber, personFound: bool, center: Option<Point>, width: real)
    ensures !(TooDark in ViewIssues(luma, personFound, center, width)
              && TooBright in ViewIssues(luma, personFound, center, width))
  {
  }
}
