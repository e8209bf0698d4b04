/** The primary copy of the Body Scan pipeline (assets/js/scan.js): its
    metric record, the text recommendations, and the high-accuracy mode
    that re-runs the estimator and averages the results. */
module Scan {
  import opened Wrappers
  import opened JsMath
  import opened Pose
  import Guided

  /** The metric record of this copy: the shared posture fields plus the
      unclamped absolute tilts kept for deltas. */
  datatype ScanMetrics = ScanMetrics(metrics: Metrics, shoulderTiltRaw: Option<real>, hipTiltRaw: Option<real>)

  /** Head landmark fallback of this copy: nose, then left ear or left eye,
      then right ear or right eye. */
  const HeadChain: seq<string> := ["nose", "left_ear", "left_eye", "right_ear", "right_eye"]

  /** `computeMetricsFromKeypoints` (scan.js). */
  function ComputeMetrics(g: Geometry, kps: seq<Keypoint>): (r: ScanMetrics)
    requires ValidGeometry(g)
    ensures InRange(r.metrics)
    ensures r.shoulderTiltRaw.Some? <==> r.metrics.shoulderTilt.Some?
    ensures r.hipTiltRaw.Some? <==> r.metrics.hipTilt.Some?
    ensures r.shoulderTiltRaw.Some? ==>
              (r.shoulderTiltRaw.value >= 0.0 && r.metrics.shoulderTilt.value == Min(MaxTilt, r.shoulderTiltRaw.value))
    ensures r.hipTiltRaw.Some? ==>
              (r.hipTiltRaw.value >= 0.0 && r.metrics.hipTilt.value == Min(MaxTilt, r.hipTiltRaw.value))
    ensures r.metrics.shoulderTilt.Some? <==> Key(Strict, kps, "left_shoulder").Some? && Key(Strict, kps, "right_shoulder").Some?
    ensures r.metrics.hipTilt.Some? <==> Key(Strict, kps, "left_hip").Some? && Key(Strict, kps, "right_hip").Some?
    ensures r.metrics.symmetry.Some? <==> r.metrics.shoulderTilt.Some? && r.metrics.hipTilt.Some?
  {
    var ls := Key(Strict, kps, "left_shoulder");
    var rs := Key(Strict, kps, "right_shoulder");
    var lh := Key(Strict, kps, "left_hip");
    var rh := Key(Strict, kps, "right_hip");
    ScanMetrics(PostureFields(g, Strict, kps, HeadChain), TiltRaw(g, ls, rs), TiltRaw(g, lh, rh))
  }

  /** When the nose is missing, this copy measures the head from the left
      ear even when a left eye is also present. */
  lemma EarBeforeEye(g: Geometry, kps: seq<Keypoint>, ls: Point, rs: Point, ear: Point)
    requires ValidGeometry(g)
    requires Key(Strict, kps, "left_shoulder") == Some(ls) && Key(Strict, kps, "right_shoulder") == Some(rs)
    requires Key(Strict, kps, "nose").None? && Key(Strict, kps, "left_ear") == Some(ear)
    ensures ComputeMetrics(g, kps).metrics.forwardHead
            == Some(Abs(ear.x - (ls.x + rs.x) / 2.0) / ShoulderWidth(g, ls, rs))
  {
    HeadFromSecond(g, Strict, kps, HeadChain, ls, rs, ear);
  }

  /** A level shoulder line with the left shoulder on the left reads 0. */
  lemma LevelShouldersReadZero(g: Geometry, kps: seq<Keypoint>, ls: Point, rs: Point)
    requires ValidGeometry(g) && AtanFacts(g)
    requires Key(Strict, kps, "left_shoulder") == Some(ls) && Key(Strict, kps, "right_shoulder") == Some(rs)
    requires ls.y == rs.y && ls.x < rs.x
    ensures ComputeMetrics(g, kps).metrics.shoulderTilt == Some(0.0)
    ensures ComputeMetrics(g, kps).shoulderTiltRaw == Some(0.0)
  {
    assert g.atan2Degrees(0.0, rs.x - ls.x) == 0.0;
  }

  /** As written, a level shoulder line whose left shoulder lies to the
      right of the right one (a mirrored image) gives atan2 = 180 degrees,
      which the clamp turns into the maximum tilt of 45. */
  lemma MirroredLevelShouldersReadMaxTilt(g: Geometry, kps: seq<Keypoint>, ls: Point, rs: Point)
    requires ValidGeometry(g) && AtanFacts(g)
    requires Key(Strict, kps, "left_shoulder") == Some(ls) && Key(Strict, kps, "right_shoulder") == Some(rs)
    requires ls.y == rs.y && ls.x > rs.x
    ensures ComputeMetrics(g, kps).metrics.shoulderTilt == Some(MaxTilt)
  {
    assert g.atan2Degrees(0.0, rs.x - ls.x) >= 45.0;
  }

  // ---------------------------------------------------------------------
  // Recommendations

  const ShoulderAdvice := "Possible shoulder height asymmetry"
  const HipAdvice := "Possible pelvic tilt asymmetry"
  const HeadAdvice := "Possible forward head posture"
  const TorsoAdvice := "Possible lateral torso imbalance"

  /** `summarizeMetrics`: one recommendation per metric beyond its threshold
      (5 degrees of tilt, 0.15 head offset, 0.08 torso difference), in that
      order; absent metrics never produce one. */
  function SummarizeMetrics(m: Metrics): (recs: seq<string>)
    ensures ShoulderAdvice in recs <==> m.shoulderTilt.Some? && m.shoulderTilt.value > 5.0
    ensures HipAdvice in recs <==> m.hipTilt.Some? && m.hipTilt.value > 5.0
    ensures HeadAdvice in recs <==> m.forwardHead.Some? && m.forwardHead.value > 0.15
    ensures TorsoAdvice in recs <==> m.symmetry.Some? && m.symmetry.value.torsoDiffPct.Some?
                                     && m.symmetry.value.torsoDiffPct.value > 0.08
    ensures forall i :: 0 <= i < |recs| ==> recs[i] in {ShoulderAdvice, HipAdvice, HeadAdvice, TorsoAdvice}
    ensures forall i, j :: 0 <= i < j < |recs| ==> recs[i] != recs[j]
  {
    (if m.shoulderTilt.Some? && m.shoulderTilt.value > 5.0 then [ShoulderAdvice] else [])
    + (if m.hipTilt.Some? && m.hipTilt.value > 5.0 then [HipAdvice] else [])
    + (if m.forwardHead.Some? && m.forwardHead.value > 0.15 then [HeadAdvice] else [])
    + (if m.symmetry.Some? && m.symmetry.value.torsoDiffPct.Some? && m.symmetry.value.torsoDiffPct.value > 0.08
       then [TorsoAdvice] else [])
  }

  // ---------------------------------------------------------------------
  // High-accuracy averaging

  /** Number of extra estimator runs in high-accuracy mode. */
  const HiAccRuns: nat := 4

  /** The metrics of the runs that found a person, in run order. */
  function SamplesOf(g: Geometry, runs: seq<seq<Keypoint>>): (s: seq<ScanMetrics>)
    requires ValidGeometry(g)
    ensures |s| <= |runs|
    ensures AllInRange(s)
  {
    if |runs| == 0 then []
    else
      var last := runs[|runs| - 1];
      SamplesOf(g, runs[..|runs| - 1]) + (if |last| > 0 then [ComputeMetrics(g, last)] else [])
  }

  /** The sample loop: the first result, then one sample per extra run that
      returned keypoints. The estimator's outputs are the input `runs`. */
  method CollectSamples(g: Geometry, first: ScanMetrics, runs: seq<seq<Keypoint>>) returns (samples: seq<ScanMetrics>)
    requires ValidGeometry(g) && |runs| == HiAccRuns
    ensures samples == [first] + SamplesOf(g, runs)
    ensures 1 <= |samples| <= HiAccRuns + 1 && samples[0] == first
  {
    samples := [first];
    var i := 0;
    while i < HiAccRuns
      invariant 0 <= i <= HiAccRuns
      invariant samples == [first] + SamplesOf(g, runs[..i])
    {
      SamplesOfNext(g, runs, i);
      if |runs[i]| > 0 {
        samples := samples + [ComputeMetrics(g, runs[i])];
      }
      i := i + 1;
    }
    assert runs[..HiAccRuns] == runs;
  }

  /** One more run extends the samples by its metrics when it found a person. */
  lemma SamplesOfNext(g: Geometry, runs: seq<seq<Keypoint>>, i: nat)
    requires ValidGeometry(g) && i < |runs|
    ensures SamplesOf(g, runs[..i + 1])
            == SamplesOf(g, runs[..i]) + (if |runs[i]| > 0 then [ComputeMetrics(g, runs[i])] else [])
  {
    assert runs[..i + 1][..i] == runs[..i];
  }

  function CountPresent(vs: seq<Option<real>>): nat {
    if |vs| == 0 then 0 else (if vs[0].Some? then 1 else 0) + CountPresent(vs[1..])
  }

  function SumPresent(vs: seq<Option<real>>): real {
    if |vs| == 0 then 0.0 else (if vs[0].Some? then vs[0].value else 0.0) + SumPresent(vs[1..])
  }

  lemma {:induction false} CountZeroIffNone(vs: seq<Option<real>>)
    ensures CountPresent(vs) == 0 <==> forall i :: 0 <= i < |vs| ==> vs[i].None?
  {
    if |vs| > 0 {
      CountZeroIffNone(vs[1..]);
      assert forall i :: 1 <= i < |vs| ==> vs[i] == vs[1..][i - 1];
    }
  }

  /** The hi-acc `avg`: the mean of the finite samples, null when none. */
  function Avg(vs: seq<Option<real>>): (r: Option<real>)
    ensures r.None? <==> forall i :: 0 <= i < |vs| ==> vs[i].None?
  {
    CountZeroIffNone(vs);
    if CountPresent(vs) == 0 then None else Some(SumPresent(vs) / CountPresent(vs) as real)
  }

  lemma {:induction false} SumBounds(vs: seq<Option<real>>, lo: real, hi: real)
    requires forall i :: 0 <= i < |vs| && vs[i].Some? ==> lo <= vs[i].value <= hi
    ensures lo * CountPresent(vs) as real <= SumPresent(vs) <= hi * CountPresent(vs) as real
  {
    SumAtLeast(vs, lo);
    SumAtMost(vs, hi);
  }

  lemma {:induction false} SumAtLeast(vs: seq<Option<real>>, lo: real)
    requires forall i :: 0 <= i < |vs| && vs[i].Some? ==> lo <= vs[i].value
    ensures lo * CountPresent(vs) as real <= SumPresent(vs)
  {
    if |vs| > 0 {
      var tail := vs[1..];
      assert forall i :: 0 <= i < |tail| ==> tail[i] == vs[i + 1];
      SumAtLeast(tail, lo);
      var n, c := CountPresent(vs) as real, CountPresent(tail) as real;
      if vs[0].Some? {
        assert n == 1.0 + c;
        ScaleStep(lo, c);
        SameScale(lo, n, 1.0 + c);
      } else {
        SameScale(lo, n, c);
      }
    }
  }

  lemma {:induction false} SumAtMost(vs: seq<Option<real>>, hi: real)
    requires forall i :: 0 <= i < |vs| && vs[i].Some? ==> vs[i].value <= hi
    ensures SumPresent(vs) <= hi * CountPresent(vs) as real
  {
    if |vs| > 0 {
      var tail := vs[1..];
      assert forall i :: 0 <= i < |tail| ==> tail[i] == vs[i + 1];
      SumAtMost(tail, hi);
      var n, c := CountPresent(vs) as real, CountPresent(tail) as real;
      if vs[0].Some? {
        assert n == 1.0 + c;
        ScaleStep(hi, c);
        SameScale(hi, n, 1.0 + c);
      } else {
        SameScale(hi, n, c);
      }
    }
  }

  lemma SameScale(k: real, a: real, b: real)
    requires a == b
    ensures k * a == k * b
  {
  }

  /** The average lies between the smallest and largest sample. */
  lemma AvgWithin(vs: seq<Option<real>>, lo: real, hi: real)
    requires forall i :: 0 <= i < |vs| && vs[i].Some? ==> lo <= vs[i].value <= hi
    ensures Avg(vs).Some? ==> lo <= Avg(vs).value <= hi
  {
    if CountPresent(vs) > 0 {
      SumBounds(vs, lo, hi);
      var c := CountPresent(vs) as real;
      DivideBetween(SumPresent(vs), c, lo, hi);
    }
  }

  lemma AvgAtLeast(vs: seq<Option<real>>, lo: real)
    requires forall i :: 0 <= i < |vs| && vs[i].Some? ==> lo <= vs[i].value
    ensures Avg(vs).Some? ==> lo <= Avg(vs).value
  {
    if CountPresent(vs) > 0 {
      SumAtLeast(vs, lo);
      var c := CountPresent(vs) as real;
      DivideBetween(SumPresent(vs), c, lo, SumPresent(vs) / c);
    }
  }

  lemma DivideBetween(s: real, c: real, lo: real, hi: real)
    requires c > 0.0 && lo * c <= s
    requires s <= hi * c || hi == s / c
    ensures lo <= s / c <= hi
  {
  }

  function ShoulderTilts(samples: seq<ScanMetrics>): seq<Option<real>> {
    seq(|samples|, i requires 0 <= i < |samples| => samples[i].metrics.shoulderTilt)
  }
  function HipTilts(samples: seq<ScanMetrics>): seq<Option<real>> {
    seq(|samples|, i requires 0 <= i < |samples| => samples[i].metrics.hipTilt)
  }
  function ForwardHeads(samples: seq<ScanMetrics>): seq<Option<real>> {
    seq(|samples|, i requires 0 <= i < |samples| => samples[i].metrics.forwardHead)
  }
  function TorsoDiffs(samples: seq<ScanMetrics>): seq<Option<real>> {
    seq(|samples|, i requires 0 <= i < |samples| =>
      if samples[i].metrics.symmetry.Some? then samples[i].metrics.symmetry.value.torsoDiffPct else None)
  }
  function ShoulderRaws(samples: seq<ScanMetrics>): seq<Option<real>> {
    seq(|samples|, i requires 0 <= i < |samples| => samples[i].shoulderTiltRaw)
  }
  function HipRaws(samples: seq<ScanMetrics>): seq<Option<real>> {
    seq(|samples|, i requires 0 <= i < |samples| => samples[i].hipTiltRaw)
  }

  /** The fused high-accuracy record: each field is the average of its
      finite samples; `symmetry` is always an object, even when every
      sample lacked it. */
  function HiAccuracyFuse(samples: seq<ScanMetrics>): (r: ScanMetrics)
    ensures r.metrics.symmetry.Some?
    ensures r.metrics.shoulderTilt.None? <==> forall i :: 0 <= i < |samples| ==> samples[i].metrics.shoulderTilt.None?
    ensures r.metrics.hipTilt.None? <==> forall i :: 0 <= i < |samples| ==> samples[i].metrics.hipTilt.None?
    ensures r.metrics.forwardHead.None? <==> forall i :: 0 <= i < |samples| ==> samples[i].metrics.forwardHead.None?
    ensures r.metrics.symmetry.value.torsoDiffPct.None? <==>
              forall i :: 0 <= i < |samples| ==>
                samples[i].metrics.symmetry.None? || samples[i].metrics.symmetry.value.torsoDiffPct.None?
    ensures r.shoulderTiltRaw.None? <==> forall i :: 0 <= i < |samples| ==> samples[i].shoulderTiltRaw.None?
    ensures r.hipTiltRaw.None? <==> forall i :: 0 <= i < |samples| ==> samples[i].hipTiltRaw.None?
  {
    AvgNoneExactly(ShoulderRaws(samples), samples, (s: ScanMetrics) => s.shoulderTiltRaw.None?);
    AvgNoneExactly(HipRaws(samples), samples, (s: ScanMetrics) => s.hipTiltRaw.None?);
    ScanMetrics(FuseMetrics(samples), Avg(ShoulderRaws(samples)), Avg(HipRaws(samples)))
  }

  /** The fused metric fields of the high-accuracy record. */
  function FuseMetrics(samples: seq<ScanMetrics>): (m: Metrics)
    ensures m.symmetry.Some?
    ensures m.shoulderTilt.None? <==> forall i :: 0 <= i < |samples| ==> samples[i].metrics.shoulderTilt.None?
    ensures m.hipTilt.None? <==> forall i :: 0 <= i < |samples| ==> samples[i].metrics.hipTilt.None?
    ensures m.forwardHead.None? <==> forall i :: 0 <= i < |samples| ==> samples[i].metrics.forwardHead.None?
    ensures m.symmetry.value.torsoDiffPct.None? <==>
              forall i :: 0 <= i < |samples| ==>
                samples[i].metrics.symmetry.None? || samples[i].metrics.symmetry.value.torsoDiffPct.None?
  {
    AvgNoneExactly(ShoulderTilts(samples), samples, (s: ScanMetrics) => s.metrics.shoulderTilt.None?);
    AvgNoneExactly(HipTilts(samples), samples, (s: ScanMetrics) => s.metrics.hipTilt.None?);
    AvgNoneExactly(ForwardHeads(samples), samples, (s: ScanMetrics) => s.metrics.forwardHead.None?);
    Metrics(Avg(ShoulderTilts(samples)), Avg(HipTilts(samples)), Avg(ForwardHeads(samples)),
            Some(Symmetry(FuseTorso(samples))))
  }

  /** The fused torso difference: null exactly when no sample has one. */
  function FuseTorso(samples: seq<ScanMetrics>): (t: Option<real>)
    ensures t.None? <==>
              forall i :: 0 <= i < |samples| ==>
                samples[i].metrics.symmetry.None? || samples[i].metrics.symmetry.value.torsoDiffPct.None?
  {
    AvgNoneExactly(TorsoDiffs(samples), samples,
                   (s: ScanMetrics) => s.metrics.symmetry.None? || s.metrics.symmetry.value.torsoDiffPct.None?);
    Avg(TorsoDiffs(samples))
  }

  /** A field's average is null exactly when the field is null in every
      sample. */
  lemma AvgNoneExactly(vs: seq<Option<real>>, samples: seq<ScanMetrics>, isNull: ScanMetrics -> bool)
    requires |vs| == |samples|
    requires forall i :: 0 <= i < |vs| ==> (vs[i].None? <==> isNull(samples[i]))
    ensures Avg(vs).None? <==> forall i :: 0 <= i < |samples| ==> isNull(samples[i])
  {
  }

  /** Averaging keeps every bound of the metric record. */
  lemma HiAccuracyFuseInRange(samples: seq<ScanMetrics>)
    requires forall i :: 0 <= i < |samples| ==> InRange(samples[i].metrics)
    ensures InRange(HiAccuracyFuse(samples).metrics)
  {
    AvgWithin(ShoulderTilts(samples), 0.0, MaxTilt);
    AvgWithin(HipTilts(samples), 0.0, MaxTilt);
    AvgAtLeast(ForwardHeads(samples), 0.0);
    AvgWithin(TorsoDiffs(samples), 0.0, 1.0);
  }

  /** Every sample of a sequence is in range. */
  predicate AllInRange(samples: seq<ScanMetrics>) {
    forall i :: 0 <= i < |samples| ==> InRange(samples[i].metrics)
  }

  /** High-accuracy mode end to end: whatever the extra runs return, the
      fused record stays in range. */
  lemma HiAccuracyInRange(g: Geometry, kps: seq<Keypoint>, runs: seq<seq<Keypoint>>)
    requires ValidGeometry(g)
    ensures InRange(HiAccuracyFuse([ComputeMetrics(g, kps)] + SamplesOf(g, runs)).metrics)
  {
    var head := ComputeMetrics(g, kps);
    var tail := SamplesOf(g, runs);
    var s := [head] + tail;
    forall i | 0 <= i < |s|
      ensures InRange(s[i].metrics)
    {
      if i > 0 {
        assert s[i] == tail[i - 1];
      }
    }
    HiAccuracyFuseInRange(s);
  }

  /** Averaging agreeing samples changes nothing. */
  lemma AvgOfEqualSamples(vs: seq<Option<real>>, v: real)
    requires forall i :: 0 <= i < |vs| ==> vs[i] == Some(v)
    ensures |vs| > 0 ==> Avg(vs) == Some(v)
  {
    AvgWithin(vs, v, v);
  }

  // ---------------------------------------------------------------------
  // Guided capture

  /** The posture and symmetry scores of a guided capture, or none when no
      view found a person. */
  function GuidedScores(g: Geometry, views: seq<seq<Keypoint>>): (r: Option<(int, int)>)
    requires ValidGeometry(g)
    ensures r.None? <==> forall i :: 0 <= i < |views| ==> |views[i]| == 0
    ensures r.Some? ==> 0 <= r.value.0 <= 100 && 0 <= r.value.1 <= 100
  {
    match Guided.FuseViews(Guided.ViewMetrics(g, Strict, HeadChain, views))
    case None => None
    case Some(f) => Some((Guided.PostureScore(f), Guided.SymmetryScore(f)))
  }

  function Seen(n: string, x: real, y: real): Keypoint {
    Keypoint(Some(n), None, x, y, Some(0.9))
  }

  /** A square-on front photo: level shoulders and hips, the nose above the
      shoulder midpoint, every landmark seen with confidence 0.9. */
  const UprightFront: seq<Keypoint> :=
    [Seen("nose", 200.0, 190.0),
     Seen("left_shoulder", 100.0, 200.0), Seen("right_shoulder", 300.0, 200.0),
     Seen("left_hip", 110.0, 400.0), Seen("right_hip", 290.0, 400.0)]

  /** The landmarks of the upright front photo, as `key` finds them. */
  lemma UprightFrontLandmarks()
    ensures Key(Strict, UprightFront, "nose") == Some(Point(200.0, 190.0))
    ensures Key(Strict, UprightFront, "left_shoulder") == Some(Point(100.0, 200.0))
    ensures Key(Strict, UprightFront, "right_shoulder") == Some(Point(300.0, 200.0))
    ensures Key(Strict, UprightFront, "left_hip") == Some(Point(110.0, 400.0))
    ensures Key(Strict, UprightFront, "right_hip") == Some(Point(290.0, 400.0))
  {
    var kps := UprightFront;
    KeyAtFirstMatch(Strict, kps, 0, "nose");
    KeyAtFirstMatch(Strict, kps, 1, "left_shoulder");
    KeyAtFirstMatch(Strict, kps, 2, "right_shoulder");
    KeyAtFirstMatch(Strict, kps, 3, "left_hip");
    KeyAtFirstMatch(Strict, kps, 4, "right_hip");
  }

  /** Its metrics: no tilt, no head offset, no torso difference. */
  lemma UprightFrontMetrics(g: Geometry)
    requires ValidGeometry(g) && AtanFacts(g)
    requires g.dist(Point(100.0, 200.0), Point(110.0, 400.0)) == g.dist(Point(300.0, 200.0), Point(290.0, 400.0))
    ensures var m := ComputeMetrics(g, UprightFront).metrics;
            && m.shoulderTilt == Some(0.0) && m.hipTilt == Some(0.0) && m.forwardHead == Some(0.0)
            && Guided.TorsoOrZero(m) == 0.0
  {
    UprightFrontLandmarks();
    var head := HeadCandidates(Strict, UprightFront, HeadChain);
    assert head[0] == Some(Point(200.0, 190.0));
    assert g.atan2Degrees(0.0, 200.0) == 0.0 && g.atan2Degrees(0.0, 180.0) == 0.0;
  }

  /** Level shoulders and hips, a centred head and torso sides of equal
      length score 100 on both posture and symmetry. */
  lemma UprightFrontScoresFull(g: Geometry)
    requires ValidGeometry(g) && AtanFacts(g)
    requires g.dist(Point(100.0, 200.0), Point(110.0, 400.0)) == g.dist(Point(300.0, 200.0), Point(290.0, 400.0))
    ensures GuidedScores(g, [UprightFront]) == Some((100, 100))
  {
    UprightFrontMetrics(g);
    var m := PostureFields(g, Strict, UprightFront, HeadChain);
    assert ComputeMetrics(g, UprightFront).metrics == m;
    Guided.SingleViewMetrics(g, Strict, HeadChain, UprightFront);
    Guided.LevelViewScoresFull(m);
  }
}
