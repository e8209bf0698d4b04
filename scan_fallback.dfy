/** The MediaPipe copy of the Body Scan pipeline (assets/js/scan-fallback.js):
    its metric record (which carries the limb balance), the adapter from
    MediaPipe's indexed landmarks, the estimation and display sizes, the
    best-of-N choice among repeated estimator runs, and guided capture. */
module ScanFallback {
  import opened Wrappers
  import opened JsMath
  import opened Pose
  import Overlay
  import Guided

  datatype FallbackMetrics = FallbackMetrics(metrics: Metrics, limb: Limb)

  /** Head landmark fallback of this copy: nose, then left eye or left ear,
      then right eye or right ear. */
  const HeadChain: seq<string> := ["nose", "left_eye", "left_ear", "right_eye", "right_ear"]

  /** `computeMetricsFromKeypoints` (scan-fallback.js): the posture fields
      under the gate that accepts a missing score, plus the limb record. */
  function ComputeMetrics(g: Geometry, kps: seq<Keypoint>): (r: FallbackMetrics)
    requires ValidGeometry(g)
    ensures InRange(r.metrics)
    ensures 0.0 <= r.limb.armDiff <= 1.0 && 0.0 <= r.limb.legDiff <= 1.0
    ensures r.metrics.shoulderTilt.Some? <==>
              Key(AllowMissingScore, kps, "left_shoulder").Some? && Key(AllowMissingScore, kps, "right_shoulder").Some?
    ensures r.metrics.hipTilt.Some? <==>
              Key(AllowMissingScore, kps, "left_hip").Some? && Key(AllowMissingScore, kps, "right_hip").Some?
    ensures r.metrics.symmetry.Some? <==> r.metrics.shoulderTilt.Some? && r.metrics.hipTilt.Some?
  {
    FallbackMetrics(PostureFields(g, AllowMissingScore, kps, HeadChain), LimbImbalance(g, AllowMissingScore, kps))
  }

  /** When the nose is missing, this copy measures the head from the left
      eye even when a left ear is also present. */
  lemma EyeBeforeEar(g: Geometry, kps: seq<Keypoint>, ls: Point, rs: Point, eye: Point)
    requires ValidGeometry(g)
    requires Key(AllowMissingScore, kps, "left_shoulder") == Some(ls)
    requires Key(AllowMissingScore, kps, "right_shoulder") == Some(rs)
    requires Key(AllowMissingScore, kps, "nose").None? && Key(AllowMissingScore, kps, "left_eye") == Some(eye)
    ensures ComputeMetrics(g, kps).metrics.forwardHead
            == Some(Abs(eye.x - (ls.x + rs.x) / 2.0) / ShoulderWidth(g, ls, rs))
  {
    HeadFromSecond(g, AllowMissingScore, kps, HeadChain, ls, rs, eye);
  }

  // ---------------------------------------------------------------------
  // MediaPipe adapter

  /** One MediaPipe landmark: normalised coordinates and an optional
      visibility. */
  datatype Landmark = Landmark(x: real, y: real, visibility: Option<real>)

  /** The 17 MediaPipe indices the adapter reads, with the names they get,
      in output order. */
  const MediaPipeNames: seq<(nat, string)> := [
    (11, "left_shoulder"), (12, "right_shoulder"), (23, "left_hip"), (24, "right_hip"),
    (13, "left_elbow"), (14, "right_elbow"), (15, "left_wrist"), (16, "right_wrist"),
    (25, "left_knee"), (26, "right_knee"), (27, "left_ankle"), (28, "right_ankle"),
    (0, "nose"), (7, "left_ear"), (8, "right_ear"), (2, "left_eye"), (5, "right_eye")]

  const DefaultVisibility: real := 0.9

  /** `landmarks[idx]`: absent past the end or where the entry is empty. */
  function LandmarkAt(lms: seq<Option<Landmark>>, idx: nat): Option<Landmark> {
    if idx < |lms| then lms[idx] else None
  }

  function Named(lm: Landmark, n: string): Keypoint {
    Keypoint(Some(n), None, lm.x, lm.y, Some(lm.visibility.GetOr(DefaultVisibility)))
  }

  /** The adapter over a table of (index, name) entries. */
  function Adapt(lms: seq<Option<Landmark>>, table: seq<(nat, string)>): (kps: seq<Keypoint>)
    ensures |kps| <= |table|
    ensures forall k :: k in kps ==> k.name.Some? && k.part.None? && k.score.Some?
  {
    if |table| == 0 then []
    else
      var (idx, n) := table[0];
      (match LandmarkAt(lms, idx) case Some(lm) => [Named(lm, n)] case None => [])
      + Adapt(lms, table[1..])
  }

  /** `toKeypointsFromMediaPipe`: null for a non-array, otherwise one named
      keypoint per present landmark of the table. */
  function ToKeypointsFromMediaPipe(landmarks: Option<seq<Option<Landmark>>>): (r: Option<seq<Keypoint>>)
    ensures r.Some? <==> landmarks.Some?
    ensures r.Some? ==> |r.value| <= |MediaPipeNames|
    ensures r.Some? ==>
              forall i :: 0 <= i < |MediaPipeNames| && LandmarkAt(landmarks.value, MediaPipeNames[i].0).None? ==>
                forall k :: k in r.value ==> k.name != Some(MediaPipeNames[i].1)
  {
    match landmarks
    case None => None
    case Some(lms) =>
      AbsentLandmarksGiveNoKeypoints(lms);
      Some(Adapt(lms, MediaPipeNames))
  }

  /** A name whose table entries all point at absent landmarks gives no
      keypoint of that name. */
  lemma {:induction false} AbsentLandmarkGivesNoKeypoint(lms: seq<Option<Landmark>>, table: seq<(nat, string)>, n: string)
    requires forall i :: 0 <= i < |table| && table[i].1 == n ==> LandmarkAt(lms, table[i].0).None?
    ensures forall k :: k in Adapt(lms, table) ==> k.name != Some(n)
  {
    if |table| > 0 {
      assert forall i :: 0 <= i < |table| - 1 ==> table[1..][i] == table[i + 1];
      AbsentLandmarkGivesNoKeypoint(lms, table[1..], n);
    }
  }

  /** Each name occurs once in MediaPipe's table, so a missing landmark
      leaves its name out of the adapted keypoints. */
  lemma AbsentLandmarksGiveNoKeypoints(lms: seq<Option<Landmark>>)
    ensures forall i :: 0 <= i < |MediaPipeNames| && LandmarkAt(lms, MediaPipeNames[i].0).None? ==>
              forall k :: k in Adapt(lms, MediaPipeNames) ==> k.name != Some(MediaPipeNames[i].1)
  {
    forall i | 0 <= i < |MediaPipeNames| && LandmarkAt(lms, MediaPipeNames[i].0).None?
      ensures forall k :: k in Adapt(lms, MediaPipeNames) ==> k.name != Some(MediaPipeNames[i].1)
    {
      assert forall j :: 0 <= j < |MediaPipeNames| && j != i ==> MediaPipeNames[j].1 != MediaPipeNames[i].1;
      AbsentLandmarkGivesNoKeypoint(lms, MediaPipeNames, MediaPipeNames[i].1);
    }
  }

  predicate NameNotBefore(table: seq<(nat, string)>, i: nat, n: string)
    requires i <= |table|
  {
    forall j :: 0 <= j < i ==> table[j].1 != n
  }

  /** Looking a name up in the adapted keypoints finds the landmark at that
      name's index, with its visibility (0.9 when missing) as the score. */
  lemma {:induction false} AdaptedLookup(gate: Gate, lms: seq<Option<Landmark>>, table: seq<(nat, string)>, i: nat)
    requires i < |table| && NameNotBefore(table, i, table[i].1)
    requires LandmarkAt(lms, table[i].0).Some?
    ensures var lm := LandmarkAt(lms, table[i].0).value;
            Key(gate, Adapt(lms, table), table[i].1)
            == if Passes(gate, Some(lm.visibility.GetOr(DefaultVisibility))) then Some(Point(lm.x, lm.y)) else None
  {
    var n := table[i].1;
    var (idx, n0) := table[0];
    var head := match LandmarkAt(lms, idx) case Some(lm) => [Named(lm, n0)] case None => [];
    var rest := Adapt(lms, table[1..]);
    assert Adapt(lms, table) == head + rest;
    if i == 0 {
      KeyIgnoresLaterDuplicates(gate, head, rest, n);
    } else {
      assert n0 != n;
      assert table[1..][i - 1] == table[i];
      AdaptedLookup(gate, lms, table[1..], i - 1);
      KeySkipsOtherNames(gate, head, rest, n);
    }
  }

  lemma KeySkipsOtherNames(gate: Gate, head: seq<Keypoint>, rest: seq<Keypoint>, n: string)
    requires forall k :: k in head ==> !Names(k, n)
    ensures Key(gate, head + rest, n) == Key(gate, rest, n)
  {
    FindFirstSkipsPrefix(head, rest, n);
  }

  /** Each of the 17 names occurs once in the table, so the shoulder and hip
      lookups see exactly MediaPipe's landmarks 11, 12, 23 and 24. */
  lemma ShoulderLookupUsesLandmark11(gate: Gate, lms: seq<Option<Landmark>>)
    requires LandmarkAt(lms, 11).Some?
    ensures var lm := LandmarkAt(lms, 11).value;
            Key(gate, ToKeypointsFromMediaPipe(Some(lms)).value, "left_shoulder")
            == if Passes(gate, Some(lm.visibility.GetOr(DefaultVisibility))) then Some(Point(lm.x, lm.y)) else None
  {
    AdaptedLookup(gate, lms, MediaPipeNames, 0);
  }

  lemma HipLookupUsesLandmark24(gate: Gate, lms: seq<Option<Landmark>>)
    requires LandmarkAt(lms, 24).Some?
    ensures var lm := LandmarkAt(lms, 24).value;
            Key(gate, ToKeypointsFromMediaPipe(Some(lms)).value, "right_hip")
            == if Passes(gate, Some(lm.visibility.GetOr(DefaultVisibility))) then Some(Point(lm.x, lm.y)) else None
  {
    assert NameNotBefore(MediaPipeNames, 3, "right_hip");
    AdaptedLookup(gate, lms, MediaPipeNames, 3);
  }

  // ---------------------------------------------------------------------
  // Estimation size and rescaling

  const MaxEstimationWidth: nat := 720

  /** The canvas size the estimator sees for a source of srcW x srcH pixels
      (0 when unknown): at most 720 wide, keeping the aspect ratio. */
  function EstimationSize(srcW: nat, srcH: nat): (size: (nat, nat))
    ensures 0 < size.0 <= MaxEstimationWidth
    ensures srcW == 0 ==> size == (MaxEstimationWidth, MaxEstimationWidth)
    ensures 0 < srcW <= MaxEstimationWidth ==> size.0 == srcW
    ensures srcW > MaxEstimationWidth ==> size.0 == MaxEstimationWidth
    ensures 0 < srcW <= MaxEstimationWidth && srcH > 0 ==> size.1 == srcH
    ensures srcW > 0 ==> Abs(size.1 as real - size.0 as real / srcW as real * (if srcH == 0 then size.0 else srcH) as real) <= 0.5
  {
    var targetW := if srcW == 0 then MaxEstimationWidth else if srcW < MaxEstimationWidth then srcW else MaxEstimationWidth;
    if srcW == 0 then (targetW, targetW)
    else
      var ratio := targetW as real / srcW as real;
      var height := (if srcH == 0 then targetW else srcH) as real;
      assert ratio > 0.0 && height >= 0.0;
      var exact := ratio * height;
      DivSelf(srcW as real);
      assert srcW <= MaxEstimationWidth ==> targetW == srcW && ratio == 1.0;
      RoundOfInt(srcH);
      (targetW, Round(exact) as nat)
  }

  lemma DivSelf(x: real)
    ensures x != 0.0 ==> x / x == 1.0
  {
  }

  /** The in-place scaling of the estimator's normalised keypoints to
      canvas pixels; skipped when either target side is 0. */
  method ScaleToCanvas(kps: array<Keypoint>, targetW: nat, targetH: nat)
    modifies kps
    ensures targetW == 0 || targetH == 0 ==> kps[..] == old(kps[..])
    ensures targetW != 0 && targetH != 0 ==>
              forall i :: 0 <= i < kps.Length ==>
                kps[i] == old(kps[i]).(x := old(kps[i]).x * targetW as real, y := old(kps[i]).y * targetH as real)
  {
    if targetW != 0 && targetH != 0 {
      for i := 0 to kps.Length
        invariant forall j :: 0 <= j < i ==>
                    kps[j] == old(kps[j]).(x := old(kps[j]).x * targetW as real, y := old(kps[j]).y * targetH as real)
        invariant forall j :: i <= j < kps.Length ==> kps[j] == old(kps[j])
      {
        kps[i] := kps[i].(x := kps[i].x * targetW as real, y := kps[i].y * targetH as real);
      }
    }
  }

  /** The overlay's rescale from the recorded estimation size to the base
      image size (w x h): only when a non-zero size was recorded and it
      differs; each copy is labelled `name || part` and keeps its score. */
  function RescaleForOverlay(kps: seq<Keypoint>, input: Option<(real, real)>, w: real, h: real): (r: seq<Keypoint>)
    ensures |r| == |kps|
    ensures !(input.Some? && input.value.0 != 0.0 && input.value.1 != 0.0 && (input.value.0 != w || input.value.1 != h))
            ==> r == kps
    ensures forall i :: 0 <= i < |kps| ==> r[i].score == kps[i].score
    ensures forall i :: 0 <= i < |kps| && Overlay.Label(kps[i]) != Some("") ==> Overlay.Label(r[i]) == Overlay.Label(kps[i])
    ensures input.Some? && input.value.0 != 0.0 && input.value.1 != 0.0 ==>
              forall i :: 0 <= i < |kps| ==>
                r[i].x * input.value.0 == kps[i].x * w && r[i].y * input.value.1 == kps[i].y * h
  {
    if input.Some? && input.value.0 != 0.0 && input.value.1 != 0.0 && (input.value.0 != w || input.value.1 != h) then
      var sx := w / input.value.0;
      var sy := h / input.value.1;
      seq(|kps|, i requires 0 <= i < |kps| =>
        Keypoint(Overlay.Label(kps[i]), None, kps[i].x * sx, kps[i].y * sy, kps[i].score))
    else kps
  }

  /** Estimation followed by the overlay's rescale puts every landmark at
      the same relative position of the base image: a landmark at
      normalised (u, v) ends up at (u * w, v * h). */
  lemma EstimateThenRescaleAligns(u: real, v: real, targetW: nat, targetH: nat, w: real, h: real)
    requires targetW != 0 && targetH != 0
    ensures var k := Keypoint(Some("nose"), None, u * targetW as real, v * targetH as real, Some(1.0));
            var r := RescaleForOverlay([k], Some((targetW as real, targetH as real)), w, h)[0];
            r.x == u * w && r.y == v * h
  {
    var k := Keypoint(Some("nose"), None, u * targetW as real, v * targetH as real, Some(1.0));
    var r := RescaleForOverlay([k], Some((targetW as real, targetH as real)), w, h)[0];
    assert r.x * targetW as real == u * targetW as real * w;
    assert r.y * targetH as real == v * targetH as real * h;
  }

  // ---------------------------------------------------------------------
  // Best-of-N

  const ImageRuns: nat := 3
  const VideoRuns: nat := 2

  /** Every score the estimator reported lies in [0, 1]. */
  predicate ScoresInUnit(kps: seq<Keypoint>) {
    forall k :: k in kps && k.score.Some? ==> 0.0 <= k.score.value <= 1.0
  }

  /** `k.find(p => p.name === n)?.score || 0`: the score of the first
      keypoint NAMED n (the `part` tag is not consulted); a missing keypoint
      or score counts as 0. */
  function NamedScore(kps: seq<Keypoint>, n: string): (s: real)
    ensures ScoresInUnit(kps) ==> 0.0 <= s <= 1.0
  {
    if |kps| == 0 then 0.0
    else if kps[0].name == Some(n) then kps[0].score.GetOr(0.0)
    else
      assert forall k :: k in kps[1..] ==> k in kps;
      NamedScore(kps[1..], n)
  }

  /** The confidence of a run: its shoulder and hip scores summed, between
      0 and 4 when the scores are in [0, 1]. */
  function RunScore(kps: seq<Keypoint>): (s: real)
    ensures ScoresInUnit(kps) ==> 0.0 <= s <= 4.0
  {
    NamedScore(kps, "left_shoulder") + NamedScore(kps, "right_shoulder")
    + NamedScore(kps, "left_hip") + NamedScore(kps, "right_hip")
  }

  /** A run that counts: one that returned a non-empty keypoint list. */
  predicate Usable(result: Option<seq<Keypoint>>) {
    result.Some? && |result.value| > 0
  }

  /** The runs that count, in the order they were made: failed, timed-out
      and empty runs are dropped. */
  function Kept(results: seq<Option<seq<Keypoint>>>): (runs: seq<seq<Keypoint>>)
    ensures |runs| <= |results|
    ensures forall r :: r in runs ==> |r| > 0 && Some(r) in results
    ensures forall i :: 0 <= i < |results| && Usable(results[i]) ==> results[i].value in runs
  {
    if |results| == 0 then []
    else
      var front, last := results[..|results| - 1], results[|results| - 1];
      assert forall x :: x in front ==> x in results;
      assert forall i :: 0 <= i < |results| - 1 ==> results[i] == front[i];
      Kept(front) + (if Usable(last) then [last.value] else [])
  }

  /** The loop that collects the runs. */
  method KeepRuns(results: seq<Option<seq<Keypoint>>>) returns (runs: seq<seq<Keypoint>>)
    ensures runs == Kept(results)
  {
    runs := [];
    for i := 0 to |results|
      invariant runs == Kept(results[..i])
    {
      assert results[..i + 1][..i] == results[..i];
      if Usable(results[i]) {
        runs := runs + [results[i].value];
      }
    }
    assert results[..|results|] == results;
  }

  /** Where the stable descending sort by RunScore puts its head: scanning
      in order, a run replaces the current best only when it scores
      strictly higher. */
  function BestIndex(runs: seq<seq<Keypoint>>): (i: nat)
    requires runs != []
    ensures i < |runs|
  {
    if |runs| == 1 then 0
    else
      var b := BestIndex(runs[..|runs| - 1]);
      if RunScore(runs[|runs| - 1]) > RunScore(runs[b]) then |runs| - 1 else b
  }

  /** `runs[0] || []` after the sort. */
  function Best(runs: seq<seq<Keypoint>>): (best: seq<Keypoint>)
    ensures runs == [] ==> best == []
    ensures runs != [] ==> best in runs
  {
    if runs == [] then [] else runs[BestIndex(runs)]
  }

  /** The head of the sort is a run of maximal score, and every run before
      it scores strictly lower: the first maximal run, as a stable sort
      leaves it. */
  lemma {:induction false} BestIndexFirstMaximal(runs: seq<seq<Keypoint>>)
    requires runs != []
    ensures forall j :: 0 <= j < |runs| ==> RunScore(runs[j]) <= RunScore(runs[BestIndex(runs)])
    ensures forall j :: 0 <= j < BestIndex(runs) ==> RunScore(runs[j]) < RunScore(runs[BestIndex(runs)])
  {
    if |runs| > 1 {
      var front := runs[..|runs| - 1];
      BestIndexFirstMaximal(front);
      assert forall j :: 0 <= j < |front| ==> front[j] == runs[j];
    }
  }

  /** The best of the kept runs is empty exactly when no run is usable. */
  lemma BestOfKeptEmpty(results: seq<Option<seq<Keypoint>>>)
    ensures Best(Kept(results)) == [] <==> forall i :: 0 <= i < |results| ==> !Usable(results[i])
  {
    if Kept(results) != [] {
      assert Kept(results)[0] in Kept(results);
    }
  }

  /** `runs[0] || []` after the stable descending sort: the FIRST run of
      maximal score, or the empty set when there is no run. */
  method BestOfN(runs: seq<seq<Keypoint>>) returns (best: seq<Keypoint>)
    ensures best == Best(runs)
    ensures runs == [] ==> best == []
    ensures runs != [] ==>
              exists i :: (0 <= i < |runs| && best == runs[i]
                           && (forall j :: 0 <= j < |runs| ==> RunScore(runs[j]) <= RunScore(best))
                           && (forall j :: 0 <= j < i ==> RunScore(runs[j]) < RunScore(best)))
  {
    if runs == [] {
      return [];
    }
    var bi := 0;
    var bs := RunScore(runs[0]);
    for i := 1 to |runs|
      invariant 0 <= bi < i && bs == RunScore(runs[bi])
      invariant bi == BestIndex(runs[..i])
    {
      BestIndexNext(runs, i);
      var s := RunScore(runs[i]);
      if s > bs {
        bi, bs := i, s;
      }
    }
    assert runs[..|runs|] == runs;
    BestIndexFirstMaximal(runs);
    best := runs[bi];
    assert 0 <= bi < |runs| && best == runs[bi];
  }

  /** A later run takes the lead only by scoring strictly higher. */
  lemma BestIndexNext(runs: seq<seq<Keypoint>>, i: nat)
    requires 0 < i < |runs|
    ensures BestIndex(runs[..i + 1])
            == if RunScore(runs[i]) > RunScore(runs[BestIndex(runs[..i])]) then i else BestIndex(runs[..i])
  {
    assert runs[..i + 1][..i] == runs[..i];
  }

  // ---------------------------------------------------------------------
  // Guided capture

  /** Whatever the views, this copy's guided scores are in [0, 100]. */
  lemma GuidedScoresInRange(g: Geometry, views: seq<seq<Keypoint>>)
    requires ValidGeometry(g)
    ensures var f := Guided.FuseViews(Guided.ViewMetrics(g, AllowMissingScore, HeadChain, views));
            f.Some? ==> 0 <= Guided.FallbackPostureScore(f.value) <= 100
                        && 0 <= Guided.FallbackSymmetryScore(f.value) <= 100
  {
    Guided.FusedInRange(Guided.ViewMetrics(g, AllowMissingScore, HeadChain, views));
  }

  // ---------------------------------------------------------------------
  // Guided framing check

  /** The per-view checks as written: the centre of the shoulders, which
      the estimator reports in pixels of its own canvas, is divided by the
      photo's natural width. */
  function GuidedViewIssuesAsWritten(luma: JsNumber, kps: seq<Keypoint>, photoW: nat): (issues: seq<Guided.Issue>)
    ensures Guided.NoPerson in issues <==> |kps| == 0
    ensures photoW > 0 && Guided.FallbackCenter(kps).Some? ==>
              (Guided.OffCenter in issues <==>
                 Guided.FallbackCenter(kps).value.x < Guided.CenterLow * photoW as real
                 || Guided.FallbackCenter(kps).value.x > Guided.CenterHigh * photoW as real)
  {
    Guided.ViewIssues(luma, |kps| > 0, Guided.FallbackCenter(kps), photoW as real)
  }

  /** The per-view checks with the centre divided by the width of the
      canvas the estimator saw, the frame its coordinates are in. */
  function GuidedViewIssues(luma: JsNumber, kps: seq<Keypoint>, photoW: nat, photoH: nat): (issues: seq<Guided.Issue>)
    ensures Guided.NoPerson in issues <==> |kps| == 0
    ensures Guided.OffCenter in issues <==>
              Guided.FallbackCenter(kps).Some?
              && (Guided.FallbackCenter(kps).value.x < Guided.CenterLow * EstimationWidth(photoW, photoH)
                  || Guided.FallbackCenter(kps).value.x > Guided.CenterHigh * EstimationWidth(photoW, photoH))
  {
    Guided.ViewIssues(luma, |kps| > 0, Guided.FallbackCenter(kps), EstimationWidth(photoW, photoH))
  }

  /** The width of the estimation canvas, in pixels. */
  function EstimationWidth(photoW: nat, photoH: nat): (w: real)
    ensures w > 0.0
  {
    EstimationSize(photoW, photoH).0 as real
  }

  /** A person standing in the middle of a 1440 x 1920 photo: MediaPipe
      places the shoulders at 0.4 and 0.6 of the width, which the 720-pixel
      estimation canvas turns into x = 288 and x = 432. */
  const CentredWidePhoto: seq<Keypoint> :=
    [Keypoint(Some("left_shoulder"), None, 288.0, 400.0, Some(0.9)),
     Keypoint(Some("right_shoulder"), None, 432.0, 400.0, Some(0.9))]

  /** As written, that centred person is told to center their body (the
      centre reads 360 / 1440 = 0.25); the corrected check accepts them. */
  lemma CentredWidePhotoFlaggedAsWritten()
    ensures Guided.OffCenter in GuidedViewIssuesAsWritten(Finite(0.5), CentredWidePhoto, 1440)
    ensures Guided.OffCenter !in GuidedViewIssues(Finite(0.5), CentredWidePhoto, 1440, 1920)
  {
    assert FindFirst(CentredWidePhoto, "left_shoulder") == Some(0);
    assert FindFirst(CentredWidePhoto, "right_shoulder") == Some(1);
    assert Guided.FallbackCenter(CentredWidePhoto) == Some(Point(360.0, 400.0));
    assert EstimationWidth(1440, 1920) == 720.0;
  }

  /** With the correction, the framing verdict depends only on where the
      shoulders' centre sits as a fraction c of the width of the image the
      estimator saw (the fraction MediaPipe reports), not on the photo's
      pixel size: it is flagged exactly when c is outside the band. */
  lemma FramingIndependentOfPhotoSize(luma: JsNumber, kps: seq<Keypoint>, photoW: nat, photoH: nat, c: real)
    requires Guided.FallbackCenter(kps).Some?
    requires Guided.FallbackCenter(kps).value.x == c * EstimationWidth(photoW, photoH)
    ensures Guided.OffCenter in GuidedViewIssues(luma, kps, photoW, photoH)
            <==> c < Guided.CenterLow || c > Guided.CenterHigh
  {
    FramingAtWidth(luma, |kps| > 0, Guided.FallbackCenter(kps), EstimationWidth(photoW, photoH), c);
  }

  /** A centre at fraction c of a positive width is off-centre exactly when
      c is outside the accepted band. */
  lemma FramingAtWidth(luma: JsNumber, found: bool, center: Option<Point>, w: real, c: real)
    requires w > 0.0 && center.Some? && center.value.x == c * w
    ensures Guided.OffCenter in Guided.ViewIssues(luma, found, center, w)
            <==> c < Guided.CenterLow || c > Guided.CenterHigh
  {
    OffCenterScales(center.value.x, c, w);
  }

  /** Shoulders at fractions lu and ru of a w-pixel width have their centre
      at the mean fraction c. */
  lemma ShoulderCentre(kps: seq<Keypoint>, w: real, lu: real, ru: real, c: real)
    requires FindFirst(kps, "left_shoulder").Some? && FindFirst(kps, "right_shoulder").Some?
    requires kps[FindFirst(kps, "left_shoulder").value].x == lu * w
    requires kps[FindFirst(kps, "right_shoulder").value].x == ru * w
    requires c == (lu + ru) / 2.0
    ensures Guided.FallbackCenter(kps).Some? && Guided.FallbackCenter(kps).value.x == c * w
  {
    var i, j := FindFirst(kps, "left_shoulder").value, FindFirst(kps, "right_shoulder").value;
    assert Guided.FallbackCenter(kps) == Some(Point((kps[i].x + kps[j].x) / 2.0, (kps[i].y + kps[j].y) / 2.0));
    MidpointScales(lu, ru, c, w);
  }

  lemma OffCenterScales(x: real, c: real, w: real)
    requires w > 0.0 && x == c * w
    ensures (x < Guided.CenterLow * w || x > Guided.CenterHigh * w) <==> (c < Guided.CenterLow || c > Guided.CenterHigh)
  {
    ScaledCompare(c, w, Guided.CenterLow);
    ScaledCompare(c, w, Guided.CenterHigh);
  }

  lemma MidpointScales(a: real, b: real, c: real, w: real)
    requires c == (a + b) / 2.0
    ensures (a * w + b * w) / 2.0 == c * w
  {
  }

}
