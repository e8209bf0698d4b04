/** Landmarks and the posture metrics computed from them. Both copies of the
    Body Scan pipeline (scan.js and scan-fallback.js) use these definitions;
    where the copies differ the difference is a parameter (`Gate`) or lives
    in the copy's own module (`Scan`, `ScanFallback`).

    `Math.hypot` and `Math.atan2` are not modelled: every metric takes a
    `Geometry` that supplies them, and the bounds proved here hold for any
    `Geometry` whose distance is non-negative and symmetric. */
module Pose {
  import opened Wrappers
  import opened JsMath

  datatype Point = Point(x: real, y: real)

  /** A keypoint as an estimator returns it. MoveNet tags it with `name`,
      older models with `part`; `score` may be absent (`undefined`). */
  datatype Keypoint = Keypoint(name: Option<string>, part: Option<string>,
                               x: real, y: real, score: Option<real>)

  /** The two numeric primitives the pipeline takes from `Math`:
      `dist(p, q)` is `Math.hypot(p.x - q.x, p.y - q.y)` and
      `atan2Degrees(dy, dx)` is `Math.atan2(dy, dx) * (180 / Math.PI)`. */
  datatype Geometry = Geometry(dist: (Point, Point) -> real,
                               atan2Degrees: (real, real) -> real)

  /** What the pipeline's bounds need of `Math.hypot`. */
  ghost predicate ValidGeometry(g: Geometry) {
    && (forall p, q :: g.dist(p, q) >= 0.0)
    && (forall p, q {:trigger g.dist(p, q), g.dist(q, p)} :: g.dist(p, q) == g.dist(q, p))
  }

  /** What `Math.atan2` gives for a horizontal line: 0 degrees when it points
      right, +180 degrees (so at least 45) when it points left. */
  ghost predicate AtanFacts(g: Geometry) {
    && (forall dx :: dx > 0.0 ==> g.atan2Degrees(0.0, dx) == 0.0)
    && (forall dx :: dx < 0.0 ==> g.atan2Degrees(0.0, dx) >= 45.0)
  }

  /** `lineTiltDegrees`: the angle of the line p1 -> p2 from horizontal,
      exactly 90 when the line is vertical. */
  function LineTiltDegrees(g: Geometry, p1: Point, p2: Point): (r: real)
    ensures p2.x == p1.x ==> r == 90.0
    ensures p2.x != p1.x ==> r == g.atan2Degrees(p2.y - p1.y, p2.x - p1.x)
  {
    var dx := p2.x - p1.x;
    if dx == 0.0 then 90.0 else g.atan2Degrees(p2.y - p1.y, dx)
  }

  // ---------------------------------------------------------------------
  // Landmark lookup

  /** Which keypoints the confidence gate lets through: scan.js demands a
      score above 0.3; scan-fallback.js also accepts a missing score. */
  datatype Gate = Strict | AllowMissingScore

  const MinScore: real := 0.3

  predicate Passes(gate: Gate, score: Option<real>) {
    match score
    case Some(s) => s > MinScore
    case None => gate == AllowMissingScore
  }

  /** `k.name === n || k.part === n`. */
  predicate Names(k: Keypoint, n: string) {
    k.name == Some(n) || k.part == Some(n)
  }

  /** The index `kps.find` stops at: the first keypoint tagged `n`. */
  function FindFirst(kps: seq<Keypoint>, n: string): (r: Option<nat>)
    ensures r.Some? ==> r.value < |kps| && Names(kps[r.value], n)
                        && forall j :: 0 <= j < r.value ==> !Names(kps[j], n)
    ensures r.None? ==> forall j :: 0 <= j < |kps| ==> !Names(kps[j], n)
  {
    if |kps| == 0 then None
    else if Names(kps[0], n) then Some(0)
    else match FindFirst(kps[1..], n)
      case None => None
      case Some(i) => Some(i + 1)
  }

  /** `key(kps, name)`: the position of the FIRST keypoint tagged `n`,
      provided that keypoint passes the confidence gate. */
  function Key(gate: Gate, kps: seq<Keypoint>, n: string): (r: Option<Point>)
    ensures r.Some? <==> FindFirst(kps, n).Some? && Passes(gate, kps[FindFirst(kps, n).value].score)
    ensures r.Some? ==> exists i :: 0 <= i < |kps| && Names(kps[i], n)
                          && Passes(gate, kps[i].score) && r.value == Point(kps[i].x, kps[i].y)
  {
    match FindFirst(kps, n)
    case None => None
    case Some(i) =>
      var k := kps[i];
      if Passes(gate, k.score) then Some(Point(k.x, k.y)) else None
  }

  /** Once a keypoint tagged `n` occurs, later keypoints with the same tag are
      never consulted: appending anything leaves the lookup unchanged. */
  lemma {:induction false} KeyIgnoresLaterDuplicates(gate: Gate, kps: seq<Keypoint>, more: seq<Keypoint>, n: string)
    requires FindFirst(kps, n).Some?
    ensures FindFirst(kps + more, n) == FindFirst(kps, n)
    ensures Key(gate, kps + more, n) == Key(gate, kps, n)
  {
    if !Names(kps[0], n) {
      assert (kps + more)[1..] == kps[1..] + more;
      KeyIgnoresLaterDuplicates(gate, kps[1..], more, n);
    }
  }

  /** Keypoints with other tags in front of the list only shift the index
      the lookup stops at. */
  lemma {:induction false} FindFirstSkipsPrefix(head: seq<Keypoint>, rest: seq<Keypoint>, n: string)
    requires forall k :: k in head ==> !Names(k, n)
    ensures FindFirst(head + rest, n) ==
              (match FindFirst(rest, n) case Some(i) => Some(i + |head|) case None => None)
    ensures forall gate :: Key(gate, head + rest, n) == Key(gate, rest, n)
  {
    if |head| > 0 {
      assert (head + rest)[1..] == head[1..] + rest;
      assert (head + rest)[0] == head[0] && head[0] in head;
      assert !Names((head + rest)[0], n);
      FindFirstSkipsPrefix(head[1..], rest, n);
    } else {
      assert head + rest == rest;
    }
  }

  /** A weak first match hides a confident duplicate behind it. */
  lemma WeakFirstMatchHidesLaterOnes(gate: Gate, k: Keypoint, more: seq<Keypoint>, n: string)
    requires Names(k, n) && !Passes(gate, k.score)
    ensures Key(gate, [k] + more, n) == None
  {
  }

  /** The first keypoint tagged `n` decides: when it passes the gate, its
      position is the answer. */
  lemma KeyAtFirstMatch(gate: Gate, kps: seq<Keypoint>, i: nat, n: string)
    requires i < |kps| && Names(kps[i], n) && Passes(gate, kps[i].score)
    requires forall j :: 0 <= j < i ==> !Names(kps[j], n)
    ensures Key(gate, kps, n) == Some(Point(kps[i].x, kps[i].y))
  {
  }

  // ---------------------------------------------------------------------
  // Metrics

  datatype Symmetry = Symmetry(torsoDiffPct: Option<real>)

  /** The posture record; every field is null when its landmarks are
      missing. A `torsoDiffPct` that JavaScript computes as 0/0 = NaN is
      `None` as well: every consumer (Number.isFinite, `|| 0`, JSON) treats
      NaN and null alike. */
  datatype Metrics = Metrics(shoulderTilt: Option<real>, hipTilt: Option<real>,
                             forwardHead: Option<real>, symmetry: Option<Symmetry>)

  datatype Limb = Limb(armDiff: real, legDiff: real)

  const MaxTilt: real := 45.0

  /** `Math.abs(lineTiltDegrees(a, b))` when both landmarks are present. */
  function TiltRaw(g: Geometry, a: Option<Point>, b: Option<Point>): (r: Option<real>)
    ensures r.Some? <==> a.Some? && b.Some?
    ensures r.Some? ==> r.value >= 0.0
  {
    if a.Some? && b.Some? then Some(Abs(LineTiltDegrees(g, a.value, b.value))) else None
  }

  /** `Math.min(45, Math.abs(raw))`: the display value of a tilt. */
  function ClampTilt(raw: Option<real>): (r: Option<real>)
    ensures r.Some? <==> raw.Some?
    ensures r.Some? ==> 0.0 <= r.value <= MaxTilt
    ensures r.Some? && Abs(raw.value) <= MaxTilt ==> r.value == Abs(raw.value)
  {
    match raw
    case None => None
    case Some(v) => Some(Min(MaxTilt, Abs(v)))
  }

  /** `dist(ls, rs) || 1`: the shoulder width, replaced by 1 when zero. */
  function ShoulderWidth(g: Geometry, ls: Point, rs: Point): (w: real)
    ensures w != 0.0
    ensures ValidGeometry(g) ==> w > 0.0
  {
    var d := g.dist(ls, rs);
    if d == 0.0 then 1.0 else d
  }

  /** The horizontal offset of the head landmark from the shoulder midpoint,
      in shoulder widths. */
  function ForwardHead(g: Geometry, ls: Option<Point>, rs: Option<Point>, head: Option<Point>): (r: Option<real>)
    requires ValidGeometry(g)
    ensures r.Some? <==> ls.Some? && rs.Some? && head.Some?
    ensures r.Some? ==> r.value >= 0.0
    ensures r.Some? && head.value.x == (ls.value.x + rs.value.x) / 2.0 ==> r.value == 0.0
  {
    if ls.Some? && rs.Some? && head.Some? then
      var mid := (ls.value.x + rs.value.x) / 2.0;
      Some(Abs(head.value.x - mid) / ShoulderWidth(g, ls.value, rs.value))
    else None
  }

  /** The first present landmark in a fallback chain (`a || b || ...`). */
  function FirstPresent(cands: seq<Option<Point>>): (r: Option<Point>)
    ensures r.Some? <==> exists i :: 0 <= i < |cands| && cands[i].Some?
    ensures r.Some? ==> exists i :: 0 <= i < |cands| && cands[i] == r
                                   && forall j :: 0 <= j < i ==> cands[j].None?
  {
    if |cands| == 0 then None
    else if cands[0].Some? then cands[0]
    else
      var r := FirstPresent(cands[1..]);
      assert forall i :: 1 <= i < |cands| ==> cands[i] == cands[1..][i - 1];
      r
  }

  lemma FirstPresentIsSecond(cands: seq<Option<Point>>)
    requires |cands| >= 2 && cands[0].None? && cands[1].Some?
    ensures FirstPresent(cands) == cands[1]
  {
    assert cands[1..][0] == cands[1];
  }

  /** |lt - rt| / max(lt, rt) for the two torso sides (shoulder to hip);
      0/0 (both sides of length zero) is NaN. */
  function TorsoSymmetry(g: Geometry, ls: Option<Point>, rs: Option<Point>,
                         lh: Option<Point>, rh: Option<Point>): (r: Option<Symmetry>)
    requires ValidGeometry(g)
    ensures r.Some? <==> ls.Some? && rs.Some? && lh.Some? && rh.Some?
    ensures r.Some? ==> (r.value.torsoDiffPct.Some? <==>
                           Max(g.dist(ls.value, lh.value), g.dist(rs.value, rh.value)) > 0.0)
    ensures r.Some? && r.value.torsoDiffPct.Some? ==> 0.0 <= r.value.torsoDiffPct.value <= 1.0
    ensures r.Some? && g.dist(ls.value, lh.value) == g.dist(rs.value, rh.value) > 0.0
            ==> r.value.torsoDiffPct == Some(0.0)
  {
    if ls.Some? && rs.Some? && lh.Some? && rh.Some? then
      var lt := g.dist(ls.value, lh.value);
      var rt := g.dist(rs.value, rh.value);
      var mx := Max(lt, rt);
      Some(Symmetry(if mx == 0.0 then None else Some(RelativeDiff(lt, rt, mx))))
    else None
  }

  /** |l - r| / m, the relative difference used for torso and limbs. */
  function RelativeDiff(l: real, r: real, m: real): (d: real)
    requires m > 0.0
    ensures d >= 0.0
    ensures l == r ==> d == 0.0
    ensures 0.0 <= l <= m && 0.0 <= r <= m ==> d <= 1.0
  {
    DivBound(Abs(l - r), m);
    Abs(l - r) / m
  }

  lemma DivBound(a: real, m: real)
    requires m > 0.0 && a >= 0.0
    ensures a / m >= 0.0
    ensures a <= m ==> a / m <= 1.0
  {
  }

  /** `(a && b ? dist(a, b) : 0)`: a missing segment counts as length zero. */
  function SegmentLength(g: Geometry, a: Option<Point>, b: Option<Point>): (r: real)
    requires ValidGeometry(g)
    ensures r >= 0.0
    ensures a.None? || b.None? ==> r == 0.0
  {
    if a.Some? && b.Some? then g.dist(a.value, b.value) else 0.0
  }

  /** The length of a two-segment limb (shoulder-elbow-wrist, hip-knee-ankle). */
  function LimbLength(g: Geometry, top: Option<Point>, mid: Option<Point>, end: Option<Point>): (r: real)
    requires ValidGeometry(g)
    ensures r >= 0.0
  {
    SegmentLength(g, top, mid) + SegmentLength(g, mid, end)
  }

  /** |l - r| / Math.max(l, r, 1). */
  function LimbDiff(l: real, r: real): (d: real)
    requires l >= 0.0 && r >= 0.0
    ensures 0.0 <= d <= 1.0
    ensures l == r ==> d == 0.0
    ensures d == RelativeDiff(r, l, Max(Max(r, l), 1.0))
  {
    RelativeDiff(l, r, Max(Max(l, r), 1.0))
  }

  /** `limbImbalanceFromKeypoints` (and its inline copy in the fallback):
      left versus right arm and leg length. */
  function LimbImbalance(g: Geometry, gate: Gate, kps: seq<Keypoint>): (limb: Limb)
    requires ValidGeometry(g)
    ensures 0.0 <= limb.armDiff <= 1.0 && 0.0 <= limb.legDiff <= 1.0
  {
    var leftArm := LimbLength(g, Key(gate, kps, "left_shoulder"), Key(gate, kps, "left_elbow"), Key(gate, kps, "left_wrist"));
    var rightArm := LimbLength(g, Key(gate, kps, "right_shoulder"), Key(gate, kps, "right_elbow"), Key(gate, kps, "right_wrist"));
    var leftLeg := LimbLength(g, Key(gate, kps, "left_hip"), Key(gate, kps, "left_knee"), Key(gate, kps, "left_ankle"));
    var rightLeg := LimbLength(g, Key(gate, kps, "right_hip"), Key(gate, kps, "right_knee"), Key(gate, kps, "right_ankle"));
    Limb(LimbDiff(leftArm, rightArm), LimbDiff(leftLeg, rightLeg))
  }

  /** The bounds the design promises for every metric record. */
  predicate InRange(m: Metrics) {
    && (m.shoulderTilt.Some? ==> 0.0 <= m.shoulderTilt.value <= MaxTilt)
    && (m.hipTilt.Some? ==> 0.0 <= m.hipTilt.value <= MaxTilt)
    && (m.forwardHead.Some? ==> m.forwardHead.value >= 0.0)
    && (m.symmetry.Some? && m.symmetry.value.torsoDiffPct.Some? ==>
          0.0 <= m.symmetry.value.torsoDiffPct.value <= 1.0)
  }

  /** The head landmark of each name in a fallback chain, in order. */
  function HeadCandidates(gate: Gate, kps: seq<Keypoint>, headChain: seq<string>): (c: seq<Option<Point>>)
    ensures |c| == |headChain|
    ensures forall i :: 0 <= i < |c| ==> c[i] == Key(gate, kps, headChain[i])
  {
    seq(|headChain|, i requires 0 <= i < |headChain| => Key(gate, kps, headChain[i]))
  }

  /** The posture fields as both copies compute them; only the landmark
      gate and the order of the head fallback differ between the copies. */
  function PostureFields(g: Geometry, gate: Gate, kps: seq<Keypoint>, headChain: seq<string>): (m: Metrics)
    requires ValidGeometry(g)
    ensures InRange(m)
    ensures m.shoulderTilt.Some? <==> Key(gate, kps, "left_shoulder").Some? && Key(gate, kps, "right_shoulder").Some?
    ensures m.hipTilt.Some? <==> Key(gate, kps, "left_hip").Some? && Key(gate, kps, "right_hip").Some?
    ensures m.symmetry.Some? <==> m.shoulderTilt.Some? && m.hipTilt.Some?
  {
    var ls := Key(gate, kps, "left_shoulder");
    var rs := Key(gate, kps, "right_shoulder");
    var lh := Key(gate, kps, "left_hip");
    var rh := Key(gate, kps, "right_hip");
    var head := FirstPresent(HeadCandidates(gate, kps, headChain));
    Metrics(ClampTilt(TiltRaw(g, ls, rs)), ClampTilt(TiltRaw(g, lh, rh)),
            ForwardHead(g, ls, rs, head), TorsoSymmetry(g, ls, rs, lh, rh))
  }

  /** When the first name of the head chain is missing and the second is
      present, the head offset is measured from the second. */
  lemma HeadFromSecond(g: Geometry, gate: Gate, kps: seq<Keypoint>, headChain: seq<string>, ls: Point, rs: Point, p: Point)
    requires ValidGeometry(g) && |headChain| >= 2
    requires Key(gate, kps, "left_shoulder") == Some(ls) && Key(gate, kps, "right_shoulder") == Some(rs)
    requires Key(gate, kps, headChain[0]).None? && Key(gate, kps, headChain[1]) == Some(p)
    ensures PostureFields(g, gate, kps, headChain).forwardHead
            == Some(Abs(p.x - (ls.x + rs.x) / 2.0) / ShoulderWidth(g, ls, rs))
  {
    HeadIsSecond(gate, kps, headChain, p);
    PostureHead(g, gate, kps, headChain);
    ForwardHeadOf(g, ls, rs, p);
  }

  lemma HeadIsSecond(gate: Gate, kps: seq<Keypoint>, headChain: seq<string>, p: Point)
    requires |headChain| >= 2
    requires Key(gate, kps, headChain[0]).None? && Key(gate, kps, headChain[1]) == Some(p)
    ensures FirstPresent(HeadCandidates(gate, kps, headChain)) == Some(p)
  {
    FirstPresentIsSecond(HeadCandidates(gate, kps, headChain));
  }

  lemma ForwardHeadOf(g: Geometry, ls: Point, rs: Point, p: Point)
    requires ValidGeometry(g)
    ensures ForwardHead(g, Some(ls), Some(rs), Some(p)) == Some(Abs(p.x - (ls.x + rs.x) / 2.0) / ShoulderWidth(g, ls, rs))
  {
  }

  /** The head field of the posture fields, on its own. */
  lemma PostureHead(g: Geometry, gate: Gate, kps: seq<Keypoint>, headChain: seq<string>)
    requires ValidGeometry(g)
    ensures PostureFields(g, gate, kps, headChain).forwardHead
            == ForwardHead(g, Key(gate, kps, "left_shoulder"), Key(gate, kps, "right_shoulder"),
                           FirstPresent(HeadCandidates(gate, kps, headChain)))
  {
  }
}
