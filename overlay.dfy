/** The decisions of the annotated overlay (`drawOverlay` in scan.js and
    `drawOverlayFallback` in scan-fallback.js), as a display list rather
    than pixels: which skeleton segments and landmark dots are drawn, and
    where a text badge lands on the canvas. */
module Overlay {
  import opened Wrappers
  import opened JsMath
  import opened Pose

  /** `k.name || k.part`: the name unless it is missing or empty. */
  function Label(k: Keypoint): (l: Option<string>)
    ensures k.name.Some? && k.name.value != "" ==> l == k.name
    ensures (k.name.None? || k.name == Some("")) ==> l == k.part
  {
    if k.name.Some? && k.name.value != "" then k.name else k.part
  }

  /** The `kpBy` map: every keypoint filed under its label, with no
      confidence gate; a later keypoint with the same label replaces an
      earlier one. */
  method BuildIndex(kps: seq<Keypoint>) returns (index: map<Option<string>, Keypoint>)
    ensures forall i :: 0 <= i < |kps| ==> Label(kps[i]) in index
    ensures forall l :: l in index ==> exists i :: 0 <= i < |kps| && Label(kps[i]) == l && index[l] == kps[i]
                                        && forall j :: i < j < |kps| ==> Label(kps[j]) != l
  {
    index := map[];
    for n := 0 to |kps|
      invariant forall i :: 0 <= i < n ==> Label(kps[i]) in index
      invariant forall l :: l in index ==> exists i :: 0 <= i < n && Label(kps[i]) == l && index[l] == kps[i]
                                            && forall j :: i < j < n ==> Label(kps[j]) != l
    {
      index := index[Label(kps[n]) := kps[n]];
    }
  }

  /** The twelve skeleton segments, in drawing order. */
  const SkeletonPairs: seq<(string, string)> := [
    ("left_shoulder", "right_shoulder"), ("left_hip", "right_hip"),
    ("left_shoulder", "left_elbow"), ("left_elbow", "left_wrist"),
    ("right_shoulder", "right_elbow"), ("right_elbow", "right_wrist"),
    ("left_hip", "left_knee"), ("left_knee", "left_ankle"),
    ("right_hip", "right_knee"), ("right_knee", "right_ankle"),
    ("left_shoulder", "left_hip"), ("right_shoulder", "right_hip")]

  datatype Segment = Segment(from: string, to: string, p: Point, q: Point)

  function At(k: Keypoint): Point { Point(k.x, k.y) }

  /** The segments of `pairs` whose two endpoints are both in the index,
      in the order of `pairs`. */
  function SegmentsOf(index: map<Option<string>, Keypoint>, pairs: seq<(string, string)>): (segs: seq<Segment>)
    ensures |segs| <= |pairs|
    ensures forall s :: s in segs ==>
              (Some(s.from) in index && Some(s.to) in index && (s.from, s.to) in pairs
               && s.p == At(index[Some(s.from)]) && s.q == At(index[Some(s.to)]))
    ensures forall i :: 0 <= i < |pairs| && Some(pairs[i].0) in index && Some(pairs[i].1) in index
              ==> exists s :: s in segs && s.from == pairs[i].0 && s.to == pairs[i].1
  {
    if |pairs| == 0 then []
    else
      var (a, b) := pairs[|pairs| - 1];
      var rest := SegmentsOf(index, pairs[..|pairs| - 1]);
      assert forall i :: 0 <= i < |pairs| - 1 ==> pairs[..|pairs| - 1][i] == pairs[i];
      if Some(a) in index && Some(b) in index
      then rest + [Segment(a, b, At(index[Some(a)]), At(index[Some(b)]))]
      else rest
  }

  /** The skeleton loop: a segment is stroked only when both endpoints are
      known. */
  method SkeletonSegments(index: map<Option<string>, Keypoint>) returns (segs: seq<Segment>)
    ensures segs == SegmentsOf(index, SkeletonPairs)
  {
    segs := [];
    for i := 0 to |SkeletonPairs|
      invariant segs == SegmentsOf(index, SkeletonPairs[..i])
    {
      assert SkeletonPairs[..i + 1][..i] == SkeletonPairs[..i];
      var (a, b) := SkeletonPairs[i];
      if Some(a) in index && Some(b) in index {
        segs := segs + [Segment(a, b, At(index[Some(a)]), At(index[Some(b)]))];
      }
    }
    assert SkeletonPairs[..|SkeletonPairs|] == SkeletonPairs;
  }

  /** A keypoint is drawn as a dot unless it carries a score below 0.3. */
  predicate DrawsDot(k: Keypoint) {
    k.score.None? || k.score.value >= MinScore
  }

  function Dots(kps: seq<Keypoint>): (dots: seq<Point>)
    ensures |dots| <= |kps|
    ensures forall i :: 0 <= i < |kps| && DrawsDot(kps[i]) ==> At(kps[i]) in dots
    ensures forall p :: p in dots ==> exists i :: 0 <= i < |kps| && DrawsDot(kps[i]) && p == At(kps[i])
  {
    if |kps| == 0 then []
    else
      var rest := Dots(kps[1..]);
      assert forall i :: 1 <= i < |kps| ==> kps[i] == kps[1..][i - 1];
      (if DrawsDot(kps[0]) then [At(kps[0])] else []) + rest
  }

  /** Where `drawBadge` writes text of width `tw` aimed at (x, y) on a
      w-by-h canvas: at least 6 from the left and 12 from the top, and,
      when it fits, 6 clear of the right and bottom edges; a position
      already inside those margins is kept. */
  function BadgePosition(x: real, y: real, tw: real, w: real, h: real): (p: Point)
    ensures p.x >= 6.0 && p.y >= 12.0
    ensures tw + 12.0 <= w ==> p.x + tw <= w - 6.0
    ensures 18.0 <= h ==> p.y <= h - 6.0
    ensures 6.0 <= x <= w - tw - 6.0 ==> p.x == x
    ensures 12.0 <= y <= h - 6.0 ==> p.y == y
  {
    Point(Max(6.0, Min(w - tw - 6.0, x)), Max(12.0, Min(h - 6.0, y)))
  }
}
