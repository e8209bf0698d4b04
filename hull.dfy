/** The silhouette outline of the fallback overlay (`drawOverlayFallback`):
    the convex hull of the confident keypoints by Andrew's monotone chain,
    built with explicit push/pop stacks. */
module Hull {
  import opened Wrappers
  import opened Pose

  const HullMinScore: real := 0.4

  /** Points without a score count as confident. */
  predicate Confident(k: Keypoint) {
    k.score.None? || k.score.value >= HullMinScore
  }

  /** The confident keypoints' positions, in keypoint order. */
  function ConfidentPoints(kps: seq<Keypoint>): (pts: seq<Point>)
    ensures |pts| <= |kps|
  {
    if |kps| == 0 then []
    else (if Confident(kps[0]) then [Point(kps[0].x, kps[0].y)] else []) + ConfidentPoints(kps[1..])
  }

  /** The points are exactly the positions of the confident keypoints. */
  lemma {:induction false} ConfidentPointsMembers(kps: seq<Keypoint>)
    ensures forall i :: 0 <= i < |kps| && Confident(kps[i]) ==> Point(kps[i].x, kps[i].y) in ConfidentPoints(kps)
    ensures forall p :: p in ConfidentPoints(kps) ==>
              exists i :: 0 <= i < |kps| && Confident(kps[i]) && p == Point(kps[i].x, kps[i].y)
  {
    if |kps| > 0 {
      ConfidentPointsMembers(kps[1..]);
      assert forall i :: 1 <= i < |kps| ==> kps[i] == kps[1..][i - 1];
    }
  }

  /** The last element of a non-empty sequence of points. */
  function Last(s: seq<Point>): Point
    requires |s| > 0
  {
    s[|s| - 1]
  }

  /** The z-component of (a - o) x (b - o): positive for a left turn. */
  function Cross(o: Point, a: Point, b: Point): real {
    (a.x - o.x) * (b.y - o.y) - (a.y - o.y) * (b.x - o.x)
  }

  /** The sort order: by x, then by y. */
  predicate LexLeq(a: Point, b: Point) {
    a.x < b.x || (a.x == b.x && a.y <= b.y)
  }

  predicate SortedLex(s: seq<Point>) {
    forall i, j :: 0 <= i < j < |s| ==> LexLeq(s[i], s[j])
  }

  function Insert(p: Point, s: seq<Point>): (r: seq<Point>)
    ensures |r| == |s| + 1 && multiset(r) == multiset(s) + multiset{p}
  {
    if |s| == 0 || LexLeq(p, s[0]) then
      [p] + s
    else
      assert s == [s[0]] + s[1..];
      [s[0]] + Insert(p, s[1..])
  }

  /** Inserting into a sorted sequence keeps it sorted. */
  lemma {:induction false} InsertSorted(p: Point, s: seq<Point>)
    requires SortedLex(s)
    ensures SortedLex(Insert(p, s))
  {
    if |s| == 0 || LexLeq(p, s[0]) {
      forall j | 0 <= j < |s|
        ensures LexLeq(p, s[j])
      {
        assert LexLeq(s[0], s[j]) || j == 0;
      }
      ConsSorted(p, s);
    } else {
      TailMultiset(s);
      InsertSorted(p, s[1..]);
      var t := Insert(p, s[1..]);
      forall j | 0 <= j < |t|
        ensures LexLeq(s[0], t[j])
      {
        assert t[j] in multiset(t);
        if t[j] != p {
          assert t[j] in multiset(s[1..]);
          var k :| 0 <= k < |s[1..]| && s[1..][k] == t[j];
          assert s[k + 1] == t[j];
        }
      }
      ConsSorted(s[0], t);
    }
  }

  /** A point below every element of a sorted sequence may go in front. */
  lemma ConsSorted(a: Point, t: seq<Point>)
    requires SortedLex(t)
    requires forall j :: 0 <= j < |t| ==> LexLeq(a, t[j])
    ensures SortedLex([a] + t)
  {
    var r := [a] + t;
    forall i, j | 0 <= i < j < |r|
      ensures LexLeq(r[i], r[j])
    {
      assert r[j] == t[j - 1];
      if i > 0 {
        assert r[i] == t[i - 1];
      }
    }
  }

  /** `[...pts].sort(...)` on the comparator `a.x === b.x ? a.y - b.y : a.x - b.x`. */
  function SortLex(s: seq<Point>): (r: seq<Point>)
    ensures multiset(r) == multiset(s) && |r| == |s|
  {
    if |s| == 0 then []
    else
      assert s == [s[0]] + s[1..];
      Insert(s[0], SortLex(s[1..]))
  }

  /** The sort's result is in lexicographic order. */
  lemma {:induction false} SortLexSorted(s: seq<Point>)
    ensures SortedLex(SortLex(s))
  {
    if |s| > 0 {
      SortLexSorted(s[1..]);
      InsertSorted(s[0], SortLex(s[1..]));
    }
  }

  /** The lexicographic order is total on points, so the sorted arrangement
      of a collection is unique: any correct sort, stable or not, yields
      `SortLex`. */
  lemma {:induction false} SortedArrangementUnique(a: seq<Point>, b: seq<Point>)
    requires SortedLex(a) && SortedLex(b) && multiset(a) == multiset(b)
    ensures a == b
    decreases |a|
  {
    if |a| > 0 {
      SortedHeadsAgree(a, b);
      TailMultiset(a);
      TailMultiset(b);
      SortedArrangementUnique(a[1..], b[1..]);
      assert a == [a[0]] + a[1..] && b == [b[0]] + b[1..];
    }
  }

  /** Two sorted arrangements of the same points start with the same one. */
  lemma SortedHeadsAgree(a: seq<Point>, b: seq<Point>)
    requires SortedLex(a) && SortedLex(b) && multiset(a) == multiset(b) && |a| > 0
    ensures |b| > 0 && a[0] == b[0]
  {
    assert a[0] in multiset(b);
    assert b[0] in multiset(a);
    var j :| 0 <= j < |b| && b[j] == a[0];
    var k :| 0 <= k < |a| && a[k] == b[0];
    assert LexLeq(b[0], a[0]) && LexLeq(a[0], b[0]);
  }

  lemma TailMultiset(a: seq<Point>)
    requires |a| > 0
    ensures SortedLex(a) ==> SortedLex(a[1..])
    ensures multiset(a[1..]) == multiset(a) - multiset{a[0]}
  {
    assert a == [a[0]] + a[1..];
  }

  /** Every consecutive triple of a chain turns left. */
  predicate LeftTurns(c: seq<Point>) {
    forall k :: 0 <= k < |c| - 2 ==> Cross(c[k], c[k + 1], c[k + 2]) > 0.0
  }

  /** `c` is `pts` at strictly increasing positions `idx`. */
  predicate SubsequenceAt(c: seq<Point>, pts: seq<Point>, idx: seq<nat>) {
    && |idx| == |c|
    && (forall k :: 0 <= k < |c| ==> idx[k] < |pts| && c[k] == pts[idx[k]])
    && (forall k, l :: 0 <= k < l < |idx| ==> idx[k] < idx[l])
  }

  ghost predicate IsSubsequence(c: seq<Point>, pts: seq<Point>) {
    exists idx :: SubsequenceAt(c, pts, idx)
  }

  /** The pop loop before a push: drops the top of the stack while the top
      two points and `p` fail to make a strict left turn. */
  method PopNonLeftTurns(chain: seq<Point>, p: Point) returns (kept: seq<Point>)
    ensures |kept| <= |chain| && kept == chain[..|kept|]
    ensures |chain| >= 1 ==> |kept| >= 1
    ensures |kept| >= 2 ==> Cross(kept[|kept| - 2], kept[|kept| - 1], p) > 0.0
  {
    kept := chain;
    while |kept| >= 2 && Cross(kept[|kept| - 2], kept[|kept| - 1], p) <= 0.0
      invariant |kept| <= |chain| && kept == chain[..|kept|]
      invariant |chain| >= 1 ==> |kept| >= 1
      decreases |kept|
    {
      kept := kept[..|kept| - 1];
    }
  }

  lemma PrefixKeeps(chain: seq<Point>, pts: seq<Point>, idx: seq<nat>, m: nat, bound: nat)
    requires SubsequenceAt(chain, pts, idx) && LeftTurns(chain) && m <= |chain|
    requires forall k :: 0 <= k < |idx| ==> idx[k] < bound
    ensures SubsequenceAt(chain[..m], pts, idx[..m]) && LeftTurns(chain[..m])
    ensures forall k :: 0 <= k < m ==> idx[..m][k] < bound
  {
  }

  lemma PushKeeps(chain: seq<Point>, pts: seq<Point>, idx: seq<nat>, i: nat)
    requires SubsequenceAt(chain, pts, idx) && LeftTurns(chain)
    requires i < |pts| && forall k :: 0 <= k < |idx| ==> idx[k] < i
    requires |chain| >= 2 ==> Cross(chain[|chain| - 2], chain[|chain| - 1], pts[i]) > 0.0
    ensures SubsequenceAt(chain + [pts[i]], pts, idx + [i]) && LeftTurns(chain + [pts[i]])
    ensures forall k :: 0 <= k < |idx| + 1 ==> (idx + [i])[k] < i + 1
  {
    var c := chain + [pts[i]];
    forall k | 0 <= k < |c| - 2
      ensures Cross(c[k], c[k + 1], c[k + 2]) > 0.0
    {
      if k < |chain| - 2 {
        assert c[k] == chain[k] && c[k + 1] == chain[k + 1] && c[k + 2] == chain[k + 2];
      }
    }
  }

  /** What holds of the stack after the first `i` points are processed. */
  predicate ChainSoFar(chain: seq<Point>, pts: seq<Point>, idx: seq<nat>, i: nat) {
    && i <= |pts|
    && SubsequenceAt(chain, pts, idx) && (forall k :: 0 <= k < |idx| ==> idx[k] < i)
    && LeftTurns(chain)
    && (i > 0 ==> |chain| >= 1 && chain[0] == pts[0] && chain[|chain| - 1] == pts[i - 1])
    && (i >= 2 ==> |chain| >= 2)
  }

  /** One step of the chain loop: pop, then push point `i`. */
  method PushPoint(chain: seq<Point>, pts: seq<Point>, ghost idx: seq<nat>, i: nat)
    returns (next: seq<Point>, ghost nextIdx: seq<nat>)
    requires i < |pts| && ChainSoFar(chain, pts, idx, i)
    ensures 1 <= |next| <= |chain| + 1 && next == chain[..|next| - 1] + [pts[i]]
    ensures ChainSoFar(next, pts, nextIdx, i + 1)
  {
    var kept := PopNonLeftTurns(chain, pts[i]);
    PrefixKeeps(chain, pts, idx, |kept|, i);
    PushKeeps(kept, pts, idx[..|kept|], i);
    next := kept + [pts[i]];
    nextIdx := idx[..|kept|] + [i];
  }

  /** One monotone chain: each point is pushed after popping the points
      that would not make a strict left turn with it. */
  method BuildChain(pts: seq<Point>) returns (chain: seq<Point>)
    ensures IsSubsequence(chain, pts)
    ensures LeftTurns(chain)
    ensures |pts| > 0 ==> |chain| >= 1 && chain[0] == pts[0] && chain[|chain| - 1] == pts[|pts| - 1]
    ensures |pts| >= 2 ==> |chain| >= 2
  {
    chain := [];
    ghost var idx: seq<nat> := [];
    for i := 0 to |pts|
      invariant ChainSoFar(chain, pts, idx, i)
    {
      chain, idx := PushPoint(chain, pts, idx, i);
    }
    assert SubsequenceAt(chain, pts, idx);
  }

  function Reverse(s: seq<Point>): (r: seq<Point>)
    ensures |r| == |s| && forall i :: 0 <= i < |s| ==> r[i] == s[|s| - 1 - i]
  {
    if |s| == 0 then [] else [s[|s| - 1]] + Reverse(s[..|s| - 1])
  }

  const MinOutlinePoints: nat := 3

  /** The outline: lower chain over the sorted points, upper chain over them
      in reverse, each without its last point; drawn only when there are at
      least three confident points and at least three hull points. The
      outline starts at the lexicographically smallest point and passes
      through the largest one. */
  method SilhouetteOutline(kps: seq<Keypoint>) returns (outline: Option<seq<Point>>)
    ensures |ConfidentPoints(kps)| < MinOutlinePoints ==> outline.None?
    ensures outline.Some? ==> |ConfidentPoints(kps)| >= MinOutlinePoints && |outline.value| >= MinOutlinePoints
    ensures outline.Some? ==> forall p :: p in outline.value ==> p in ConfidentPoints(kps)
    ensures outline.Some? ==> outline.value[0] == SortLex(ConfidentPoints(kps))[0]
    ensures outline.Some? ==> Last(SortLex(ConfidentPoints(kps))) in outline.value
  {
    var pts := ConfidentPoints(kps);
    if |pts| < MinOutlinePoints {
      return None;
    }
    var sorted := SortLex(pts);
    var hull := ChainOutline(sorted);
    if |hull| < MinOutlinePoints {
      return None;
    }
    SortedMembers(pts, sorted);
    outline := Some(hull);
  }

  /** The lower chain over the sorted points and the upper chain over them
      in reverse, each without its last point, joined. */
  method ChainOutline(sorted: seq<Point>) returns (hull: seq<Point>)
    requires |sorted| >= 2
    ensures forall p :: p in hull ==> p in sorted
    ensures |hull| > 0 && hull[0] == sorted[0]
    ensures Last(sorted) in hull
  {
    var lower := BuildChain(sorted);
    var upper := BuildChain(Reverse(sorted));
    hull := lower[..|lower| - 1] + upper[..|upper| - 1];
    OutlineFacts(sorted, lower, upper, hull);
  }

  /** The outline's points come from the chains, so from the points. */
  lemma OutlineFacts(sorted: seq<Point>, lower: seq<Point>, upper: seq<Point>, hull: seq<Point>)
    requires |sorted| >= 2
    requires IsSubsequence(lower, sorted) && IsSubsequence(upper, Reverse(sorted))
    requires |lower| >= 2 && lower[0] == sorted[0]
    requires |upper| >= 2 && upper[0] == Reverse(sorted)[0]
    requires hull == lower[..|lower| - 1] + upper[..|upper| - 1]
    ensures forall p :: p in hull ==> p in sorted
    ensures |hull| > 0 && hull[0] == sorted[0]
    ensures Last(sorted) in hull
  {
    ReverseMembers(sorted);
    MembersOfChain(lower, sorted, sorted);
    MembersOfChain(upper, Reverse(sorted), sorted);
    ConcatMembers(lower[..|lower| - 1], upper[..|upper| - 1], lower, upper, sorted);
    HullEnds(lower, upper, Reverse(sorted)[0]);
  }

  /** The joined chains start where the lower chain starts and contain the
      upper chain's first point. */
  lemma HullEnds(lower: seq<Point>, upper: seq<Point>, top: Point)
    requires |lower| >= 2 && |upper| >= 2 && upper[0] == top
    ensures var hull := lower[..|lower| - 1] + upper[..|upper| - 1];
            hull[0] == lower[0] && top in hull
  {
    var hull := lower[..|lower| - 1] + upper[..|upper| - 1];
    assert hull[|lower| - 1] == upper[0];
  }

  lemma SortedMembers(pts: seq<Point>, sorted: seq<Point>)
    requires sorted == SortLex(pts)
    ensures forall p :: p in sorted ==> p in pts
  {
    assert forall p :: p in sorted ==> p in multiset(pts);
  }

  lemma ReverseMembers(s: seq<Point>)
    ensures forall p :: p in Reverse(s) ==> p in s
  {
    forall p | p in Reverse(s)
      ensures p in s
    {
      var k :| 0 <= k < |s| && Reverse(s)[k] == p;
      assert s[|s| - 1 - k] == p;
    }
  }

  lemma ConcatMembers(x: seq<Point>, y: seq<Point>, xs: seq<Point>, ys: seq<Point>, pts: seq<Point>)
    requires |x| <= |xs| && x == xs[..|x|] && |y| <= |ys| && y == ys[..|y|]
    requires (forall p :: p in xs ==> p in pts) && (forall p :: p in ys ==> p in pts)
    ensures forall p :: p in x + y ==> p in pts
  {
    assert forall p :: p in x ==> p in xs;
    assert forall p :: p in y ==> p in ys;
  }

  lemma MembersOfChain(chain: seq<Point>, from: seq<Point>, pts: seq<Point>)
    requires IsSubsequence(chain, from)
    requires forall p :: p in from ==> p in pts
    ensures forall p :: p in chain ==> p in pts
  {
    var idx :| SubsequenceAt(chain, from, idx);
    forall p | p in chain
      ensures p in pts
    {
      var k :| 0 <= k < |chain| && chain[k] == p;
      assert from[idx[k]] in from;
    }
  }
}
