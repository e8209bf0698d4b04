/** The few JavaScript number operations the pipeline relies on, stated over
    Dafny's unbounded `real`: `Math.max`/`Math.min`/`Math.abs`, the
    round-half-up `Math.round`, and the division rule that produces
    `Infinity` or `NaN` for a zero divisor. `Math.hypot` and `Math.atan2`
    are not defined here: the model is parametric in them (see `Geometry`). */
module JsMath {

  function Abs(x: real): (r: real)
    ensures r >= 0.0 && (r == x || r == -x)
  {
    if x < 0.0 then -x else x
  }

  function Max(a: real, b: real): (r: real)
    ensures r >= a && r >= b && (r == a || r == b)
  {
    if a < b then b else a
  }

  function Min(a: real, b: real): (r: real)
    ensures r <= a && r <= b && (r == a || r == b)
  {
    if b < a then b else a
  }

  /** `Math.max(lo, Math.min(hi, n))`, the `clamp` of main.js and the clamp
      pattern used throughout the scan pipeline. */
  function Clamp(n: real, lo: real, hi: real): (r: real)
    ensures lo <= hi ==> lo <= r <= hi
    ensures lo <= n <= hi ==> r == n
    ensures n < lo ==> r == lo
    ensures lo <= hi < n ==> r == hi
  {
    Max(lo, Min(hi, n))
  }

  /** `Math.round`: the nearest integer, halves rounded towards +infinity. */
  function Round(x: real): (r: int)
    ensures x - 0.5 < r as real <= x + 0.5
  {
    (x + 0.5).Floor
  }

  lemma RoundMonotone(x: real, y: real)
    requires x <= y
    ensures Round(x) <= Round(y)
  {
  }

  lemma RoundOfInt(n: int)
    ensures Round(n as real) == n
  {
  }

  /** A JavaScript number: finite, one of the two infinities, or NaN. */
  datatype JsNumber = Finite(v: real) | PosInfinity | NegInfinity | NaN {

    predicate IsFinite() { Finite? }

    /** The JavaScript comparison `this < c`; false for NaN. */
    predicate Below(c: real) {
      match this
      case Finite(v) => v < c
      case PosInfinity => false
      case NegInfinity => true
      case NaN => false
    }

    /** The JavaScript comparison `this > c`; false for NaN. */
    predicate Above(c: real) {
      match this
      case Finite(v) => v > c
      case PosInfinity => true
      case NegInfinity => false
      case NaN => false
    }
  }

  /** JavaScript `a / b` on finite operands. */
  function Divide(a: real, b: real): (r: JsNumber)
    ensures b != 0.0 <==> r.Finite?
    ensures r.Finite? ==> r.v * b == a
    ensures r == NaN <==> a == 0.0 && b == 0.0
  {
    if b != 0.0 then Finite(a / b)
    else if a > 0.0 then PosInfinity
    else if a < 0.0 then NegInfinity
    else NaN
  }

  /** One more unit of a scaled count: k * (1 + c) == k + k * c. */
  lemma ScaleStep(k: real, c: real)
    ensures k * (1.0 + c) == k + k * c
  {
  }

  /** Scaling by a positive factor keeps strict comparisons. */
  lemma ScaledCompare(c: real, w: real, k: real)
    requires w > 0.0
    ensures c * w < k * w <==> c < k
    ensures c * w > k * w <==> c > k
  {
    if c < k {
      assert (k - c) * w > 0.0;
    }
    if c > k {
      assert (c - k) * w > 0.0;
    }
    if c == k {
      assert c * w == k * w;
    }
  }
}
