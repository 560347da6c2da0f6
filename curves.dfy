/**
 * SimpleCurve, the piecewise-linear lookup tables the pawn generator uses:
 * below the first point and above the last the curve is flat, in between it
 * interpolates linearly between the two neighbouring points.
 */
module SimpleCurves {
  import Mathf

  type Point = (real, real)

  predicate Increasing(pts: seq<Point>)
  {
    forall i :: 0 <= i < |pts| - 1 ==> pts[i].0 < pts[i + 1].0
  }

  predicate WellFormed(pts: seq<Point>) { |pts| > 0 && Increasing(pts) }

  function MinY(pts: seq<Point>): (r: real)
    requires |pts| > 0
    ensures forall i :: 0 <= i < |pts| ==> r <= pts[i].1
  {
    if |pts| == 1 then pts[0].1 else Mathf.MinReal(pts[0].1, MinY(pts[1..]))
  }

  function MaxY(pts: seq<Point>): (r: real)
    requires |pts| > 0
    ensures forall i :: 0 <= i < |pts| ==> pts[i].1 <= r
  {
    if |pts| == 1 then pts[0].1 else Mathf.MaxReal(pts[0].1, MaxY(pts[1..]))
  }

  /** Mathf.Lerp: the parameter is clamped to [0, 1]. */
  function Lerp(a: real, b: real, t: real): (r: real)
    ensures Mathf.MinReal(a, b) <= r <= Mathf.MaxReal(a, b)
  {
    var s := Mathf.Clamp01(t);
    var d := b - a;
    assert d >= 0.0 ==> 0.0 <= d * s <= d by {
      if d >= 0.0 { assert d - d * s == d * (1.0 - s); }
    }
    assert d < 0.0 ==> d <= d * s <= 0.0 by {
      if d < 0.0 { assert d * s - d == (-d) * (1.0 - s); assert (-d) * s >= 0.0; }
    }
    a + d * s
  }

  /** The index of the first point at or beyond x, searching from i. */
  function FirstAtLeast(pts: seq<Point>, x: real, i: nat): (r: nat)
    requires i < |pts| && x <= pts[|pts| - 1].0
    ensures i <= r < |pts| && x <= pts[r].0
    ensures forall j :: i <= j < r ==> pts[j].0 < x
    decreases |pts| - i
  {
    if x <= pts[i].0 then i else FirstAtLeast(pts, x, i + 1)
  }

  function Evaluate(pts: seq<Point>, x: real): (r: real)
    requires WellFormed(pts)
  {
    var last := pts[|pts| - 1];
    if x <= pts[0].0 then pts[0].1
    else if x >= last.0 then last.1
    else
      var i := FirstAtLeast(pts, x, 0);
      assert i > 0;
      var lo := pts[i - 1];
      var hi := pts[i];
      Lerp(lo.1, hi.1, (x - lo.0) / (hi.0 - lo.0))
  }

  /** A curve never leaves the band spanned by its points' values. */
  lemma EvaluateWithin(pts: seq<Point>, x: real)
    requires WellFormed(pts)
    ensures MinY(pts) <= Evaluate(pts, x) <= MaxY(pts)
  {
  }

  /** Linear interpolation between two points passes through them at their abscissae. */
  lemma {:induction false} EvaluateAtPoint(pts: seq<Point>, k: nat)
    requires WellFormed(pts) && k < |pts|
    ensures Evaluate(pts, pts[k].0) == pts[k].1
  {
    var x := pts[k].0;
    if x <= pts[0].0 {
      if k > 0 { IncreasingFrom(pts, 0, k); }
    } else if x >= pts[|pts| - 1].0 {
      if k < |pts| - 1 { IncreasingFrom(pts, k, |pts| - 1); }
    } else {
      var i := FirstAtLeast(pts, x, 0);
      if i < k { IncreasingFrom(pts, i, k); }
      assert i == k;
    }
  }

  lemma {:induction false} IncreasingFrom(pts: seq<Point>, i: nat, j: nat)
    requires Increasing(pts) && i < j < |pts|
    ensures pts[i].0 < pts[j].0
    decreases j - i
  {
    if i + 1 < j { IncreasingFrom(pts, i + 1, j); }
  }
}
