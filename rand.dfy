/**
 * The engine's random number generator, replaced by explicit draws. A draw
 * `u` of Rand.Value is a real in [0, 1); integer draws are naturals that the
 * helpers below reduce to the requested range the way Verse.Rand does.
 */
module Rand {
  import opened Wrappers

  predicate IsUnit(u: real) { 0.0 <= u < 1.0 }

  /** Rand.Chance(p): true when the draw falls below p. */
  function Chance(p: real, u: real): (r: bool)
    requires IsUnit(u)
    ensures p <= 0.0 ==> !r
    ensures p >= 1.0 ==> r
  {
    u < p
  }

  /** Rand.Range(min, max) on integers: max is exclusive; an empty range yields min. */
  function RangeInt(min: int, max: int, draw: nat): (r: int)
    ensures min <= r
    ensures min < max ==> r < max
    ensures max <= min ==> r == min
  {
    if max <= min then min else min + draw % (max - min)
  }

  /** Rand.RangeInclusive(min, max). */
  function RangeInclusive(min: int, max: int, draw: nat): (r: int)
    ensures min <= max ==> min <= r <= max
  {
    RangeInt(min, max + 1, draw)
  }

  /** A unit draw scales a positive width to a value inside it. */
  function Scale(u: real, x: real): (r: real)
    requires IsUnit(u) && x > 0.0
    ensures 0.0 <= r < x
  {
    var r := u * x;
    assert x - r == (1.0 - u) * x;
    r
  }

  /** Rand.Range(min, max) on floats. */
  function RangeReal(min: real, max: real, u: real): (r: real)
    requires IsUnit(u)
    ensures min <= max ==> min <= r <= max
    ensures max <= min ==> r == min
  {
    if max <= min then min
    else min + Scale(u, max - min)
  }

  /** TryRandomElement / RandomElement: an element chosen by an index draw, none from an empty list. */
  function RandomElement<T>(s: seq<T>, draw: nat): (r: Option<T>)
    ensures r.Some? <==> |s| > 0
    ensures r.Some? ==> r.value in s
  {
    if |s| == 0 then None else Some(s[draw % |s|])
  }

  function Positive(w: real): real { if w > 0.0 then w else 0.0 }

  /** The sum of the positive weights of a prefix of the list. */
  function PositiveSum(w: seq<real>): (r: real)
    ensures r >= 0.0
  {
    if |w| == 0 then 0.0 else PositiveSum(w[..|w| - 1]) + Positive(w[|w| - 1])
  }

  /** The first index, from i on, at which the running sum of positive weights passes the target. */
  function PickFrom(w: seq<real>, i: nat, target: real): (r: Option<nat>)
    requires i <= |w|
    ensures r.Some? ==> i <= r.value < |w| && w[r.value] > 0.0
    ensures r.Some? ==> PositiveSum(w[..r.value + 1]) > target
    decreases |w| - i
  {
    if i == |w| then None
    else if w[i] > 0.0 && PositiveSum(w[..i + 1]) > target then Some(i)
    else PickFrom(w, i + 1, target)
  }

  /**
   * TryRandomElementByWeight: the draw is scaled to the total positive
   * weight and the element whose slice of the running total holds it is
   * chosen; nothing is chosen when no weight is positive.
   */
  function WeightedPick(w: seq<real>, u: real): (r: Option<nat>)
    requires IsUnit(u)
  {
    var total := PositiveSum(w);
    if total <= 0.0 then None else PickFrom(w, 0, Scale(u, total))
  }

  lemma {:induction false} PositiveSumFromZero(w: seq<real>, i: nat)
    requires i <= |w|
    requires forall j :: 0 <= j < i ==> w[j] <= 0.0
    ensures PositiveSum(w[..i]) == 0.0
  {
    if i > 0 {
      assert w[..i][..i - 1] == w[..i - 1];
      PositiveSumFromZero(w, i - 1);
    }
  }

  lemma {:induction false} PickFromFinds(w: seq<real>, i: nat, target: real)
    requires i <= |w|
    requires PositiveSum(w[..i]) <= target < PositiveSum(w)
    ensures PickFrom(w, i, target).Some?
    decreases |w| - i
  {
    assert w[..|w|] == w;
    if i == |w| {
    } else if w[i] > 0.0 && PositiveSum(w[..i + 1]) > target {
    } else {
      assert w[..i + 1][..i] == w[..i];
      PickFromFinds(w, i + 1, target);
    }
  }

  /** A weighted pick yields a valid index of positive weight exactly when some weight is positive. */
  lemma WeightedPickSound(w: seq<real>, u: real)
    requires IsUnit(u)
    ensures WeightedPick(w, u).Some? <==> PositiveSum(w) > 0.0
    ensures WeightedPick(w, u).Some? ==> WeightedPick(w, u).value < |w| && w[WeightedPick(w, u).value] > 0.0
  {
    var total := PositiveSum(w);
    if total > 0.0 {
      assert w[..0] == [];
      PickFromFinds(w, 0, Scale(u, total));
    }
  }

  /** When every weight is positive, a pick from a non-empty list always succeeds. */
  lemma {:induction false} AllPositiveSum(w: seq<real>)
    requires forall j :: 0 <= j < |w| ==> w[j] > 0.0
    ensures |w| > 0 ==> PositiveSum(w) > 0.0
  {
    if |w| > 0 {
      AllPositiveSum(w[..|w| - 1]);
    }
  }
}
