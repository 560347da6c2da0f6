/**
 * The numeric helpers of the engine that the generators call: clamping,
 * rounding to the nearest integer and the truncating cast from a float to an
 * integer. Floats are modelled as reals; rounding error is not modelled.
 */
module Mathf {
  function Clamp(x: int, lo: int, hi: int): (r: int)
    requires lo <= hi
    ensures lo <= r <= hi
    ensures lo <= x <= hi ==> r == x
    ensures x < lo ==> r == lo
    ensures x > hi ==> r == hi
  {
    if x < lo then lo else if x > hi then hi else x
  }

  function ClampReal(x: real, lo: real, hi: real): (r: real)
    requires lo <= hi
    ensures lo <= r <= hi
    ensures lo <= x <= hi ==> r == x
    ensures x < lo ==> r == lo
    ensures x > hi ==> r == hi
  {
    if x < lo then lo else if x > hi then hi else x
  }

  function Clamp01(x: real): (r: real)
    ensures 0.0 <= r <= 1.0
    ensures 0.0 <= x <= 1.0 ==> r == x
  {
    ClampReal(x, 0.0, 1.0)
  }

  function MaxReal(a: real, b: real): (r: real)
    ensures r >= a && r >= b && (r == a || r == b)
  {
    if a >= b then a else b
  }

  function MinReal(a: real, b: real): (r: real)
    ensures r <= a && r <= b && (r == a || r == b)
  {
    if a <= b then a else b
  }

  /** Mathf.RoundToInt: nearest integer, halves go to the even neighbour. */
  function RoundToInt(x: real): (r: int)
    ensures x - 0.5 <= r as real <= x + 0.5
  {
    var f := x.Floor;
    var d := x - f as real;
    if d < 0.5 then f
    else if d > 0.5 then f + 1
    else if f % 2 == 0 then f
    else f + 1
  }

  /** The C# cast of a float to an integer type: truncation toward zero. */
  function Trunc(x: real): (r: int)
    ensures x >= 0.0 ==> 0 <= r && r as real <= x < r as real + 1.0
    ensures x < 0.0 ==> r <= 0 && r as real - 1.0 < x <= r as real
  {
    if x >= 0.0 then x.Floor else -((-x).Floor)
  }

  /** Rounding a value that already lies between two integers keeps it between them. */
  lemma RoundToIntWithin(x: real, lo: int, hi: int)
    requires lo as real <= x <= hi as real
    ensures lo <= RoundToInt(x) <= hi
  {
  }
}
