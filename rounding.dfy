/**
 * The two real-to-integer conversions the converter relies on:
 * Python's `int()` applied to a float, which truncates toward zero, and `math.ceil`.
 */
module Rounding {

  /** Truncation toward zero, as `int(x)` on a float: the integer part, with the sign kept. */
  function Trunc(x: real): (r: int)
    ensures 0.0 <= x ==> r as real <= x < r as real + 1.0
    ensures x < 0.0 ==> r as real - 1.0 < x <= r as real
  {
    if x >= 0.0 then x.Floor else -((-x).Floor)
  }

  /** The least integer not below `x`, as `math.ceil(x)`. */
  function Ceil(x: real): (r: int)
    ensures x <= r as real < x + 1.0
  {
    -((-x).Floor)
  }

  /** Truncation never reverses the order of two reals. */
  lemma TruncMonotone(x: real, y: real)
    requires x <= y
    ensures Trunc(x) <= Trunc(y)
  {
  }

  /** A real that already holds an integer truncates to that integer. */
  lemma TruncOfInteger(k: int)
    ensures Trunc(k as real) == k
  {
  }
}
