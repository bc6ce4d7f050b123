/** Python's `round` on exact reals: nearest integer, ties to the even one,
    and the clamp `max(lo, min(hi, x))`. */
module Rounding {

  /** `round(x)`: the nearest integer, an exact tie going to the even neighbour. */
  function RoundHalfEven(x: real): (n: int)
    ensures -0.5 <= n as real - x <= 0.5
    ensures (n as real - x == 0.5 || x - n as real == 0.5) ==> n % 2 == 0
  {
    var f := x.Floor;
    var d := x - f as real;
    if d < 0.5 then f
    else if d > 0.5 then f + 1
    else if f % 2 == 0 then f
    else f + 1
  }

  /** Rounding never reverses the order of two values. */
  lemma RoundHalfEvenMonotone(x: real, y: real)
    requires x <= y
    ensures RoundHalfEven(x) <= RoundHalfEven(y)
  { }

  /** `round(x, 3)`: x rounded to a multiple of 0.001, ties to even. */
  function RoundTo3(x: real): (r: real)
    ensures -0.0005 <= r - x <= 0.0005
    ensures (r * 1000.0).Floor as real == r * 1000.0
  {
    RoundHalfEven(x * 1000.0) as real / 1000.0
  }

  /** `max(lo, min(hi, x))`. */
  function Clamp(x: real, lo: real, hi: real): (r: real)
    requires lo <= hi
    ensures lo <= r <= hi
    ensures lo <= x <= hi ==> r == x
    ensures x < lo ==> r == lo
    ensures x > hi ==> r == hi
  {
    var upper := if hi < x then hi else x;
    if lo > upper then lo else upper
  }

  lemma ClampMonotone(x: real, y: real, lo: real, hi: real)
    requires lo <= hi && x <= y
    ensures Clamp(x, lo, hi) <= Clamp(y, lo, hi)
  { }
}
