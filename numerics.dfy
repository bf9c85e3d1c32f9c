/** Real-number counterparts of the numeric built-ins the generator, the
    controller and the requirement checks rely on: absolute value,
    truncation toward zero (Python's int() on a float), and rounding to a
    number of decimal digits with ties to even (Python's round(x, n)). */
module Numerics {

  function Abs(x: real): (r: real)
    ensures 0.0 <= r
    ensures r == x || r == -x
  {
    if x < 0.0 then -x else x
  }

  function Min(a: real, b: real): (r: real)
    ensures r <= a && r <= b
    ensures r == a || r == b
  {
    if b < a then b else a
  }

  /** int(x) in Python: the integer part of x, truncating toward zero
      (not floor: int(-0.01) is 0). */
  function Trunc(x: real): (r: int)
    ensures 0.0 <= x ==> r as real <= x < r as real + 1.0
    ensures x < 0.0 ==> r as real - 1.0 < x <= r as real
  {
    if 0.0 <= x then x.Floor else -((-x).Floor)
  }

  /** Truncation and floor disagree just below zero. */
  lemma TruncIsNotFloor()
    ensures Trunc(-0.01) == 0 && (-0.01).Floor == -1
  {
  }

  /** The integer part of i hundredths is i / 100, for every i >= 0. */
  lemma TruncHundredths(i: nat)
    ensures Trunc(i as real * 0.01) == i / 100
  {
  }

  /** A fraction u in [0, 1] of a non-negative c lies between 0 and c. */
  lemma FractionOf(c: real, u: real)
    requires 0.0 <= c && 0.0 <= u <= 1.0
    ensures 0.0 <= c * u <= c
  {
  }

  /** Nearest integer to y, ties to the even neighbour. */
  function RoundHalfEven(y: real): (r: int)
    ensures -0.5 <= r as real - y <= 0.5
    ensures Abs(r as real - y) == 0.5 ==> r % 2 == 0
  {
    var n := y.Floor;
    var f := y - n as real;
    if f < 0.5 then n
    else if f > 0.5 then n + 1
    else if n % 2 == 0 then n
    else n + 1
  }

  lemma RoundHalfEvenMonotone(y1: real, y2: real)
    requires y1 <= y2
    ensures RoundHalfEven(y1) <= RoundHalfEven(y2)
  {
  }

  lemma RoundHalfEvenOfInteger(n: int)
    ensures RoundHalfEven(n as real) == n
  {
  }

  lemma FloorOfInteger(n: int)
    ensures (n as real).Floor == n
  {
  }

  function Scale(digits: nat): (s: real)
    ensures 1.0 <= s
  {
    if digits == 0 then 1.0 else 10.0 * Scale(digits - 1)
  }

  predicate IsIntegral(y: real)
  {
    y.Floor as real == y
  }

  /** x rounded to the nearest multiple of 1/s, ties to even. */
  function RoundToScale(x: real, s: real): real
    requires 0.0 < s
  {
    RoundHalfEven(x * s) as real / s
  }

  /** round(x, digits): x rounded to the nearest multiple of 10^-digits,
      ties to even. */
  function Round(x: real, digits: nat): real
  {
    RoundToScale(x, Scale(digits))
  }

  /** round(x, 1) lands on a tenth, at most half a tenth away from x. */
  lemma RoundTenths(x: real)
    ensures IsIntegral(Round(x, 1) * 10.0)
    ensures -0.05 <= Round(x, 1) - x <= 0.05
  {
  }

  /** round(x, 1) leaves a value that already is a whole number of tenths alone. */
  lemma RoundTenthsOnGrid(x: real)
    requires IsIntegral(x * 10.0)
    ensures Round(x, 1) == x
  {
    assert Scale(1) == 10.0;
    RoundHalfEvenOfInteger((x * 10.0).Floor);
  }

  lemma RoundTenthsMonotone(x1: real, x2: real)
    requires x1 <= x2
    ensures Round(x1, 1) <= Round(x2, 1)
  {
    assert Scale(1) == 10.0;
    RoundHalfEvenMonotone(x1 * 10.0, x2 * 10.0);
  }

  /** round(x, 1) cannot leave an interval whose ends are whole tenths. */
  lemma RoundTenthsWithin(x: real, lo: real, hi: real)
    requires IsIntegral(lo * 10.0) && IsIntegral(hi * 10.0)
    requires lo <= x <= hi
    ensures lo <= Round(x, 1) <= hi
  {
    RoundTenthsMonotone(lo, x);
    RoundTenthsMonotone(x, hi);
    RoundTenthsOnGrid(lo);
    RoundTenthsOnGrid(hi);
  }

  /** round(x, 3) leaves a value that already is a whole number of thousandths alone. */
  lemma RoundThousandthsOnGrid(x: real)
    requires IsIntegral(x * 1000.0)
    ensures Round(x, 3) == x
  {
  }
}
