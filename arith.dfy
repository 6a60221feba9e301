/**
 * Python's built-in `round` as the daemon uses it, evaluated on the exact
 * mathematical value: to the nearest integer (or tenth), ties to the even
 * neighbour.
 */
module Arith {

  /** `round(n / d)` for integers, `d > 0`. */
  function RoundDiv(n: int, d: int): (r: int)
    requires d > 0
    ensures 2 * (n - r * d) <= d && 2 * (r * d - n) <= d
    ensures 2 * (n - r * d) == d || 2 * (r * d - n) == d ==> r % 2 == 0
  {
    var q, m := n / d, n % d;
    assert n == q * d + m;
    if 2 * m < d then q
    else if 2 * m > d then q + 1
    else if q % 2 == 0 then q
    else q + 1
  }

  /** `round(x)` for a real value: nearest integer, ties to even. */
  function RoundHalfEven(x: real): (r: int)
    ensures 2.0 * (x - r as real) <= 1.0 && 2.0 * (r as real - x) <= 1.0
    ensures 2.0 * (x - r as real) == 1.0 || 2.0 * (r as real - x) == 1.0 ==> r % 2 == 0
  {
    var f := x.Floor;
    var d := x - f as real;
    if d < 0.5 then f
    else if d > 0.5 then f + 1
    else if f % 2 == 0 then f
    else f + 1
  }

  lemma RoundHalfEvenMonotone(x: real, y: real)
    requires x <= y
    ensures RoundHalfEven(x) <= RoundHalfEven(y)
  {
    var fx, fy := x.Floor, y.Floor;
    if fx < fy {
      assert RoundHalfEven(x) <= fx + 1 <= fy <= RoundHalfEven(y);
    }
  }

  lemma RoundHalfEvenOfInt(k: int)
    ensures RoundHalfEven(k as real) == k
  {
    assert (k as real).Floor == k;
  }

  /** `round(x, 1)`: the nearest multiple of one tenth, ties to an even number of tenths. */
  function RoundToTenth(x: real): (r: real)
    ensures -0.05 <= r - x <= 0.05
  {
    var k := RoundHalfEven(x * 10.0);
    var r := k as real / 10.0;
    assert r * 10.0 == k as real;
    assert -0.5 <= k as real - x * 10.0 <= 0.5;
    r
  }

  /** The result of `round(x, 1)` is a whole number of tenths. */
  lemma RoundToTenthWholeTenths(x: real)
    ensures (RoundToTenth(x) * 10.0).Floor as real == RoundToTenth(x) * 10.0
  {
    var k := RoundHalfEven(x * 10.0);
    assert RoundToTenth(x) * 10.0 == k as real;
    assert (k as real).Floor == k;
  }

  lemma RoundToTenthMonotone(x: real, y: real)
    requires x <= y
    ensures RoundToTenth(x) <= RoundToTenth(y)
  {
    RoundHalfEvenMonotone(x * 10.0, y * 10.0);
  }

  /** A whole number is already a multiple of one tenth. */
  lemma RoundToTenthOfInt(k: int)
    ensures RoundToTenth(k as real) == k as real
  {
    RoundHalfEvenOfInt(10 * k);
    assert k as real * 10.0 == (10 * k) as real;
  }
}
