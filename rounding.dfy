/** Python's `round(x)` and `round(x, 2)` on exact reals.

    Both round half to even, as Python does; they are applied here to the
    exact value rather than to a binary float. Everything the rest of the
    model proves uses only their contracts: the result is an integer (a whole
    number of cents) within half a unit (half a cent) of the argument. */
module Rounding {

  /** x is a whole number. */
  predicate IsInt(x: real) {
    x.Floor as real == x
  }

  /** x is a whole number of hundredths (an amount in cents). */
  predicate IsCents(x: real) {
    IsInt(x * 100.0)
  }

  /** `round(x)`: the nearest integer, ties going to the even one. */
  function Round(x: real): (r: int)
    ensures -0.5 <= r as real - x <= 0.5
    ensures r as real - x == 0.5 || x - r as real == 0.5 ==> r % 2 == 0
  {
    var f := x.Floor;
    var d := x - f as real;
    if d < 0.5 then f
    else if d > 0.5 then f + 1
    else if f % 2 == 0 then f
    else f + 1
  }

  /** `round(x, 2)`: the nearest multiple of 0.01. */
  function RoundCents(x: real): (r: real)
    ensures IsCents(r)
    ensures -0.005 <= r - x <= 0.005
  {
    var k := Round(x * 100.0);
    var r := k as real / 100.0;
    assert r * 100.0 == k as real;
    assert (k as real).Floor == k;
    assert r - x == (k as real - x * 100.0) / 100.0;
    r
  }

  /** An integer, seen as a real, is whole. */
  lemma WholeIsInt(k: int)
    ensures IsInt(k as real)
  {
    assert (k as real).Floor == k;
  }

  /** The only integer within half a unit of an integer is itself. */
  lemma IntWithinHalf(k: int, x: real)
    requires IsInt(x)
    requires -0.5 <= k as real - x <= 0.5
    ensures k as real == x
  {
    var f := x.Floor;
    assert -0.5 <= (k - f) as real <= 0.5;
  }

  /** Rounding a whole number gives it back. */
  lemma {:induction false} RoundOfInt(x: real)
    requires IsInt(x)
    ensures Round(x) as real == x
  {
    IntWithinHalf(Round(x), x);
  }

  /** Rounding an amount that is already in cents gives it back. */
  lemma {:induction false} RoundCentsOfCents(x: real)
    requires IsCents(x)
    ensures RoundCents(x) == x
  {
    var k := Round(x * 100.0);
    IntWithinHalf(k, x * 100.0);
    assert k as real == x * 100.0;
  }

  /** Sums and differences of whole numbers are whole. */
  lemma IntClosed(x: real, y: real)
    requires IsInt(x) && IsInt(y)
    ensures IsInt(x + y) && IsInt(x - y)
  {
    var a, b := x.Floor, y.Floor;
    assert x + y == (a + b) as real;
    assert ((a + b) as real).Floor == a + b;
    assert x - y == (a - b) as real;
    assert ((a - b) as real).Floor == a - b;
  }

  /** Sums and differences of amounts in cents are in cents. */
  lemma CentsClosed(x: real, y: real)
    requires IsCents(x) && IsCents(y)
    ensures IsCents(x + y) && IsCents(x - y)
  {
    IntClosed(x * 100.0, y * 100.0);
    assert (x + y) * 100.0 == x * 100.0 + y * 100.0;
    assert (x - y) * 100.0 == x * 100.0 - y * 100.0;
  }
}
