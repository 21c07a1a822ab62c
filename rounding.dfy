/** Python's built-in `round(x, n)` on real numbers: the value nearest to `x`
    with `n` decimals, ties going to the neighbour whose last digit is even.
    The engine rounds before it sorts, so sort keys are rounded values. */
module Rounding {

  function Pow10(d: nat): (p: nat)
    ensures p >= 1
  {
    if d == 0 then 1 else 10 * Pow10(d - 1)
  }

  function Abs(x: real): real { if x < 0.0 then -x else x }

  /** `round(y)`: the nearest integer, halves to the even one. */
  function RoundHalfEven(y: real): (n: int)
    ensures Abs(n as real - y) <= 0.5
    ensures Abs(n as real - y) == 0.5 ==> n % 2 == 0
  {
    var f := y.Floor;
    var r := y - f as real;
    if r < 0.5 then f
    else if r > 0.5 then f + 1
    else if f % 2 == 0 then f
    else f + 1
  }

  /** `10 ** digits` as a real. */
  function Scale(digits: nat): (p: real)
    ensures p >= 1.0
  {
    Pow10(digits) as real
  }

  /** Rounding to a multiple of `1 / p`. */
  function RoundBy(x: real, p: real): real
    requires p > 0.0
  {
    RoundHalfEven(x * p) as real / p
  }

  /** `round(x, digits)`. */
  function Round(x: real, digits: nat): real
  {
    RoundBy(x, Scale(digits))
  }

  lemma MulLe(a: real, b: real, p: real)
    requires a <= b && p > 0.0
    ensures a * p <= b * p
  {
    assert b * p - a * p == (b - a) * p;
  }

  lemma DivLe(a: real, b: real, p: real)
    requires a <= b && p > 0.0
    ensures a / p <= b / p
  {
    assert b / p - a / p == (b - a) / p;
  }

  lemma RoundByError(x: real, p: real)
    requires p > 0.0
    ensures Abs(RoundBy(x, p) - x) <= 0.5 / p
  {
    var n := RoundHalfEven(x * p) as real;
    var d := n - x * p;
    assert RoundBy(x, p) - x == d / p;
    DivLe(Abs(d), 0.5, p);
    if d < 0.0 {
      DivLe(d, 0.0, p);
    } else {
      DivLe(0.0, d, p);
    }
  }

  /** Rounding never moves a value by more than half a unit of the last digit. */
  lemma RoundError(x: real, digits: nat)
    ensures Abs(Round(x, digits) - x) <= 0.5 / Scale(digits)
  {
    RoundByError(x, Scale(digits));
  }

  lemma {:induction false} RoundHalfEvenMonotone(x: real, y: real)
    requires x <= y
    ensures RoundHalfEven(x) <= RoundHalfEven(y)
  {
    var fx, fy := x.Floor, y.Floor;
    assert fx <= fy;
    if fx == fy {
      assert x - fx as real <= y - fy as real;
    }
  }

  lemma RoundByMonotone(x: real, y: real, p: real)
    requires x <= y && p > 0.0
    ensures RoundBy(x, p) <= RoundBy(y, p)
  {
    MulLe(x, y, p);
    RoundHalfEvenMonotone(x * p, y * p);
    DivLe(RoundHalfEven(x * p) as real, RoundHalfEven(y * p) as real, p);
  }

  /** Rounding keeps the order of its arguments (ties may merge). */
  lemma RoundMonotone(x: real, y: real, digits: nat)
    requires x <= y
    ensures Round(x, digits) <= Round(y, digits)
  {
    RoundByMonotone(x, y, Scale(digits));
  }
}
