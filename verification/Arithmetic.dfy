/** Facts about products and quotients that several modules use. */
module Arithmetic {
  function Min(a: real, b: real): real {
    if a <= b then a else b
  }

  function Max(a: real, b: real): real {
    if a >= b then a else b
  }

  lemma {:induction false} MulMonotone(a: int, b: int, d: int)
    requires a <= b && d >= 0
    ensures a * d <= b * d
  {
  }

  lemma {:induction false} IntMulAssoc(a: int, b: int, c: int)
    ensures a * (b * c) == (a * b) * c
  {
  }

  lemma {:induction false} MulAssoc(a: real, b: real, c: real)
    ensures a * (b * c) == a * b * c
  {
  }

  lemma {:induction false} CancelFactor(a: real, b: real, p: real, x: real, y: real)
    requires p > 0.0 && x == a * p && y == b * p && x <= y
    ensures a <= b
  {
  }

  /** Comparing quotients by cross-multiplication. */
  lemma {:induction false} DivideOrder(a: real, b: real, c: real, d: real)
    requires b > 0.0 && d > 0.0 && a * d >= c * b
    ensures a / b >= c / d
  {
    var x, y, p := a / b, c / d, b * d;
    assert p > 0.0;
    assert x * p == x * b * d == a * d;
    assert y * p == y * d * b == c * b;
    CancelFactor(y, x, p, c * b, a * d);
  }
}
