/** Small facts about real multiplication and division, each stated over
    plain variables so that callers can hand over exactly the terms they need
    and the solver never searches a large non-linear context. */
module RealArith {

  lemma MulMonotone(k: real, x: real, y: real)
    requires k >= 0.0 && x <= y
    ensures x * k <= y * k
  {
  }

  lemma MulStrictMonotone(k: real, x: real, y: real)
    requires k > 0.0 && x < y
    ensures x * k < y * k
  {
  }

  /** A non-zero factor cancels from both sides of an equation. */
  lemma CancelFactor(k: real, x: real, y: real)
    requires k != 0.0 && x * k == y * k
    ensures x == y
  {
  }

  /** Comparing a quotient by a positive divisor with a bound. */
  lemma QuotientBounds(a: real, b: real, c: real)
    requires b > 0.0
    ensures a <= c * b ==> a / b <= c
    ensures c * b < a ==> c < a / b
    ensures a > 0.0 ==> a / b > 0.0
  {
  }

  /** Dividing a non-negative amount by a larger positive number gives no
      more. */
  lemma QuotientAntitone(d: real, a: real, b: real)
    requires d >= 0.0 && 0.0 < a <= b
    ensures d / b <= d / a
  {
    var x, y := d / a, d / b;
    assert x * a == d && y * b == d;
    assert x >= 0.0;
    if y > x {
      MulStrictMonotone(b, x, y);
      MulMonotone(x, a, b);
      assert false;
    }
  }
}
