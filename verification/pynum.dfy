/** Python's numeric conversions and real-arithmetic facts, over unbounded reals. */
module PyNum {

  function Abs(x: real): real { if x < 0.0 then -x else x }

  /**
   * `int(x)` on a float: truncation toward zero.  Dafny's `Floor` rounds
   * toward minus infinity, so negative values are handled separately.
   */
  function Trunc(x: real): (r: int)
    ensures Abs(r as real) <= Abs(x) < Abs(r as real) + 1.0
    ensures x >= 0.0 ==> r >= 0
    ensures x <= 0.0 ==> r <= 0
  {
    if x >= 0.0 then x.Floor else -((-x).Floor)
  }

  /** A non-zero factor cancels from both sides of an equation. */
  lemma CancelFactor(a: real, b: real, n: real)
    requires n != 0.0 && a * n == b * n
    ensures a == b
  {
    assert (a - b) * n == 0.0;
  }

  /** Dividing by a non-zero `n` and multiplying back gives the dividend. */
  lemma DivTimes(a: real, n: real)
    requires n != 0.0
    ensures (a / n) * n == a
  {
  }

  /** A share `p` of a whole, as a percentage of that same whole, is 100. */
  lemma WholeIsHundred(p: real, c: real, n: real)
    requires n != 0.0 && c == n && p * n == c * 100.0
    ensures p == 100.0
  {
    assert p * n == 100.0 * n;
    CancelFactor(p, 100.0, n);
  }

  /** What is left of a whole `n` after `a`, as a share of `n`, is one less `a`'s share. */
  lemma ShareOfRest(a: real, n: real)
    requires n != 0.0
    ensures (n - a) / n == 1.0 - a / n
  {
    DivTimes(a, n);
    DivTimes(n - a, n);
    assert (1.0 - a / n) * n == n - (a / n) * n;
    CancelFactor((n - a) / n, 1.0 - a / n, n);
  }
}
