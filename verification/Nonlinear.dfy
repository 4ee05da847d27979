/** The few facts about products and quotients that the proofs lean on. */
module Nonlinear {
  import opened Prelude

  lemma MulMono(a: int, b: int, d: int)
    requires a <= b && 0 <= d
    ensures a * d <= b * d
  {
    assert (b - a) * d >= 0;
    assert b * d == a * d + (b - a) * d;
  }

  lemma MulMonoLeft(d: int, a: int, b: int)
    requires a <= b && 0 <= d
    ensures d * a <= d * b
  {
    MulMono(a, b, d);
  }

  lemma MulLess(a: int, b: int, d: int)
    requires a * d < b * d && 0 < d
    ensures a < b
  {
    if b <= a {
      MulMono(b, a, d);
    }
  }

  lemma DivIs(n: int, d: int)
    requires d > 0
    ensures n == d * (n / d) + n % d && 0 <= n % d < d
  {
  }

  /** Quotients are bounded below by anything whose product fits. */
  lemma DivBound(k: int, d: int, n: int)
    requires d > 0 && k * d <= n
    ensures k <= n / d
  {
    DivIs(n, d);
    assert (n / d + 1) * d == d * (n / d) + d;
    MulLess(k, n / d + 1, d);
  }

  /** Quotients are bounded above by anything whose product covers the dividend. */
  lemma DivBoundAbove(k: int, d: int, n: int)
    requires d > 0 && n < (k + 1) * d
    ensures n / d <= k
  {
    DivIs(n, d);
    assert (n / d) * d <= n;
    MulLess(n / d, k + 1, d);
  }

  lemma CeilDivIs(a: nat, b: nat)
    requires b > 0
    ensures a <= CeilDiv(a, b) * b < a + b
  {
    DivIs(a + b - 1, b);
    assert CeilDiv(a, b) * b == b * ((a + b - 1) / b);
  }

  /** The ceiling is the least bound. */
  lemma CeilDivLeast(a: nat, b: nat, k: nat)
    requires b > 0 && a <= k * b
    ensures CeilDiv(a, b) <= k
  {
    CeilDivIs(a, b);
    assert (k + 1) * b == k * b + b;
    MulLess(CeilDiv(a, b), k + 1, b);
  }
}
