/** Facts about products and quotients of natural numbers. */
module Arith {

  lemma MulLe(a: nat, b: nat, c: nat, d: nat)
    requires a <= c && b <= d
    ensures a * b <= c * d
  {
    assert (c - a) * b >= 0;
    assert c * (d - b) >= 0;
  }

  /** The quotient, rounded up. */
  function CeilOf(a: nat, n: nat): nat
    requires n > 0
  {
    (a + n - 1) / n
  }

  lemma CeilDiv(a: nat, n: nat, v: nat)
    requires n > 0
    ensures CeilOf(a, n) <= v <==> a <= v * n
  {
    var c := CeilOf(a, n);
    assert c * n <= a + n - 1 < c * n + n;
    if c <= v { MulLe(c, n, v, n); }
    if v < c { MulLe(v + 1, n, c, n); assert (v + 1) * n == v * n + n; }
  }

  lemma FloorMul(d: nat, n: nat)
    requires n > 0
    ensures 0 <= d / n && d / n * n <= d
  {
  }

  lemma CeilSum(a: nat, d: nat, n: nat)
    requires n > 0
    ensures CeilOf(a + d, n) <= CeilOf(a, n) + CeilOf(d, n)
  {
    hide CeilOf;
    var lo, c := CeilOf(a, n), CeilOf(d, n);
    CeilDiv(a, n, lo);
    CeilDiv(d, n, c);
    assert (lo + c) * n == lo * n + c * n;
    CeilDiv(a + d, n, lo + c);
  }

  lemma CeilStep(a: nat, d: nat, n: nat, f: nat)
    requires n > 0 && f * n <= d
    ensures CeilOf(a, n) + f <= CeilOf(a + d, n)
  {
    hide CeilOf;
    var hi := CeilOf(a + d, n);
    CeilDiv(a + d, n, hi);
    if hi < f {
      MulLe(hi + 1, n, f, n);
    } else {
      assert (hi - f) * n == hi * n - f * n;
      CeilDiv(a, n, hi - f);
    }
  }

  /** Ceilings of two numbers `d` apart, each divided by `n`. */
  lemma CeilGap(a: nat, d: nat, n: nat)
    requires n > 0
    ensures d / n <= CeilOf(a + d, n) - CeilOf(a, n) <= CeilOf(d, n)
  {
    hide CeilOf;
    CeilSum(a, d, n);
    FloorMul(d, n);
    var f := d / n;
    CeilStep(a, d, n, f);
  }
}
