/** Products and quotients, stated over plain numbers. */
module Arithmetic {

  lemma MulMonotone(a: int, b: int, d: nat)
    requires a <= b
    ensures a * d <= b * d
  {
    assert (b - a) * d >= 0;
  }

  lemma DivUnique(a: nat, d: nat, q: nat)
    requires d > 0 && q * d <= a < q * d + d
    ensures a / d == q
  {
    var q', r := a / d, a % d;
    assert a == q' * d + r && 0 <= r < d;
    if q' < q {
      assert (q' + 1) * d <= q * d by { MulMonotone(q' + 1, q, d); }
      assert false;
    } else if q < q' {
      assert (q + 1) * d <= q' * d by { MulMonotone(q + 1, q', d); }
      assert false;
    }
  }

  lemma DivExact(q: nat, d: nat)
    requires d > 0
    ensures q * d / d == q
  {
    DivUnique(q * d, d, q);
  }

  lemma QuotientWithin(a: nat, d: nat, lo: int, hi: int)
    requires d > 0 && lo * d <= a < hi * d
    ensures lo <= a / d < hi
    ensures (a / d) * d <= a < (a / d) * d + d
  {
    var i := a / d;
    assert i * d <= a < i * d + d == (i + 1) * d;
    if i < lo {
      MulMonotone(i + 1, lo, d);
    }
    if hi <= i {
      MulMonotone(hi, i, d);
    }
  }

  /** a * n, by addition. */
  function Times(a: nat, n: nat): nat {
    if n == 0 then 0 else Times(a, n - 1) + a
  }

  lemma {:induction false} TimesIsProduct(a: nat, n: nat)
    ensures Times(a, n) == a * n
  {
    if n == 0 {
    } else {
      TimesIsProduct(a, n - 1);
    }
  }

  lemma DivMod(a: nat, d: nat)
    requires d > 0
    ensures 0 <= a / d && 0 <= a % d < d && a == Times(d, a / d) + a % d
  {
    TimesIsProduct(d, a / d);
  }
}
