/** Facts about division that several modules share. */
module Arithmetic {

  lemma MulLe(a: nat, x: nat, y: nat)
    requires x <= y
    ensures a * x <= a * y
  {
  }

  lemma QuotientIs(n: nat, d: nat, q: nat, r: nat)
    requires d > 0 && n == d * q + r && r < d
    ensures n / d == q && n % d == r
  {
    var q' := n / d;
    assert d * (q + 1) == d * q + d && d * (q' + 1) == d * q' + d;
    if q' > q { MulLe(d, q + 1, q'); }
    if q' < q { MulLe(d, q' + 1, q); }
  }

  lemma DivDiv(n: nat, a: nat, b: nat)
    requires a > 0 && b > 0
    ensures a * b > 0 && n / a / b == n / (a * b)
  {
    var q, r := n / a, n % a;
    var q', r' := q / b, q % b;
    assert n == (a * b) * q' + (a * r' + r);
    assert a * r' + r < a * b by {
      assert a * r' + a == a * (r' + 1);
      MulLe(a, r' + 1, b);
    }
    MulLe(a, 1, b);
    QuotientIs(n, a * b, q', a * r' + r);
  }

  lemma QuotientNat(n: nat, d: nat)
    requires d > 0
    ensures n / d >= 0
  {
  }

  /** A number below a product has a quotient below the other factor. */
  lemma QuotientBelow(n: nat, d: nat, m: nat)
    requires d > 0 && n < d * m
    ensures n / d < m
  {
    if n / d >= m { MulLe(d, m, n / d); }
  }

  lemma SmallRemainder(n: nat, d: nat)
    requires n < d
    ensures n % d == n && n / d == 0
  {
    QuotientIs(n, d, 0, n) by { assert d * 0 == 0; }
  }

  lemma QuotientMonotone(m: nat, n: nat, d: nat)
    requires d > 0 && m <= n
    ensures m / d <= n / d
  {
    assert d * (n / d + 1) == d * (n / d) + d;
    if m / d > n / d { MulLe(d, n / d + 1, m / d); }
  }
}
