/**
 The check bits of the format and version information: the remainder of a division of bit
 strings, read as polynomials over two elements.
 */
module BchCode {
  import opened QrBits

  /** Exclusive or of numbers. */
  function Xor(a: nat, b: nat): nat
    decreases a + b
  {
    if a == 0 then b else if b == 0 then a
    else (if a % 2 == b % 2 then 0 else 1) + 2 * Xor(a / 2, b / 2)
  }

  /** The number of binary digits. */
  function Digits(v: nat): nat { if v == 0 then 0 else 1 + Digits(v / 2) }

  /** The product without carries. */
  function Product(q: nat, p: nat): nat {
    if q == 0 then 0 else Xor(if q % 2 == 1 then p else 0, 2 * Product(q / 2, p))
  }

  lemma {:induction false} XorStep(a: nat, b: nat)
    ensures Xor(a, b) % 2 == (if a % 2 == b % 2 then 0 else 1)
    ensures Xor(a, b) / 2 == Xor(a / 2, b / 2)
  {
    if a == 0 || b == 0 {
      assert Xor(0, b / 2) == b / 2;
    }
  }

  lemma HalvesEqual(a: nat, b: nat)
    requires a % 2 == b % 2 && a / 2 == b / 2
    ensures a == b
  {
  }

  lemma {:induction false} XorComm(a: nat, b: nat)
    ensures Xor(a, b) == Xor(b, a)
    decreases a + b
  {
    if a != 0 && b != 0 { XorComm(a / 2, b / 2); }
  }

  lemma {:induction false} XorAssoc(a: nat, b: nat, c: nat)
    ensures Xor(Xor(a, b), c) == Xor(a, Xor(b, c))
    decreases a + b + c
  {
    hide Xor;
    var l, r := Xor(Xor(a, b), c), Xor(a, Xor(b, c));
    if a == 0 && b == 0 && c == 0 {
      XorZero(0);
    } else {
      XorStep(a, b);
      XorStep(Xor(a, b), c);
      XorStep(b, c);
      XorStep(a, Xor(b, c));
      XorAssoc(a / 2, b / 2, c / 2);
      HalvesEqual(l, r);
    }
  }

  lemma XorZero(a: nat)
    ensures Xor(a, 0) == a && Xor(0, a) == a
  {
  }

  lemma {:induction false} XorSelf(a: nat)
    ensures Xor(a, a) == 0
  {
    if a != 0 { XorSelf(a / 2); }
  }

  lemma XorEqual(a: nat, b: nat)
    requires Xor(a, b) == 0
    ensures a == b
  {
    hide Xor;
    XorAssoc(a, b, b);
    XorSelf(b);
    XorZero(a);
    XorZero(b);
  }

  /** Both numbers of n digits or fewer give one of n or fewer; both of exactly n give fewer. */
  lemma {:induction false} XorDigits(a: nat, b: nat, n: nat)
    requires Digits(a) <= n && Digits(b) <= n
    ensures Digits(Xor(a, b)) <= n
    ensures n > 0 && Digits(a) == n && Digits(b) == n ==> Digits(Xor(a, b)) < n
    ensures Digits(a) == n && Digits(b) < n ==> Digits(Xor(a, b)) == n
    decreases n
  {
    hide Xor;
    XorZero(a);
    XorZero(b);
    if a != 0 && b != 0 {
      XorDigits(a / 2, b / 2, n - 1);
      XorStep(a, b);
      var x := Xor(a, b);
      if n == 1 {
        assert a == 1 && b == 1 by { DigitsOne(a); DigitsOne(b); }
        XorSelf(1);
      } else {
        assert Digits(x) <= 1 + Digits(x / 2);
      }
    }
  }

  lemma DigitsOne(a: nat)
    requires Digits(a) == 1
    ensures a == 1
  {
    assert Digits(a / 2) == 0;
  }

  lemma {:induction false} ShiftDigits(p: nat, k: nat)
    requires p > 0
    ensures p * Pow2(k) > 0 && Digits(p * Pow2(k)) == Digits(p) + k
  {
    hide Pow2;
    Doubled(p, k);
    if k > 0 {
      ShiftDigits(p, k - 1);
      DoubleDigits(p * Pow2(k - 1));
    }
  }

  lemma Doubled(p: nat, k: nat)
    ensures p * Pow2(0) == p && (k > 0 ==> p * Pow2(k) == 2 * (p * Pow2(k - 1)))
  {
    if k > 0 { assert p * (2 * Pow2(k - 1)) == 2 * (p * Pow2(k - 1)); }
  }

  // ---------------------------------------------------------------------------------------
  // Products

  lemma DoubleXor(a: nat, b: nat)
    ensures 2 * Xor(a, b) == Xor(2 * a, 2 * b)
  {
    hide Xor;
    XorStep(2 * a, 2 * b);
    HalvesEqual(2 * Xor(a, b), Xor(2 * a, 2 * b));
  }

  lemma XorSwap(a: nat, b: nat, c: nat, d: nat)
    ensures Xor(Xor(a, b), Xor(c, d)) == Xor(Xor(a, c), Xor(b, d))
  {
    hide Xor;
    XorAssoc(a, b, Xor(c, d));
    XorAssoc(b, c, d);
    XorComm(b, c);
    XorAssoc(c, b, d);
    XorAssoc(a, c, Xor(b, d));
  }

  lemma ProductStep(q: nat, p: nat)
    ensures Product(q, p) == Xor(if q % 2 == 1 then p else 0, 2 * Product(q / 2, p))
    ensures Product(0, p) == 0
  {
    XorZero(0);
  }

  /** Products distribute over exclusive or. */
  lemma {:induction false} ProductXor(q: nat, r: nat, p: nat)
    ensures Product(Xor(q, r), p) == Xor(Product(q, p), Product(r, p))
    decreases q + r
  {
    hide Xor, Product;
    if q == 0 && r == 0 {
      XorZero(0);
      ProductStep(0, p);
    } else {
      var a, b := if q % 2 == 1 then p else 0, if r % 2 == 1 then p else 0;
      XorStep(q, r);
      ProductStep(q, p);
      ProductStep(r, p);
      ProductStep(Xor(q, r), p);
      ProductXor(q / 2, r / 2, p);
      DoubleXor(Product(q / 2, p), Product(r / 2, p));
      XorSwap(a, 2 * Product(q / 2, p), b, 2 * Product(r / 2, p));
      XorSelf(p);
      XorZero(p);
      XorZero(0);
    }
  }

  lemma {:induction false} ProductPower(k: nat, p: nat)
    ensures Product(Pow2(k), p) == p * Pow2(k)
  {
    hide Product, Xor;
    ProductStep(Pow2(k), p);
    if k == 0 {
      ProductStep(0, p);
      XorZero(p);
      assert p * Pow2(0) == p;
    } else {
      ProductPower(k - 1, p);
      assert Pow2(k) % 2 == 0 && Pow2(k) / 2 == Pow2(k - 1);
      XorZero(2 * Product(Pow2(k - 1), p));
      assert p * Pow2(k) == 2 * (p * Pow2(k - 1));
    }
  }

  lemma DoubleDigits(a: nat)
    requires a > 0
    ensures Digits(2 * a) == Digits(a) + 1
  {
    assert 2 * a / 2 == a;
  }

  /** A product has at least as many digits as either factor. */
  lemma {:induction false} ProductDigits(q: nat, p: nat)
    requires q > 0 && p > 0
    ensures Digits(Product(q, p)) == Digits(q) + Digits(p) - 1
  {
    hide Product, Xor;
    ProductStep(q, p);
    var a, m := if q % 2 == 1 then p else 0, Product(q / 2, p);
    if q == 1 {
      ProductStep(0, p);
      XorZero(p);
    } else {
      ProductDigits(q / 2, p);
      assert m > 0;
      DoubleDigits(m);
      XorComm(a, 2 * m);
      assert Digits(a) <= Digits(p);
      assert Digits(q / 2) >= 1;
      XorDigits(2 * m, a, Digits(2 * m));
    }
  }

  // ---------------------------------------------------------------------------------------
  // The division

  method FindMSBSet(value: nat) returns (numDigits: nat)
    ensures numDigits == Digits(value)
  {
    numDigits := 0;
    var v := value;
    while v != 0
      invariant numDigits + Digits(v) == Digits(value)
      decreases v
    {
      numDigits := numDigits + 1;
      v := v / 2;
    }
  }

  /** `code` is a remainder of the shifted value. */
  ghost predicate IsRemainder(value: nat, poly: nat, code: nat) {
    && Digits(code) < Digits(poly)
    && exists q: nat :: Xor(value * Pow2(Digits(poly) - 1), code) == Product(q, poly)
  }

  /**
   Shifts and reduces until fewer digits than the divisor's are left. A machine word is wide
   enough when the shifted value is below 2^63.
   */
  method CalculateBCHCode(value: nat, poly: nat) returns (code: nat)
    requires poly > 0 && value * Pow2(Digits(poly) - 1) < 0x8000_0000_0000_0000
    ensures IsRemainder(value, poly, code)
  {
    hide Xor, Product, Digits, Pow2;
    var msbSetInPoly := FindMSBSet(poly);
    PositiveDigits(poly);
    var shifted := value * Pow2(msbSetInPoly - 1);
    code := shifted;
    ghost var q := 0;
    XorSelf(shifted);
    ProductStep(0, poly);
    var msb := FindMSBSet(code);
    while msb >= msbSetInPoly
      invariant msb == Digits(code)
      invariant Xor(shifted, code) == Product(q, poly)
      decreases msb
    {
      var k := msb - msbSetInPoly;
      ShiftDigits(poly, k);
      XorDigits(code, poly * Pow2(k), msb);
      XorAssoc(shifted, code, poly * Pow2(k));
      ProductPower(k, poly);
      ProductXor(q, Pow2(k), poly);
      q := Xor(q, Pow2(k));
      code := Xor(code, poly * Pow2(k));
      msb := FindMSBSet(code);
    }
  }

  lemma PositiveDigits(v: nat)
    requires v > 0
    ensures Digits(v) >= 1
  {
  }

  /** There is only one remainder. */
  lemma RemainderUnique(value: nat, poly: nat, code: nat, other: nat)
    requires poly > 0 && IsRemainder(value, poly, code) && IsRemainder(value, poly, other)
    ensures code == other
  {
    hide Xor, Product, Digits, Pow2;
    PositiveDigits(poly);
    var shifted := value * Pow2(Digits(poly) - 1);
    var q: nat :| Xor(shifted, code) == Product(q, poly);
    var r: nat :| Xor(shifted, other) == Product(r, poly);
    ProductXor(q, r, poly);
    XorSwap(shifted, code, shifted, other);
    XorSelf(shifted);
    XorZero(Xor(code, other));
    XorDigits(code, other, Digits(poly) - 1);
    if Xor(q, r) > 0 {
      ProductDigits(Xor(q, r), poly);
      PositiveDigits(Xor(q, r));
      assert false;
    }
    ProductStep(0, poly);
    XorEqual(code, other);
  }
}
