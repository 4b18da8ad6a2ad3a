/**
 The field GF(256) that both ends of the QR code path compute in, with reduction polynomial
 x^8 + x^4 + x^3 + x^2 + 1: a sum is an exclusive or, and a product goes through a table of
 powers of 2 and a table of logarithms.
 */
module GaloisField {
  import Doubling

  datatype Elem = Elem(bits: bv8)

  const ZERO := Elem(0)
  const ONE := Elem(1)

  function Add(a: Elem, b: Elem): Elem {
    Elem(a.bits ^ b.bits)
  }

  /** The powers of 2. */
  ghost function Exp(k: nat): Elem {
    Elem(Doubling.Pow(k))
  }

  /** The logarithm of a non-zero element; the table entry for zero holds 0 and is never used. */
  ghost function Log(a: Elem): (k: nat)
    ensures a != ZERO ==> k < 255 && Exp(k) == a
    ensures a == ZERO ==> k == 0
  {
    if a.bits == 0 then 0 else
      Doubling.LogExists(a.bits);
      var k: nat :| k < 255 && Doubling.Pow(k) == a.bits;
      k
  }

  /** The product, as the table lookups compute it. */
  ghost function Mul(a: Elem, b: Elem): Elem {
    if a == ZERO || b == ZERO then ZERO else Exp((Log(a) + Log(b)) % 255)
  }

  /** The inverse, as the table lookups compute it; 0 stands in where the source throws. */
  ghost function Inv(a: Elem): Elem {
    if a == ZERO then ZERO else Exp(255 - Log(a))
  }

  // ---------------------------------------------------------------------------------------
  // Addition

  lemma AddLaws(a: Elem, b: Elem)
    ensures Add(a, b) == Add(b, a)
    ensures Add(a, ZERO) == a && Add(ZERO, a) == a && Add(a, a) == ZERO
    ensures Add(a, b) == ZERO <==> a == b
  {
    XorZero(a.bits, b.bits);
    assert a.bits ^ b.bits == b.bits ^ a.bits;
    assert a.bits ^ 0 == a.bits && 0 ^ a.bits == a.bits;
  }

  lemma XorZero(x: bv8, y: bv8)
    ensures x ^ y == 0 <==> x == y
  {
  }

  lemma AddAssoc(a: Elem, b: Elem, c: Elem)
    ensures Add(Add(a, b), c) == Add(a, Add(b, c))
  {
  }

  lemma AddSwap(a: Elem, b: Elem, c: Elem, d: Elem)
    ensures Add(Add(a, b), Add(c, d)) == Add(Add(a, c), Add(b, d))
  {
  }

  lemma AddCancel(a: Elem, b: Elem)
    ensures Add(Add(a, b), b) == a && Add(b, Add(b, a)) == a
  {
    hide *;
    AddAssoc(a, b, b);
    AddAssoc(b, b, a);
    AddLaws(a, b);
    AddLaws(b, b);
  }

  // ---------------------------------------------------------------------------------------
  // Powers

  lemma ExpNonZero(k: nat)
    ensures Exp(k) != ZERO
  {
    hide Doubling.Pow;
    Doubling.PowNonZero(k);
  }

  lemma ExpInjective(i: nat, j: nat)
    requires i < 255 && j < 255 && Exp(i) == Exp(j)
    ensures i == j
  {
    hide Doubling.Pow;
    Doubling.PowInjective(i, j);
  }

  lemma ExpZero()
    ensures Exp(0) == ONE && Exp(255) == ONE
  {
    Doubling.PowTo255();
  }

  lemma ExpMod(k: nat)
    ensures Exp(k % 255) == Exp(k)
  {
    hide Doubling.Pow;
    Doubling.PowMod(k);
  }

  lemma LogUnique(k: nat)
    requires k < 255
    ensures Log(Exp(k)) == k
  {
    hide Exp, Log;
    ExpNonZero(k);
    ExpInjective(Log(Exp(k)), k);
  }

  // ---------------------------------------------------------------------------------------
  // Multiplication

  lemma LogOf(j: nat)
    ensures Log(Exp(j)) == j % 255
  {
    hide Exp, Log;
    ExpMod(j);
    LogUnique(j % 255);
  }

  lemma ModSum(j: nat, k: nat)
    ensures (j % 255 + k % 255) % 255 == (j + k) % 255
  {
  }

  lemma MulExp(j: nat, k: nat)
    ensures Mul(Exp(j), Exp(k)) == Exp(j + k)
  {
    hide Exp, Log;
    ExpNonZero(j);
    ExpNonZero(k);
    LogOf(j);
    LogOf(k);
    ModSum(j, k);
    ExpMod(j + k);
  }

  lemma MulComm(a: Elem, b: Elem)
    ensures Mul(a, b) == Mul(b, a)
  {
    hide Exp, Log;
  }

  lemma MulZero(a: Elem)
    ensures Mul(a, ZERO) == ZERO && Mul(ZERO, a) == ZERO
  {
    hide Exp, Log;
  }

  lemma MulNonZero(a: Elem, b: Elem)
    ensures Mul(a, b) == ZERO <==> a == ZERO || b == ZERO
  {
    hide Exp, Log;
    ExpNonZero((Log(a) + Log(b)) % 255);
  }

  lemma MulAssoc(a: Elem, b: Elem, c: Elem)
    ensures Mul(Mul(a, b), c) == Mul(a, Mul(b, c))
  {
    hide Mul, Exp, Log;
    MulZero(a);
    MulZero(b);
    MulZero(c);
    MulZero(Mul(a, b));
    MulZero(Mul(b, c));
    if a != ZERO && b != ZERO && c != ZERO {
      var i, j, k := Log(a), Log(b), Log(c);
      MulExp(i, j);
      MulExp(j, k);
      MulExp(i + j, k);
      MulExp(i, j + k);
      assert i + j + k == i + (j + k);
    }
  }

  lemma MulOne(a: Elem)
    ensures Mul(ONE, a) == a && Mul(a, ONE) == a
  {
    hide Mul, Exp, Log;
    MulComm(ONE, a);
    MulZero(ONE);
    if a != ZERO {
      ExpZero();
      MulExp(0, Log(a));
    }
  }

  /** Multiplying by a power of 2 is doubling that many times. */
  lemma MulIsShifted(k: nat, b: Elem)
    ensures Mul(Exp(k), b) == Elem(Doubling.Shifted(k, b.bits))
  {
    if b == ZERO {
      MulZero(Exp(k));
      Doubling.ShiftedZero(k, b.bits);
    } else {
      MulExp(k, Log(b));
      assert Exp(Log(b)) == b;
      Doubling.ShiftedAdd(k, Log(b), 1);
    }
  }

  lemma MulDistrib(a: Elem, b: Elem, c: Elem)
    ensures Mul(a, Add(b, c)) == Add(Mul(a, b), Mul(a, c))
    ensures Mul(Add(b, c), a) == Add(Mul(b, a), Mul(c, a))
  {
    hide Mul, Log, Exp;
    MulComm(a, b);
    MulComm(a, c);
    MulComm(a, Add(b, c));
    if a == ZERO {
      MulZero(b);
      MulZero(c);
      MulZero(Add(b, c));
      AddLaws(ZERO, ZERO);
    } else {
      MulIsShifted(Log(a), b);
      MulIsShifted(Log(a), c);
      MulIsShifted(Log(a), Add(b, c));
      Doubling.ShiftedLinear(Log(a), b.bits, c.bits);
    }
  }

  lemma InvIsInverse(a: Elem)
    requires a != ZERO
    ensures Inv(a) != ZERO && Mul(a, Inv(a)) == ONE && Mul(Inv(a), a) == ONE
  {
    hide Exp, Log, Mul;
    ExpNonZero(255 - Log(a));
    MulExp(Log(a), 255 - Log(a));
    ExpZero();
    MulComm(a, Inv(a));
  }

  lemma MulCancel(a: Elem, b: Elem)
    requires a != ZERO
    ensures Mul(Inv(a), Mul(a, b)) == b && Mul(a, Mul(Inv(a), b)) == b
    ensures Mul(Mul(b, a), Inv(a)) == b && Mul(Mul(b, Inv(a)), a) == b
  {
    hide *;
    InvIsInverse(a);
    MulAssoc(Inv(a), a, b);
    MulAssoc(a, Inv(a), b);
    MulAssoc(b, a, Inv(a));
    MulAssoc(b, Inv(a), a);
    MulOne(b);
  }
}
