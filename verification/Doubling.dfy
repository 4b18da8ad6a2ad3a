/**
 Doubling bytes modulo x^8 + x^4 + x^3 + x^2 + 1, the step that fills the table of powers in
 both ends of the QR code path: starting from 1 it visits each of the 255 non-zero bytes
 exactly once and then returns to 1.
 */
module Doubling {

  /** Twice `a`, reduced when the top bit falls off. */
  function Xtime(a: bv8): bv8 {
    (a << 1) ^ (if a & 0x80 != 0 then 0x1d else 0)
  }

  /** `a` doubled `k` times. */
  ghost function Shifted(k: nat, a: bv8): bv8 {
    if k == 0 then a else Xtime(Shifted(k - 1, a))
  }

  /** The powers of 2. */
  ghost function Pow(k: nat): bv8 {
    Shifted(k, 1)
  }

  lemma XtimeLinear(a: bv8, b: bv8)
    ensures Xtime(a ^ b) == Xtime(a) ^ Xtime(b)
  {
    assert (a ^ b) << 1 == (a << 1) ^ (b << 1);
    assert (a ^ b) & 0x80 == (a & 0x80) ^ (b & 0x80);
    if a & 0x80 == 0 { } else { }
    if b & 0x80 == 0 { } else { }
  }

  lemma XtimeInjective(a: bv8, b: bv8)
    requires Xtime(a) == Xtime(b)
    ensures a == b
  {
  }

  lemma XtimeZero(a: bv8)
    ensures Xtime(a) == 0 <==> a == 0
  {
  }

  lemma {:induction false} ShiftedLinear(k: nat, a: bv8, b: bv8)
    ensures Shifted(k, a ^ b) == Shifted(k, a) ^ Shifted(k, b)
  {
    hide Xtime;
    if k > 0 {
      ShiftedLinear(k - 1, a, b);
      XtimeLinear(Shifted(k - 1, a), Shifted(k - 1, b));
    }
  }

  lemma {:induction false} ShiftedZero(k: nat, a: bv8)
    ensures Shifted(k, a) == 0 <==> a == 0
  {
    if k > 0 {
      ShiftedZero(k - 1, a);
      XtimeZero(Shifted(k - 1, a));
    }
  }

  lemma {:induction false} ShiftedAdd(j: nat, k: nat, a: bv8)
    ensures Shifted(j + k, a) == Shifted(j, Shifted(k, a))
  {
    if j > 0 { ShiftedAdd(j - 1, k, a); }
  }

  lemma {:induction false} ShiftedInjective(k: nat, a: bv8, b: bv8)
    requires Shifted(k, a) == Shifted(k, b)
    ensures a == b
  {
    if k > 0 {
      XtimeInjective(Shifted(k - 1, a), Shifted(k - 1, b));
      ShiftedInjective(k - 1, a, b);
    }
  }

  // ---------------------------------------------------------------------------------------
  // The generator has order 255

  function Times32(a: bv8): bv8 { Xtime(Xtime(Xtime(Xtime(Xtime(a))))) }

  function Times2To15(a: bv8): bv8 { Times32(Times32(Times32(a))) }

  lemma Pow15(k: nat)
    ensures Pow(k + 5) == Times32(Pow(k))
    ensures Pow(k + 15) == Times2To15(Pow(k))
  {
    ShiftedAdd(5, k, 1);
    ShiftedAdd(10, k, 1);
    ShiftedAdd(15, k, 1);
    FiveSteps(Pow(k));
    FiveSteps(Shifted(5, Pow(k)));
    FiveSteps(Shifted(10, Pow(k)));
    ShiftedAdd(5, 5, Pow(k));
    ShiftedAdd(5, 10, Pow(k));
  }

  lemma FiveSteps(a: bv8)
    ensures Shifted(5, a) == Times32(a)
  {
    assert Shifted(1, a) == Xtime(a);
    assert Shifted(3, a) == Xtime(Xtime(Shifted(1, a)));
  }

  lemma Next(k: nat, v: bv8, w: bv8)
    requires Pow(k) == v && Times2To15(v) == w
    ensures Pow(k + 15) == w
  {
    hide *;
    Pow15(k);
  }

  lemma PowTo60()
    ensures Pow(15) == 38 && Pow(45) == 193 && Pow(60) == 185
  {
    assert Pow(0) == 1;
    hide Pow;
    Next(0, 1, 38); Next(15, 38, 96); Next(30, 96, 193); Next(45, 193, 185);
  }

  lemma PowTo120()
    ensures Pow(75) == 15 && Pow(120) == 59
  {
    hide Pow;
    PowTo60();
    Next(60, 185, 15); Next(75, 15, 223); Next(90, 223, 26); Next(105, 26, 59);
  }

  lemma PowTo255()
    ensures Pow(255) == 1
  {
    hide Pow;
    PowTo120();
    Next(120, 59, 169); Next(135, 169, 85); Next(150, 85, 145); Next(165, 145, 150);
    Next(180, 150, 100); Next(195, 100, 89); Next(210, 89, 36); Next(225, 36, 44); Next(240, 44, 1);
  }

  lemma ProperPowers()
    ensures Pow(85) != 1 && Pow(51) != 1 && Pow(15) != 1
  {
    PowTo60();
    PowTo120();
    Pow15(75);
    Pow15(80);
    Pow15(45);
    assert Pow(51) == Xtime(Pow(50));
  }

  lemma {:induction false} PowNonZero(k: nat)
    ensures Pow(k) != 0
  {
    ShiftedZero(k, 1);
  }

  /** Equal powers differ by an exponent that leads back to one. */
  lemma PowDifference(i: nat, j: nat)
    requires i <= j && Pow(i) == Pow(j)
    ensures Pow(j - i) == 1
  {
    ShiftedAdd(i, j - i, 1);
    ShiftedInjective(i, 1, Pow(j - i));
  }

  lemma {:induction false} PowMultiple(d: nat, m: nat)
    requires Pow(d) == 1
    ensures Pow(d * m) == 1
  {
    if m > 0 {
      PowMultiple(d, m - 1);
      ShiftedAdd(d * (m - 1), d, 1);
      assert d * (m - 1) + d == d * m;
    } else {
      assert d * m == 0;
    }
  }

  /** Exponents that lead back to one have a common divisor that does, too. */
  lemma {:induction false} CommonPeriod(a: nat, b: nat) returns (g: nat, x: nat, y: nat)
    requires a > 0 && b > 0 && Pow(a) == 1 && Pow(b) == 1
    ensures g > 0 && Pow(g) == 1 && a == g * x && b == g * y
    decreases a + b
  {
    if a == b {
      g, x, y := a, 1, 1;
    } else if a < b {
      PowDifference(a, b) by { assert Pow(a) == Pow(b); }
      g, x, y := CommonPeriod(a, b - a);
      assert b == g * x + g * y == g * (x + y);
      y := x + y;
    } else {
      PowDifference(b, a);
      g, x, y := CommonPeriod(a - b, b);
      assert a == g * x + g * y == g * (x + y);
      x := x + y;
    }
  }

  /** A divisor of 255 other than itself divides 85, 51 or 15. */
  lemma ProperDivisor(g: nat, y: nat) returns (m: nat)
    requires g * y == 255 && g < 255
    ensures g * m == 85 || g * m == 51 || g * m == 15
  {
    assert y > 1;
    if y % 3 == 0 {
      m := y / 3;
      assert g * (3 * m) == 3 * (g * m);
    } else if y % 5 == 0 {
      m := y / 5;
      assert g * (5 * m) == 5 * (g * m);
    } else {
      assert y % 17 == 0 by { DividesBy17(g, y); }
      m := y / 17;
      assert g * (17 * m) == 17 * (g * m);
    }
  }

  lemma Product(a: nat, b: nat)
    ensures a * b >= 0
  {
  }

  lemma OneIsSmall(g: nat, y: nat)
    requires g * y == 255 && g > 15
    ensures y < 16
  {
    assert g * y == 16 * g + g * (y - 16);
    if y >= 16 { Product(g, y - 16); }
  }

  lemma DividesBy17(g: nat, y: nat)
    requires g * y == 255 && 1 < y && y % 3 != 0 && y % 5 != 0
    ensures y % 17 == 0
  {
    if g > 15 {
      OneIsSmall(g, y);
      SmallDivisors(y, g);
    } else {
      SmallDivisors(g, y);
    }
  }

  lemma SmallDivisors(a: nat, b: nat)
    requires a * b == 255 && a < 16
    ensures (a == 1 && b == 255) || (a == 3 && b == 85) || (a == 5 && b == 51) || (a == 15 && b == 17)
  {
    if a < 4 { } else if a < 8 { } else if a < 12 { }
  }

  lemma FactorAtMost(g: nat, x: nat, k: nat)
    requires g * x == k && k > 0
    ensures g <= k
  {
    if x > 1 { assert g * x == g + g * (x - 1); }
  }

  lemma {:induction false} OrderIs255(k: nat)
    requires 0 < k < 255
    ensures Pow(k) != 1
  {
    hide Pow;
    PowTo255();
    ProperPowers();
    if Pow(k) == 1 {
      var g, x, y := CommonPeriod(k, 255);
      FactorAtMost(g, x, k);
      var m := ProperDivisor(g, y);
      PowMultiple(g, m);
      assert false;
    }
  }

  lemma PowInjective(i: nat, j: nat)
    requires i < 255 && j < 255 && Pow(i) == Pow(j)
    ensures i == j
  {
    if i < j { PowDifference(i, j); OrderIs255(j - i); }
    if j < i { PowDifference(j, i); OrderIs255(i - j); }
  }

  lemma PowWraps(k: nat)
    ensures Pow(k + 255) == Pow(k)
  {
    PowTo255();
    ShiftedAdd(k, 255, 1);
  }

  lemma {:induction false} PowMod(k: nat)
    ensures Pow(k % 255) == Pow(k)
  {
    if k >= 255 {
      PowMod(k - 255);
      PowWraps(k - 255);
    }
  }

  // ---------------------------------------------------------------------------------------
  // Every non-zero element is a power

  ghost function Powers(n: nat): set<bv8>
  {
    if n == 0 then {} else Powers(n - 1) + {Pow(n - 1)}
  }

  lemma {:induction false} PowersAre(n: nat)
    requires n <= 255
    ensures |Powers(n)| == n
    ensures forall b :: b in Powers(n) <==> exists k: nat :: k < n && Pow(k) == b
  {
    if n > 0 {
      PowersAre(n - 1);
      if Pow(n - 1) in Powers(n - 1) {
        var k: nat :| k < n - 1 && Pow(k) == Pow(n - 1);
        PowInjective(k, n - 1);
      }
      forall b ensures b in Powers(n) <==> exists k: nat :: k < n && Pow(k) == b {
        if k: nat :| k < n && Pow(k) == b {
          if k < n - 1 { assert b in Powers(n - 1); }
        }
      }
    }
  }

  lemma BelowTop(b: bv8, top: bv8, n: nat)
    requires 0 < n <= 256 && top == (n - 1) as bv8 && (b as int) < n && b != top
    ensures (b as int) < n - 1
  {
  }

  lemma {:induction false} AtMost(s: set<bv8>, n: nat)
    requires 0 < n <= 256 && forall b :: b in s ==> 0 < (b as int) < n
    ensures |s| <= n - 1
  {
    if n == 1 {
      assert forall b :: b !in s;
      assert s == {};
    } else {
      var top := (n - 1) as bv8;
      var rest := s - {top};
      forall b | b in rest ensures 0 < (b as int) < n - 1 { BelowTop(b, top, n); }
      AtMost(rest, n - 1);
      assert |s| <= |rest| + 1 by {
        if top in s { assert s == rest + {top}; } else { assert s == rest; }
      }
    }
  }

  lemma NonZeroCount(s: set<bv8>)
    requires forall b :: b in s ==> b != 0
    ensures |s| <= 255
  {
    AtMost(s, 256);
  }

  lemma LogExists(a: bv8)
    requires a != 0
    ensures exists k: nat :: k < 255 && Pow(k) == a
  {
    hide Pow;
    PowersAre(255);
    var s := Powers(255) + {a};
    forall b | b in s ensures b != 0 {
      if b != a {
        var k: nat :| k < 255 && Pow(k) == b;
        PowNonZero(k);
      }
    }
    NonZeroCount(s);
  }
}
