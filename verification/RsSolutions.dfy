/**
 What the Reed-Solomon decoder solves. A word's syndromes have a locator and an evaluator: the
 shortest solution of the key equation within the bounds at which the Euclidean algorithm stops.
 There is at most one, and the stopping row gives it whenever there is one.
 */
module RsSolutions {
  import opened GaloisField
  import opened Polynomials
  import opened ErrorPolynomials
  import opened EuclidRows
  import opened Codewords

  /** The values of a word at the first m powers of 2, as a polynomial. */
  ghost function SyndromesOf(v: seq<Elem>, m: nat): (b: Poly)
    ensures |b| <= m
  {
    Trim(seq(m, i requires 0 <= i < m => Eval(v, Exp(m - 1 - i))))
  }

  ghost predicate SameBelow(p: Poly, q: Poly, m: nat) {
    forall k: nat :: k < m ==> Coef(p, k) == Coef(q, k)
  }

  /** sigma times the syndromes is omega modulo x^m, within the bounds of the algorithm. */
  ghost predicate Solves(b: Poly, m: nat, sigma: Poly, omega: Poly) {
    && |sigma| <= m - m / 2 + 1 && |omega| <= m / 2 && Coef(sigma, 0) == ONE
    && SameBelow(Times(sigma, b), omega, m)
  }

  /** The solution for the word `v` with the shortest locator. */
  ghost predicate LocatorOf(v: seq<Elem>, m: nat, sigma: Poly, omega: Poly) {
    && Solves(SyndromesOf(v, m), m, sigma, omega)
    && forall s, o :: Solves(SyndromesOf(v, m), m, s, o) ==> |sigma| <= |s|
  }

  ghost predicate Solvable(v: seq<Elem>, m: nat) {
    exists s, o :: Solves(SyndromesOf(v, m), m, s, o)
  }

  lemma CoefSyndromes(v: seq<Elem>, m: nat, k: nat)
    ensures Coef(SyndromesOf(v, m), k) == if k < m then Eval(v, Exp(k)) else ZERO
  {
    hide Eval, Exp, Trim;
    CoefTrim(seq(m, i requires 0 <= i < m => Eval(v, Exp(m - 1 - i))), k);
  }

  lemma NoSyndromesLeft(v: seq<Elem>, m: nat)
    ensures SyndromesOf(v, m) == [] <==> IsCodeword(v, m)
  {
    hide Eval, Exp, SyndromesOf, Coef;
    if SyndromesOf(v, m) == [] {
      forall k: nat | k < m ensures Eval(v, Exp(k)) == ZERO {
        CoefSyndromes(v, m, k);
        CoefEmpty(k);
      }
    }
    if IsCodeword(v, m) {
      forall k: nat ensures Coef(SyndromesOf(v, m), k) == Coef([], k) {
        CoefSyndromes(v, m, k);
        CoefEmpty(k);
      }
      PolyEq(SyndromesOf(v, m), []);
    }
  }

  // ---------------------------------------------------------------------------------------
  // Polynomials modulo x^m

  lemma SameShort(p: Poly, q: Poly, m: nat)
    requires SameBelow(p, q, m) && |p| <= m && |q| <= m
    ensures p == q
  {
    hide Coef;
    forall k: nat ensures Coef(p, k) == Coef(q, k) {
      CoefBeyond(p, k);
      CoefBeyond(q, k);
    }
    PolyEq(p, q);
  }

  lemma SameSum(p: Poly, q: Poly, p': Poly, q': Poly, m: nat)
    requires SameBelow(p, q, m) && SameBelow(p', q', m)
    ensures SameBelow(Sum(p, p'), Sum(q, q'), m)
  {
    hide Coef, Sum, Add;
    forall k: nat | k < m ensures Coef(Sum(p, p'), k) == Coef(Sum(q, q'), k) {
      CoefSum(p, p', k);
      CoefSum(q, q', k);
    }
  }

  /** What vanishes below x^m is a multiple of it. */
  lemma MultipleOfPower(p: Poly, m: nat) returns (h: Poly)
    requires SameBelow(p, [], m)
    ensures p == Times(Monomial(ONE, m), h)
  {
    hide Times, Monomial, Coef;
    h := if |p| <= m then [] else p[..|p| - m];
    forall k: nat ensures Coef(p, k) == Coef(Shift(h, m), k) {
      CoefShift(h, m, k);
      CoefBeyond(p, k);
      CoefEmpty(k);
      if |p| <= m { CoefEmpty(k); } else if k >= m { CoefPrefix(p, m, k); }
      if k >= m && |p| <= m { CoefEmpty(k - m); }
    }
    PolyEq(p, Shift(h, m));
    TimesPower(m, h);
  }

  lemma CoefPrefix(p: Poly, m: nat, k: nat)
    requires m < |p| && m <= k
    ensures Coef(p[..|p| - m], k - m) == Coef(p, k)
  {
  }

  lemma MultipleVanishes(h: Poly, m: nat)
    ensures SameBelow(Times(Monomial(ONE, m), h), [], m)
  {
    hide Times, Monomial, Coef;
    TimesPower(m, h);
    forall k: nat | k < m ensures Coef(Times(Monomial(ONE, m), h), k) == Coef([], k) {
      CoefShift(h, m, k);
      CoefEmpty(k);
    }
  }

  /** Equal below x^m means equal up to a multiple of it. */
  lemma SameIsMultiple(p: Poly, q: Poly, m: nat) returns (h: Poly)
    requires SameBelow(p, q, m)
    ensures p == Sum(q, Times(Monomial(ONE, m), h))
  {
    hide Times, Monomial, Sum, SameBelow;
    SameSelf(q, m);
    SameSum(p, q, q, q, m);
    SumSelf(q);
    h := MultipleOfPower(Sum(p, q), m);
    SumComm(p, q);
    SumCancel(p, q);
  }

  lemma SameSelf(p: Poly, m: nat)
    ensures SameBelow(p, p, m)
  {
  }

  lemma MultipleIsSame(p: Poly, q: Poly, h: Poly, m: nat)
    requires p == Sum(q, Times(Monomial(ONE, m), h))
    ensures SameBelow(p, q, m)
  {
    hide Times, Monomial, Sum, SameBelow;
    MultipleVanishes(h, m);
    SameSelf(q, m);
    SameSum(q, q, Times(Monomial(ONE, m), h), [], m);
    SumZero(q);
  }

  lemma SameTimes(l: Poly, p: Poly, q: Poly, m: nat)
    requires SameBelow(p, q, m)
    ensures SameBelow(Times(l, p), Times(l, q), m)
  {
    hide Times, Monomial, Sum, SameBelow;
    var h := SameIsMultiple(p, q, m);
    TimesSum(l, q, Times(Monomial(ONE, m), h));
    MoveOut(Monomial(ONE, m), l, h);
    MultipleIsSame(Times(l, p), Times(l, q), Times(l, h), m);
  }

  /** A polynomial with constant term one is a unit modulo x^m. */
  lemma {:induction false} UnitCancels(f: Poly, p: Poly, m: nat)
    requires Coef(f, 0) == ONE && SameBelow(Times(f, p), [], m)
    ensures SameBelow(p, [], m)
    decreases m
  {
    hide Times, Coef, Mul, High, Up;
    if m > 0 {
      TimesCoef0(f, p);
      CoefEmpty(0);
      MulOne(Coef(p, 0));
      assert Coef(Times(f, p), 0) == Coef([], 0);
      var g := High(p);
      UpHigh(p);
      TimesComm(f, p);
      TimesUp(g, f);
      TimesComm(g, f);
      forall k: nat | k < m - 1 ensures Coef(Times(f, g), k) == Coef([], k) {
        CoefUp(Times(f, g), k + 1);
        CoefEmpty(k);
        CoefEmpty(k + 1);
        assert Coef(Times(f, p), k + 1) == Coef([], k + 1);
      }
      UnitCancels(f, g, m - 1);
      forall k: nat | k < m ensures Coef(p, k) == Coef([], k) {
        CoefEmpty(k);
        if k > 0 {
          CoefHigh(p, k - 1);
          CoefEmpty(k - 1);
          assert Coef(g, k - 1) == Coef([], k - 1);
        }
      }
    }
  }

  lemma UpHigh(p: Poly)
    requires Coef(p, 0) == ZERO
    ensures p == Up(High(p))
  {
    hide Coef, High, Up;
    forall k: nat ensures Coef(p, k) == Coef(Up(High(p)), k) {
      CoefUp(High(p), k);
      if k > 0 { CoefHigh(p, k - 1); }
    }
    PolyEq(p, Up(High(p)));
  }

  // ---------------------------------------------------------------------------------------
  // Solutions and the stopping row

  /** Two polynomials with the same quotient modulo x^m, cross-multiplied. */
  lemma CrossEqual(m: nat, b: Poly, s: Poly, o: Poly, s': Poly, o': Poly)
    requires SameBelow(Times(s, b), o, m) && SameBelow(Times(s', b), o', m)
    requires |s| + |o'| <= m + 1 && |s'| + |o| <= m + 1
    ensures Times(s, o') == Times(s', o)
  {
    hide Times, SameBelow;
    SameTimes(s', Times(s, b), o, m);
    SameTimes(s, Times(s', b), o', m);
    MoveOut(s', s, b);
    SameChain(Times(s, Times(s', b)), Times(s, o'), Times(s', o), m);
    TimesLength(s, o');
    TimesLength(s', o);
    SameShort(Times(s, o'), Times(s', o), m);
  }

  lemma SameChain(p: Poly, q: Poly, r: Poly, m: nat)
    requires SameBelow(p, q, m) && SameBelow(p, r, m)
    ensures SameBelow(q, r, m)
  {
    hide Coef;
  }

  /** The stopping row is itself a solution, but for its constant term. */
  lemma RowSolves(w: Rows, b: Poly, m: nat)
    requires RowsOf(w, Monomial(ONE, m), b) && |w.r| <= m / 2 < |w.rLast|
    ensures SameBelow(Times(w.t, b), w.r, m) && |w.t| <= m - m / 2 + 1
  {
    hide Times, Sum, SameBelow, Monomial;
    MonomialLength(m);
    var x := Monomial(ONE, m);
    TimesComm(w.s, x);
    SumComm(Times(x, w.s), Times(w.t, b));
    MultipleIsSame(w.r, Times(w.t, b), w.s, m);
    SameSelf(w.r, m);
    SameChain(w.r, Times(w.t, b), w.r, m);
  }

  /** t' == t q when t' s == t h and s u + v t == 1. */
  lemma Bezout(t': Poly, t: Poly, s: Poly, u: Poly, v: Poly, h: Poly) returns (q: Poly)
    requires Sum(Times(s, u), Times(v, t)) == Single(ONE) && Times(t', s) == Times(t, h)
    ensures t' == Times(t, q)
  {
    hide *;
    q := Sum(Times(h, u), Times(t', v));
    TimesComm(t', Single(ONE));
    TimesSingle(ONE, t');
    ScaleOne(t');
    TimesSum(t', Times(s, u), Times(v, t));
    TimesAssoc(t', s, u);
    TimesAssoc(t, h, u);
    TimesComm(v, t);
    MoveOut(t, t', v);
    TimesSum(t, Times(h, u), Times(t', v));
  }

  /** Every solution is a multiple of the stopping row. */
  lemma SolutionIsMultiple(w: Rows, b: Poly, m: nat, s: Poly, o: Poly) returns (q: Poly)
    requires RowsOf(w, Monomial(ONE, m), b) && |w.r| <= m / 2 < |w.rLast|
    requires Solves(b, m, s, o)
    ensures s == Times(w.t, q) && o == Times(w.r, q)
  {
    hide Times, Sum, SameBelow, Monomial, Single;
    var x := Monomial(ONE, m);
    RowSolves(w, b, m);
    CrossEqual(m, b, w.t, w.r, s, o);
    var h := SameIsMultiple(Times(s, b), o, m);
    CrossMultiply(s, o, h, w.t, w.r, w.s, b, x);
    SumSelf(Times(s, w.r));
    MonomialLength(m);
    MultipleTooShort(x, Sum(Times(s, w.s), Times(w.t, h)), []);
    SumEmpty(Times(s, w.s), Times(w.t, h));
    q := Bezout(s, w.t, w.s, w.tLast, w.sLast, h);
    TimesAssoc(w.t, q, w.r);
    TimesComm(q, w.r);
    TimesCancel(w.t, o, Times(w.r, q));
  }

  lemma ConstantTermOf(p: Poly, q: Poly)
    requires Coef(Times(p, q), 0) == ONE
    ensures Coef(p, 0) != ZERO && q != []
  {
    hide Coef, Times, Mul;
    TimesCoef0(p, q);
    MulZero(Coef(q, 0));
    OneIsNotZero();
    TimesEmpty(p);
    CoefEmpty(0);
  }

  /** The stopping row, divided by its constant term. */
  lemma ScaledRowSolves(w: Rows, b: Poly, m: nat, s: Poly, o: Poly)
    requires RowsOf(w, Monomial(ONE, m), b) && |w.r| <= m / 2 < |w.rLast| && Coef(w.t, 0) != ZERO
    requires s == Scale(Inv(Coef(w.t, 0)), w.t) && o == Scale(Inv(Coef(w.t, 0)), w.r)
    ensures Solves(b, m, s, o) && |s| == |w.t|
  {
    hide Times, Sum, Monomial, Coef, Inv, Mul, RowsOf, Scale;
    var c := Inv(Coef(w.t, 0));
    RowSolves(w, b, m);
    InvIsInverse(Coef(w.t, 0));
    ScaleLength(c, w.t);
    ScaleLength(c, w.r);
    CoefScale(c, w.t, 0);
    TimesScale(c, w.t, b);
    forall k: nat | k < m ensures Coef(Times(s, b), k) == Coef(o, k) {
      CoefScale(c, Times(w.t, b), k);
      CoefScale(c, w.r, k);
    }
  }

  lemma ScaleLength(c: Elem, p: Poly)
    requires c != ZERO
    ensures |Scale(c, p)| == |p|
  {
  }

  /** A solution no longer than the stopping row is that row, divided by its constant term. */
  lemma ShortestIsRow(w: Rows, b: Poly, m: nat, s: Poly, o: Poly)
    requires RowsOf(w, Monomial(ONE, m), b) && |w.r| <= m / 2 < |w.rLast|
    requires Solves(b, m, s, o) && |s| <= |w.t|
    ensures s == Scale(Inv(Coef(w.t, 0)), w.t) && o == Scale(Inv(Coef(w.t, 0)), w.r)
  {
    hide Times, Sum, Monomial, Coef, Inv, Mul, Scale, Single;
    var q := SolutionIsMultiple(w, b, m, s, o);
    ConstantTermOf(w.t, q);
    TimesLength(w.t, q);
    ConstantForm(q);
    var c := q[0];
    TimesComm(w.t, q);
    TimesComm(w.r, q);
    TimesSingle(c, w.t);
    TimesSingle(c, w.r);
    CoefScale(c, w.t, 0);
    InverseIs(c, Coef(w.t, 0));
  }

  lemma InverseIs(c: Elem, d: Elem)
    requires d != ZERO && Mul(c, d) == ONE
    ensures c == Inv(d)
  {
    hide *;
    MulCancel(d, c);
    MulOne(Inv(d));
  }

  /**
   The key equation can be solved within the bounds exactly when the stopping row has a constant
   term; divided by it, the row is the one shortest solution.
   */
  lemma RowIsLocator(w: Rows, v: seq<Elem>, m: nat, sigma: Poly, omega: Poly)
    requires RowsOf(w, Monomial(ONE, m), SyndromesOf(v, m)) && |w.r| <= m / 2 < |w.rLast|
    requires sigma == Scale(Inv(Coef(w.t, 0)), w.t) && omega == Scale(Inv(Coef(w.t, 0)), w.r)
    ensures Solvable(v, m) <==> Coef(w.t, 0) != ZERO
    ensures Solvable(v, m) ==> LocatorOf(v, m, sigma, omega)
    ensures forall s, o :: LocatorOf(v, m, s, o) ==> Solvable(v, m)
    ensures forall s, o :: LocatorOf(v, m, s, o) ==> s == sigma && o == omega
  {
    hide RowsOf, Solves, SyndromesOf, Scale, Coef, Inv, Monomial, Times;
    var b := SyndromesOf(v, m);
    if Coef(w.t, 0) != ZERO { ScaledRowSolves(w, b, m, sigma, omega); }
    forall s, o | Solves(b, m, s, o) ensures Coef(w.t, 0) != ZERO && |w.t| <= |s| {
      SolutionAtLeast(w, b, m, s, o);
    }
    forall s, o | LocatorOf(v, m, s, o) ensures s == sigma && o == omega {
      ShortestIsRow(w, b, m, s, o);
    }
  }

  lemma SolutionAtLeast(w: Rows, b: Poly, m: nat, s: Poly, o: Poly)
    requires RowsOf(w, Monomial(ONE, m), b) && |w.r| <= m / 2 < |w.rLast|
    requires Solves(b, m, s, o)
    ensures Coef(w.t, 0) != ZERO && |w.t| <= |s|
  {
    hide Times, Sum, Monomial, Coef;
    var q := SolutionIsMultiple(w, b, m, s, o);
    ConstantTermOf(w.t, q);
    TimesLength(w.t, q);
  }

  // ---------------------------------------------------------------------------------------
  // Roots of the locator

  /** A common root can be divided out of both sides. */
  lemma DivideOut(b: Poly, m: nat, sigma: Poly, omega: Poly, a: Elem) returns (s: Poly, o: Poly)
    requires Solves(b, m, sigma, omega) && a != ZERO
    requires Eval(sigma, Inv(a)) == ZERO && Eval(omega, Inv(a)) == ZERO
    ensures Solves(b, m, s, o) && |s| < |sigma|
  {
    hide Times, Factor, Coef, Eval, Inv, SameBelow, Mul;
    var f := Factor(a);
    s := FactorOut(sigma, a);
    o := FactorOut(omega, a);
    FactorForm(a);
    TimesCoef0(f, s);
    MulOne(Coef(s, 0));
    TimesLength(f, s);
    TimesLength(f, o);
    CancelFactor(f, s, b, o, m);
    CoefEmpty(0);
    OneIsNotZero();
  }

  /** The locator and evaluator of a word have no root in common. */
  lemma NoCommonRoot(v: seq<Elem>, m: nat, sigma: Poly, omega: Poly, a: Elem)
    requires LocatorOf(v, m, sigma, omega) && a != ZERO && Eval(sigma, Inv(a)) == ZERO
    ensures Eval(omega, Inv(a)) != ZERO
  {
    hide Eval, Inv, SyndromesOf, Solves;
    if Eval(omega, Inv(a)) == ZERO { var s, o := DivideOut(SyndromesOf(v, m), m, sigma, omega, a); }
  }

  lemma CancelFactor(f: Poly, s: Poly, b: Poly, o: Poly, m: nat)
    requires Coef(f, 0) == ONE && SameBelow(Times(Times(f, s), b), Times(f, o), m)
    ensures SameBelow(Times(s, b), o, m)
  {
    hide Times, Coef, SameBelow, Sum;
    TimesAssoc(f, s, b);
    var d := Sum(Times(s, b), o);
    SameSelf(Times(f, o), m);
    SameSum(Times(f, Times(s, b)), Times(f, o), Times(f, o), Times(f, o), m);
    SumSelf(Times(f, o));
    TimesSum(f, Times(s, b), o);
    UnitCancels(f, d, m);
    SameSelf(o, m);
    SameSum(d, [], o, o, m);
    SumCancel(Times(s, b), o);
    SumZero(o);
  }

  /** What agrees at the roots of a longer polynomial that splits is equal. */
  lemma AgreeAtRoots(es: seq<ErrorAt>, p: Poly, q: Poly)
    requires Proper(es) && |p| <= |es| && |q| <= |es|
    requires forall i :: 0 <= i < |es| ==> Eval(p, Inv(es[i].location)) == Eval(q, Inv(es[i].location))
    ensures p == q
  {
    hide Times, Eval, Inv, Sum, Locator, Add, Proper;
    var d := Sum(p, q);
    forall i | 0 <= i < |es| ensures Eval(d, Inv(es[i].location)) == ZERO {
      EvalSum(p, q, Inv(es[i].location));
      AddLaws(Eval(p, Inv(es[i].location)), ZERO);
    }
    var h := LocatorDivides(es, d);
    LocatorShape(es);
    SumLength(p, q);
    SumLength(q, p);
    TimesLength(Locator(es), h);
    SumEmpty(p, q);
  }

  /** A polynomial with constant term one that has as many roots as its degree is their locator. */
  lemma LocatorIs(es: seq<ErrorAt>, sigma: Poly)
    requires Proper(es) && |sigma| == |es| + 1 && Coef(sigma, 0) == ONE
    requires forall i :: 0 <= i < |es| ==> Eval(sigma, Inv(es[i].location)) == ZERO
    ensures sigma == Locator(es)
  {
    hide Times, Eval, Inv, Locator, Proper, Coef, Single, Mul, Scale;
    var q := LocatorDivides(es, sigma);
    LocatorShape(es);
    TimesLength(Locator(es), q);
    ConstantForm(q);
    TimesComm(Locator(es), q);
    TimesSingle(q[0], Locator(es));
    CoefScale(q[0], Locator(es), 0);
    MulOne(q[0]);
    ScaleOne(Locator(es));
  }

  // ---------------------------------------------------------------------------------------
  // What correcting a list of errors does to the syndromes

  /** The key equation of a locator, modulo x^m. */
  lemma KeyBelow(es: seq<ErrorAt>, m: nat)
    ensures SameBelow(Times(Locator(es), SyndromePoly(es, m)), Evaluator(es), m)
  {
    hide Times, Locator, SyndromePoly, Evaluator, Excess, Sum, Shift, Monomial, SameBelow;
    KeyEquation(es, m);
    TimesPower(m, Excess(es, m));
    MultipleIsSame(Times(Locator(es), SyndromePoly(es, m)), Evaluator(es), Excess(es, m), m);
  }

  /** Adding errors to a word adds their syndromes. */
  lemma SyndromesAdd(v: seq<Elem>, w: seq<Elem>, es: seq<ErrorAt>, m: nat)
    requires forall i: nat {:trigger Exp(i)} :: i < m ==> Eval(w, Exp(i)) == Add(Eval(v, Exp(i)), SyndromeAt(es, i))
    ensures SyndromesOf(w, m) == Sum(SyndromesOf(v, m), SyndromePoly(es, m))
  {
    hide *;
    var b, c, d := SyndromesOf(v, m), SyndromePoly(es, m), SyndromesOf(w, m);
    forall k: nat ensures Coef(d, k) == Coef(Sum(b, c), k) {
      CoefSum(b, c, k);
      CoefSyndromes(v, m, k);
      CoefSyndromes(w, m, k);
      CoefSyndromePoly(es, m, k);
      AddLaws(ZERO, ZERO);
      if k < m { assert Eval(w, Exp(k)) == Add(Eval(v, Exp(k)), SyndromeAt(es, k)); }
    }
    PolyEq(d, Sum(b, c));
  }

  /**
   When the errors added have the word's own locator, the word becomes a codeword exactly when
   they also have its evaluator, that is, when the evaluator's degree is below the locator's.
   */
  lemma AddedIsCodeword(v: seq<Elem>, w: seq<Elem>, es: seq<ErrorAt>, m: nat, omega: Poly)
    requires Proper(es) && LocatorOf(v, m, Locator(es), omega)
    requires forall i :: 0 <= i < |es| ==>
      Eval(Evaluator(es), Inv(es[i].location)) == Eval(omega, Inv(es[i].location))
    requires SyndromesOf(w, m) == Sum(SyndromesOf(v, m), SyndromePoly(es, m))
    ensures IsCodeword(w, m) <==> |omega| < |Locator(es)|
  {
    hide Times, Locator, Evaluator, Eval, Inv, Coef, SyndromesOf, SyndromePoly, Sum, Proper, SameBelow, IsCodeword;
    var l, e, b, c := Locator(es), Evaluator(es), SyndromesOf(v, m), SyndromePoly(es, m);
    var d := SyndromesOf(w, m);
    LocatorShape(es);
    EvaluatorLength(es);
    KeyBelow(es, m);
    SameSum(Times(l, b), omega, Times(l, c), e, m);
    TimesSum(l, b, c);
    NoSyndromesLeft(w, m);
    if |omega| < |l| {
      AgreeAtRoots(es, e, omega);
      SumSelf(omega);
      UnitCancels(l, d, m);
      SameShort(d, [], m);
    }
    if d == [] {
      TimesEmpty(l);
      SumLength(omega, e);
      SumLength(e, omega);
      SameShort([], Sum(omega, e), m);
      SumEmpty(omega, e);
    }
  }
}
