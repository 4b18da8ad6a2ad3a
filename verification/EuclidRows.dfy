/**
 The rows of the extended Euclidean algorithm and why the row at which the decoder stops is the
 error locator and evaluator up to a constant.
 */
module EuclidRows {
  import opened GaloisField
  import opened Polynomials
  import opened ErrorPolynomials

  /** The remainder and the two multipliers, in the current row and the one before. */
  datatype Rows = Rows(r: Poly, rLast: Poly, s: Poly, sLast: Poly, t: Poly, tLast: Poly)

  /** Both rows are combinations of `a` and `b` with determinant one, and degrees are in step. */
  ghost predicate RowsOf(w: Rows, a: Poly, b: Poly) {
    && w.r == Sum(Times(w.s, a), Times(w.t, b))
    && w.rLast == Sum(Times(w.sLast, a), Times(w.tLast, b))
    && Sum(Times(w.s, w.tLast), Times(w.sLast, w.t)) == Single(ONE)
    && w.t != [] && |w.t| + |w.rLast| == |a| + 1
    && |w.r| <= |w.rLast| && |w.tLast| <= |w.t|
    && (|w.r| == |w.rLast| ==> |w.tLast| < |w.t|)
  }

  ghost function FirstRows(a: Poly, b: Poly): Rows {
    Rows(b, a, [], Single(ONE), Single(ONE), [])
  }

  ghost function NextRows(w: Rows, q: Poly, r: Poly): Rows {
    Rows(r, w.r, Sum(Times(q, w.s), w.sLast), w.s, Sum(Times(q, w.t), w.tLast), w.t)
  }

  lemma FirstRowsOk(a: Poly, b: Poly)
    requires |b| <= |a|
    ensures RowsOf(FirstRows(a, b), a, b)
  {
    hide Sum, Times, Scale;
    TimesUnfold([], a);
    TimesUnfold([], b);
    TimesUnfold([], []);
    TimesSingle(ONE, a);
    TimesSingle(ONE, b);
    TimesSingle(ONE, Single(ONE));
    ScaleOne(a);
    ScaleOne(b);
    ScaleOne(Single(ONE));
    SumZero(a);
    SumZero(b);
    SumZero(Single(ONE));
  }

  /** (x + q y) with x = s a + t b and y = s' a + t' b */
  lemma CombineRow(q: Poly, s0: Poly, t0: Poly, s: Poly, t: Poly, a: Poly, b: Poly)
    ensures Sum(Times(q, Sum(Times(s, a), Times(t, b))), Sum(Times(s0, a), Times(t0, b))) ==
            Sum(Times(Sum(Times(q, s), s0), a), Times(Sum(Times(q, t), t0), b))
  {
    hide *;
    TimesSum(q, Times(s, a), Times(t, b));
    TimesAssoc(q, s, a);
    TimesAssoc(q, t, b);
    SumSwap(Times(Times(q, s), a), Times(Times(q, t), b), Times(s0, a), Times(t0, b));
    TimesSumLeft(Times(q, s), s0, a);
    TimesSumLeft(Times(q, t), t0, b);
  }

  lemma NextDeterminant(q: Poly, s: Poly, s0: Poly, t: Poly, t0: Poly)
    ensures Sum(Times(Sum(Times(q, s), s0), t), Times(s, Sum(Times(q, t), t0))) ==
            Sum(Times(s, t0), Times(s0, t))
  {
    hide *;
    TimesSumLeft(Times(q, s), s0, t);
    TimesSum(s, Times(q, t), t0);
    TimesAssoc(s, q, t);
    TimesComm(s, q);
    var d := Times(Times(q, s), t);
    SumComm(d, Times(s0, t));
    SumAssoc(Times(s0, t), d, Sum(d, Times(s, t0)));
    SumCancel(Times(s, t0), d);
    SumComm(Times(s0, t), Times(s, t0));
  }

  lemma NextLengths(w: Rows, a: Poly, b: Poly, q: Poly, r: Poly)
    requires RowsOf(w, a, b) && w.rLast == Sum(Times(q, w.r), r) && |r| < |w.r|
    ensures |Sum(Times(q, w.t), w.tLast)| + |w.r| == |a| + 1
    ensures |Sum(Times(q, w.t), w.tLast)| >= |w.t|
  {
    hide Sum, Times;
    TimesLength(q, w.r);
    TimesLength(q, w.t);
    SumLength(r, Times(q, w.r));
    if q == [] {
      SumZero(r);
      assert false;
    }
    SumLength(w.tLast, Times(q, w.t));
  }

  lemma NextRowsOk(w: Rows, a: Poly, b: Poly, q: Poly, r: Poly)
    requires RowsOf(w, a, b) && w.rLast == Sum(Times(q, w.r), r) && |r| < |w.r|
    ensures RowsOf(NextRows(w, q, r), a, b)
  {
    hide Sum, Times, Single;
    NextLengths(w, a, b, q, r);
    CombineRow(q, w.sLast, w.tLast, w.s, w.t, a, b);
    SumCancel(r, Times(q, w.r));
    NextDeterminant(q, w.s, w.sLast, w.t, w.tLast);
  }

  // ---------------------------------------------------------------------------------------
  // The row at which the decoder stops

  /** t (x h) == x (t h) */
  lemma MoveOut(x: Poly, t: Poly, h: Poly)
    ensures Times(t, Times(x, h)) == Times(x, Times(t, h))
  {
    hide *;
    TimesAssoc(t, x, h);
    TimesComm(t, x);
    TimesAssoc(x, t, h);
  }

  lemma CrossLeft(l: Poly, t: Poly, s: Poly, b: Poly, x: Poly)
    ensures Times(l, Sum(Times(s, x), Times(t, b))) == Sum(Times(x, Times(l, s)), Times(t, Times(l, b)))
  {
    hide *;
    TimesSum(l, Times(s, x), Times(t, b));
    TimesComm(s, x);
    MoveOut(x, l, s);
    MoveOut(t, l, b);
  }

  /** Cross-multiplying two equations modulo x^m. */
  lemma CrossMultiply(l: Poly, e: Poly, h: Poly, t: Poly, r: Poly, s: Poly, b: Poly, x: Poly)
    requires Times(l, b) == Sum(e, Times(x, h))
    requires r == Sum(Times(s, x), Times(t, b))
    ensures Sum(Times(l, r), Times(t, e)) == Times(x, Sum(Times(l, s), Times(t, h)))
  {
    hide *;
    CrossLeft(l, t, s, b, x);
    TimesSum(t, e, Times(x, h));
    MoveOut(x, t, h);
    TimesSum(x, Times(l, s), Times(t, h));
    Absorb(Times(x, Times(l, s)), Times(x, Times(t, h)), Times(t, e));
  }

  lemma Absorb(u: Poly, v: Poly, w: Poly)
    ensures Sum(Sum(u, Sum(w, v)), w) == Sum(u, v)
  {
    hide *;
    SumComm(w, v);
    SumAssoc(u, Sum(v, w), w);
    SumCancel(v, w);
  }

  lemma MultipleTooShort(x: Poly, p: Poly, q: Poly)
    requires q == Times(x, p) && |q| < |x|
    ensures p == [] && q == []
  {
    hide *;
    TimesLength(x, p);
  }

  lemma MonomialLength(m: nat)
    ensures |Monomial(ONE, m)| == m + 1
  {
  }

  /** The stopping row and the true locator and evaluator are proportional. */
  lemma StopProportional(es: seq<ErrorAt>, m: nat, w: Rows)
    requires Proper(es) && |es| <= m - m / 2 && |Evaluator(es)| <= m / 2
    requires RowsOf(w, Monomial(ONE, m), SyndromePoly(es, m))
    requires |w.r| <= m / 2 < |w.rLast|
    ensures Times(Locator(es), w.r) == Times(w.t, Evaluator(es))
    ensures Times(Locator(es), w.s) == Times(w.t, Excess(es, m))
  {
    hide Sum, Times, Locator, Evaluator, Excess, SyndromePoly, Monomial, Shift, Proper;
    var l, e, h, x := Locator(es), Evaluator(es), Excess(es, m), Monomial(ONE, m);
    KeyEquation(es, m);
    TimesPower(m, h);
    CrossMultiply(l, e, h, w.t, w.r, w.s, SyndromePoly(es, m), x);
    LocatorShape(es);
    EvaluatorLength(es);
    MonomialLength(m);
    TimesLength(l, w.r);
    TimesLength(w.t, e);
    SumLength(Times(l, w.r), Times(w.t, e));
    SumLength(Times(w.t, e), Times(l, w.r));
    var p := Sum(Times(l, w.s), Times(w.t, h));
    MultipleTooShort(x, p, Sum(Times(l, w.r), Times(w.t, e)));
    SumEmpty(Times(l, w.r), Times(w.t, e));
    SumEmpty(Times(l, w.s), Times(w.t, h));
  }

  /** Every root of the true locator is a root of the locator found. */
  lemma SharedRoots(es: seq<ErrorAt>, t: Poly, r: Poly)
    requires Proper(es) && Times(Locator(es), r) == Times(t, Evaluator(es))
    ensures forall i :: 0 <= i < |es| ==> Eval(t, Inv(es[i].location)) == ZERO
  {
    hide Times, Locator, Evaluator, Eval, Inv, Mul, Proper;
    forall i | 0 <= i < |es| ensures Eval(t, Inv(es[i].location)) == ZERO {
      var z := Inv(es[i].location);
      LocatorRoot(es, i);
      EvaluatorNonZeroAtRoot(es, i);
      EvalTimes(Locator(es), r, z);
      EvalTimes(t, Evaluator(es), z);
      MulZero(Eval(r, z));
      MulNonZero(Eval(t, z), Eval(Evaluator(es), z));
    }
  }

  lemma CancelLeft(l: Poly, q: Poly, e: Poly, r: Poly)
    requires l != [] && Times(l, r) == Times(Times(l, q), e)
    ensures r == Times(q, e)
  {
    hide *;
    TimesAssoc(l, q, e);
    TimesCancel(l, r, Times(q, e));
  }

  /** A common factor of the rows divides their determinant, so it is a constant. */
  lemma FactorIsConstant(q: Poly, l: Poly, h: Poly, s: Poly, sLast: Poly, t: Poly, tLast: Poly)
    requires t == Times(l, q) && s == Times(q, h)
    requires Sum(Times(s, tLast), Times(sLast, t)) == Single(ONE)
    ensures |q| == 1
  {
    hide *;
    TimesComm(l, q);
    TimesAssoc(q, h, tLast);
    TimesComm(sLast, t);
    TimesAssoc(q, l, sLast);
    TimesSum(q, Times(h, tLast), Times(l, sLast));
    TimesLength(q, Sum(Times(h, tLast), Times(l, sLast)));
    SingleLength(ONE);
    OneIsNotZero();
  }

  lemma OneIsNotZero()
    ensures ONE != ZERO
  {
  }

  lemma ConstantForm(q: Poly)
    requires |q| == 1
    ensures q == Single(q[0]) && q[0] != ZERO
  {
  }

  /** The decoder stops at the true locator and evaluator, times one non-zero constant. */
  lemma StopIsSolution(es: seq<ErrorAt>, m: nat, w: Rows) returns (c: Elem)
    requires Proper(es) && |es| <= m - m / 2 && |Evaluator(es)| <= m / 2
    requires RowsOf(w, Monomial(ONE, m), SyndromePoly(es, m))
    requires |w.r| <= m / 2 < |w.rLast|
    ensures c != ZERO && w.t == Scale(c, Locator(es)) && w.r == Scale(c, Evaluator(es))
  {
    hide Sum, Times, Locator, Evaluator, Excess, SyndromePoly, Monomial, Shift, Proper, Eval, Scale, Single, Inv;
    var l, e, h := Locator(es), Evaluator(es), Excess(es, m);
    StopProportional(es, m, w);
    SharedRoots(es, w.t, w.r);
    var q := LocatorDivides(es, w.t);
    LocatorShape(es);
    CancelLeft(l, q, e, w.r);
    CancelLeft(l, q, h, w.s);
    FactorIsConstant(q, l, h, w.s, w.sLast, w.t, w.tLast);
    ConstantForm(q);
    c := q[0];
    TimesComm(l, q);
    TimesSingle(c, l);
    TimesSingle(c, e);
  }

  /** Between one and m errors cannot leave all m syndromes zero. */
  lemma ErrorsShow(es: seq<ErrorAt>, m: nat)
    requires Proper(es) && |es| <= m && SyndromePoly(es, m) == []
    ensures es == []
  {
    hide Sum, Times, Locator, Evaluator, Excess, SyndromePoly, Monomial, Shift, Proper, Eval, Scale, Single, Inv;
    var e, h, x := Evaluator(es), Excess(es, m), Monomial(ONE, m);
    KeyEquation(es, m);
    TimesEmpty(Locator(es));
    TimesPower(m, h);
    SumEmpty(e, Times(x, h));
    EvaluatorLength(es);
    MonomialLength(m);
    MultipleTooShort(x, h, e);
    if es != [] {
      EvaluatorNonZeroAtRoot(es, 0);
      EvalUnfold([], Inv(es[0].location));
    }
  }
}
