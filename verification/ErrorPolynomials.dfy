/**
 The polynomials behind Reed-Solomon decoding. A list of errors has a locator, with a root at
 the inverse of every error location, an evaluator, and a syndrome polynomial; the key
 equation ties the three together.
 */
module ErrorPolynomials {
  import opened GaloisField
  import opened Polynomials

  datatype ErrorAt = ErrorAt(location: Elem, magnitude: Elem)

  ghost predicate Proper(es: seq<ErrorAt>) {
    && (forall i :: 0 <= i < |es| ==> es[i].location != ZERO && es[i].magnitude != ZERO)
    && (forall i, j :: 0 <= i < j < |es| ==> es[i].location != es[j].location)
  }

  /** 1 + a x */
  ghost function Factor(a: Elem): Poly {
    if a == ZERO then [ONE] else [a, ONE]
  }

  ghost function Locator(es: seq<ErrorAt>): Poly {
    if es == [] then Single(ONE) else Times(Factor(es[0].location), Locator(es[1..]))
  }

  ghost function Evaluator(es: seq<ErrorAt>): Poly {
    if es == [] then [] else
      Sum(Scale(es[0].magnitude, Locator(es[1..])), Times(Factor(es[0].location), Evaluator(es[1..])))
  }

  ghost function Power(a: Elem, k: nat): Elem {
    if k == 0 then ONE else Mul(a, Power(a, k - 1))
  }

  /** 1 + a x + ... + (a x)^(m - 1) */
  ghost function Geometric(a: Elem, m: nat): Poly {
    if m == 0 then [] else Sum(Single(ONE), Up(Scale(a, Geometric(a, m - 1))))
  }

  ghost function SyndromeAt(es: seq<ErrorAt>, i: nat): Elem {
    if es == [] then ZERO else
      Add(Mul(es[0].magnitude, Power(es[0].location, i)), SyndromeAt(es[1..], i))
  }

  ghost function SyndromePoly(es: seq<ErrorAt>, m: nat): Poly {
    if es == [] then [] else
      Sum(Scale(es[0].magnitude, Geometric(es[0].location, m)), SyndromePoly(es[1..], m))
  }

  /** What the product of locator and syndromes carries beyond x^m. */
  ghost function Excess(es: seq<ErrorAt>, m: nat): Poly {
    if es == [] then [] else
      Sum(Scale(Mul(es[0].magnitude, Power(es[0].location, m)), Locator(es[1..])),
          Times(Factor(es[0].location), Excess(es[1..], m)))
  }

  // ---------------------------------------------------------------------------------------
  // Unfolding

  lemma LocatorUnfold(es: seq<ErrorAt>)
    ensures Locator([]) == Single(ONE)
    ensures es != [] ==> Locator(es) == Times(Factor(es[0].location), Locator(es[1..]))
  {
    hide Times, Factor;
  }

  lemma EvaluatorUnfold(es: seq<ErrorAt>)
    ensures Evaluator([]) == []
    ensures es != [] ==>
      Evaluator(es) ==
        Sum(Scale(es[0].magnitude, Locator(es[1..])), Times(Factor(es[0].location), Evaluator(es[1..])))
  {
    hide Times, Factor, Sum, Scale, Locator;
  }

  lemma SyndromePolyUnfold(es: seq<ErrorAt>, m: nat)
    ensures SyndromePoly([], m) == []
    ensures es != [] ==>
      SyndromePoly(es, m) ==
        Sum(Scale(es[0].magnitude, Geometric(es[0].location, m)), SyndromePoly(es[1..], m))
  {
    hide Sum, Scale, Geometric;
  }

  lemma ExcessUnfold(es: seq<ErrorAt>, m: nat)
    ensures Excess([], m) == []
    ensures es != [] ==>
      Excess(es, m) ==
        Sum(Scale(Mul(es[0].magnitude, Power(es[0].location, m)), Locator(es[1..])),
            Times(Factor(es[0].location), Excess(es[1..], m)))
  {
    hide Times, Factor, Sum, Scale, Locator, Mul, Power;
  }

  lemma SyndromeAtUnfold(es: seq<ErrorAt>, i: nat)
    ensures SyndromeAt([], i) == ZERO
    ensures es != [] ==>
      SyndromeAt(es, i) ==
        Add(Mul(es[0].magnitude, Power(es[0].location, i)), SyndromeAt(es[1..], i))
  {
    hide Add, Mul, Power;
  }

  lemma ProperTail(es: seq<ErrorAt>)
    requires Proper(es) && es != []
    ensures Proper(es[1..])
    ensures es[0].location != ZERO && es[0].magnitude != ZERO
    ensures forall i :: 0 <= i < |es[1..]| ==> es[1..][i].location != es[0].location
  {
  }

  // ---------------------------------------------------------------------------------------
  // Linear factors

  lemma FactorForm(a: Elem)
    ensures Factor(a) == Sum(Single(ONE), Up(Single(a)))
    ensures a != ZERO ==> |Factor(a)| == 2
    ensures Coef(Factor(a), 0) == ONE && Factor(a) != []
  {
    hide Sum, Add;
    forall k: nat ensures Coef(Factor(a), k) == Coef(Sum(Single(ONE), Up(Single(a))), k) {
      CoefSum(Single(ONE), Up(Single(a)), k);
      CoefUp(Single(a), k);
      CoefSingle(ONE, k);
      if k > 0 { CoefSingle(a, k - 1); }
      AddLaws(ONE, ZERO);
      AddLaws(a, ZERO);
      AddLaws(ZERO, ZERO);
    }
    PolyEq(Factor(a), Sum(Single(ONE), Up(Single(a))));
  }

  lemma TimesFactor(a: Elem, p: Poly)
    ensures Times(Factor(a), p) == Sum(p, Up(Scale(a, p)))
  {
    hide *;
    FactorForm(a);
    TimesSumLeft(Single(ONE), Up(Single(a)), p);
    TimesSingle(ONE, p);
    ScaleOne(p);
    TimesUp(Single(a), p);
    TimesSingle(a, p);
  }

  lemma EvalSingle(c: Elem, x: Elem)
    ensures Eval(Single(c), x) == c
  {
    hide *;
    EvalUnfold(Single(c), x);
    CoefSingle(c, 0);
    HighSingle(c);
    EvalUnfold([], x);
    MulZero(x);
    AddLaws(c, ZERO);
  }

  lemma EvalFactor(a: Elem, x: Elem)
    ensures Eval(Factor(a), x) == Add(ONE, Mul(x, a))
  {
    hide *;
    FactorForm(a);
    EvalSum(Single(ONE), Up(Single(a)), x);
    EvalSingle(ONE, x);
    EvalUp(Single(a), x);
    EvalSingle(a, x);
  }

  /** The factor of `a` vanishes at the inverse of `a` and nowhere else. */
  lemma FactorRoot(a: Elem, x: Elem)
    requires x != ZERO
    ensures Eval(Factor(a), x) == ZERO <==> a == Inv(x)
  {
    hide *;
    EvalFactor(a, x);
    AddLaws(ONE, Mul(x, a));
    InvIsInverse(x);
    MulCancel(x, a);
    MulOne(Inv(x));
  }

  lemma InvInv(x: Elem)
    requires x != ZERO
    ensures Inv(x) != ZERO && Inv(Inv(x)) == x
  {
    hide *;
    InvIsInverse(x);
    InvIsInverse(Inv(x));
    MulCancel(Inv(x), x);
    MulOne(Inv(Inv(x)));
  }

  // ---------------------------------------------------------------------------------------
  // Division by a linear factor

  /** Synthetic division by x + a. */
  ghost function Synthetic(p: Poly, a: Elem): Poly
    decreases |p|
  {
    if p == [] then [] else Sum(Single(Eval(High(p), a)), Up(Synthetic(High(p), a)))
  }

  lemma SyntheticUnfold(p: Poly, a: Elem)
    requires p != []
    ensures Synthetic(p, a) == Sum(Single(Eval(High(p), a)), Up(Synthetic(High(p), a)))
  {
    hide Sum, Single, Eval, Up;
  }

  lemma SyntheticEmpty(a: Elem)
    ensures Synthetic([], a) == []
  {
  }

  lemma SplitLow(p: Poly)
    ensures p == Sum(Single(Coef(p, 0)), Up(High(p)))
  {
    hide *;
    forall k: nat ensures Coef(p, k) == Coef(Sum(Single(Coef(p, 0)), Up(High(p))), k) {
      CoefSum(Single(Coef(p, 0)), Up(High(p)), k);
      CoefSingle(Coef(p, 0), k);
      CoefUp(High(p), k);
      if k > 0 { CoefHigh(p, k - 1); }
      AddLaws(Coef(p, k), ZERO);
    }
    PolyEq(p, Sum(Single(Coef(p, 0)), Up(High(p))));
  }

  /** (x + a) q */
  ghost function TimesRoot(a: Elem, q: Poly): Poly {
    Sum(Up(q), Scale(a, q))
  }

  lemma TimesRootSum(a: Elem, p: Poly, q: Poly)
    ensures TimesRoot(a, Sum(p, q)) == Sum(TimesRoot(a, p), TimesRoot(a, q))
  {
    hide Sum, Up, Scale;
    UpSum(p, q);
    ScaleSum(a, p, q);
    SumSwap(Up(p), Up(q), Scale(a, p), Scale(a, q));
  }

  lemma TimesRootUp(a: Elem, p: Poly)
    ensures TimesRoot(a, Up(p)) == Up(TimesRoot(a, p))
  {
    hide Sum, Up, Scale;
    UpSum(Up(p), Scale(a, p));
    UpScale(a, p);
  }

  lemma SingleSum(b: Elem, c: Elem)
    ensures Single(Add(b, c)) == Sum(Single(b), Single(c))
  {
    hide *;
    forall k: nat ensures Coef(Single(Add(b, c)), k) == Coef(Sum(Single(b), Single(c)), k) {
      CoefSum(Single(b), Single(c), k);
      CoefSingle(b, k);
      CoefSingle(c, k);
      CoefSingle(Add(b, c), k);
      AddLaws(ZERO, ZERO);
    }
    PolyEq(Single(Add(b, c)), Sum(Single(b), Single(c)));
  }

  lemma ScaleSingle(a: Elem, c: Elem)
    ensures Scale(a, Single(c)) == Single(Mul(a, c))
  {
    hide *;
    forall k: nat ensures Coef(Scale(a, Single(c)), k) == Coef(Single(Mul(a, c)), k) {
      CoefScale(a, Single(c), k);
      CoefSingle(c, k);
      CoefSingle(Mul(a, c), k);
      MulZero(a);
    }
    PolyEq(Scale(a, Single(c)), Single(Mul(a, c)));
  }

  /** The remainder theorem. */
  lemma {:induction false} Remainder(p: Poly, a: Elem)
    ensures p == Sum(Single(Eval(p, a)), TimesRoot(a, Synthetic(p, a)))
    decreases |p|
  {
    hide *;
    EvalUnfold(p, a);
    if p == [] {
      SyntheticEmpty(a);
      TimesRootEmpty(a);
      SingleZero();
      SumZero([]);
    } else {
      var c, h := Coef(p, 0), High(p);
      var e, q := Eval(h, a), Synthetic(h, a);
      Remainder(h, a);
      SyntheticUnfold(p, a);
      TimesRootSum(a, Single(e), Up(q));
      TimesRootUp(a, q);
      SplitLow(p);
      UpSum(Single(e), TimesRoot(a, q));
      SingleSum(c, Mul(a, e));
      TimesRootSingle(a, e);
      Telescope(Single(c), Single(Mul(a, e)), Up(Single(e)), Up(TimesRoot(a, q)));
    }
  }

  lemma TimesRootSingle(a: Elem, e: Elem)
    ensures TimesRoot(a, Single(e)) == Sum(Up(Single(e)), Single(Mul(a, e)))
  {
    hide Sum, Up, Scale;
    ScaleSingle(a, e);
  }

  lemma TimesRootEmpty(a: Elem)
    ensures TimesRoot(a, []) == []
  {
    hide Sum;
    ScaleZero(a, []);
    UpEmpty();
    SumZero([]);
  }

  lemma SingleZero()
    ensures Single(ZERO) == []
  {
  }

  lemma Telescope(c: Poly, d: Poly, u: Poly, v: Poly)
    ensures Sum(Sum(c, d), Sum(Sum(u, d), v)) == Sum(c, Sum(u, v))
  {
    hide *;
    SumComm(u, d);
    SumAssoc(d, u, v);
    SumAssoc(c, d, Sum(d, Sum(u, v)));
    SumCancel(Sum(u, v), d);
  }

  /** A polynomial with a root at the inverse of `a` is a multiple of the factor of `a`. */
  lemma FactorOut(p: Poly, a: Elem) returns (q: Poly)
    requires a != ZERO && Eval(p, Inv(a)) == ZERO
    ensures p == Times(Factor(a), q)
  {
    hide *;
    var b := Inv(a);
    var s := Synthetic(p, b);
    Remainder(p, b);
    SingleZero();
    SumZero(TimesRoot(b, s));
    q := Scale(b, s);
    RootAsFactor(a, s);
  }

  lemma RootAsFactor(a: Elem, s: Poly)
    requires a != ZERO
    ensures TimesRoot(Inv(a), s) == Times(Factor(a), Scale(Inv(a), s))
  {
    hide Inv, Mul, Sum, Up, Scale, Times, Factor;
    var b := Inv(a);
    TimesFactor(a, Scale(b, s));
    ScaleScale(a, b, s);
    InvIsInverse(a);
    ScaleOne(s);
    SumComm(Scale(b, s), Up(s));
  }

  // ---------------------------------------------------------------------------------------
  // The locator

  lemma {:induction false} LocatorShape(es: seq<ErrorAt>)
    requires Proper(es)
    ensures |Locator(es)| == |es| + 1 && Coef(Locator(es), 0) == ONE
  {
    hide Factor, Locator, Times, Coef, Proper;
    LocatorUnfold(es);
    if es == [] {
      CoefSingle(ONE, 0);
      SingleLength(ONE);
    } else {
      ProperTail(es);
      LocatorShape(es[1..]);
      FactorForm(es[0].location);
      TimesLength(Factor(es[0].location), Locator(es[1..]));
      TimesCoef0(Factor(es[0].location), Locator(es[1..]));
      MulOne(ONE);
    }
  }

  lemma SingleLength(c: Elem)
    ensures |Single(c)| == if c == ZERO then 0 else 1
  {
  }

  /** The locator vanishes exactly at the inverses of the locations. */
  lemma {:induction false} LocatorRoots(es: seq<ErrorAt>, x: Elem)
    requires x != ZERO
    ensures Eval(Locator(es), x) == ZERO <==> exists i :: 0 <= i < |es| && es[i].location == Inv(x)
  {
    hide Factor, Locator, Times, Eval, Inv, Mul;
    LocatorUnfold(es);
    if es == [] {
      EvalSingle(ONE, x);
    } else {
      LocatorRoots(es[1..], x);
      var f, l := Factor(es[0].location), Locator(es[1..]);
      EvalTimes(f, l, x);
      MulNonZero(Eval(f, x), Eval(l, x));
      FactorRoot(es[0].location, x);
      if i :| 0 <= i < |es| && es[i].location == Inv(x) {
        if i > 0 { assert es[1..][i - 1].location == Inv(x); }
      }
      if i :| 0 <= i < |es[1..]| && es[1..][i].location == Inv(x) {
        assert es[i + 1].location == Inv(x);
      }
    }
  }

  lemma LocatorRoot(es: seq<ErrorAt>, i: nat)
    requires Proper(es) && i < |es|
    ensures es[i].location != ZERO && Inv(es[i].location) != ZERO
    ensures Eval(Locator(es), Inv(es[i].location)) == ZERO
  {
    hide Locator, Eval, Inv;
    InvInv(es[i].location);
    LocatorRoots(es, Inv(es[i].location));
  }

  /** A polynomial with all the roots of the locator is a multiple of it. */
  lemma {:induction false} LocatorDivides(es: seq<ErrorAt>, p: Poly) returns (q: Poly)
    requires Proper(es)
    requires forall i :: 0 <= i < |es| ==> Eval(p, Inv(es[i].location)) == ZERO
    ensures p == Times(Locator(es), q)
  {
    hide Factor, Locator, Times, Eval, Inv, Mul;
    LocatorUnfold(es);
    if es == [] {
      q := p;
      TimesSingle(ONE, p);
      ScaleOne(p);
    } else {
      var f, rest := Factor(es[0].location), es[1..];
      var p' := FactorOut(p, es[0].location);
      forall i | 0 <= i < |rest| ensures Eval(p', Inv(rest[i].location)) == ZERO {
        var x := Inv(es[i + 1].location);
        assert Eval(p, x) == ZERO;
        EvalTimes(f, p', x);
        InvInv(es[i + 1].location);
        FactorRoot(es[0].location, x);
        MulNonZero(Eval(f, x), Eval(p', x));
      }
      q := LocatorDivides(rest, p');
      TimesAssoc(f, Locator(rest), q);
    }
  }

  // ---------------------------------------------------------------------------------------
  // The evaluator

  lemma {:induction false} EvaluatorLength(es: seq<ErrorAt>)
    requires Proper(es)
    ensures |Evaluator(es)| <= |es|
  {
    hide Factor, Locator, Evaluator, Times, Sum, Scale, Proper;
    EvaluatorUnfold(es);
    if es != [] {
      ProperTail(es);
      EvaluatorLength(es[1..]);
      LocatorShape(es[1..]);
      FactorForm(es[0].location);
      TimesLength(Factor(es[0].location), Evaluator(es[1..]));
      SumLength(Scale(es[0].magnitude, Locator(es[1..])), Times(Factor(es[0].location), Evaluator(es[1..])));
    }
  }

  /** The product of 1 + y / x over the members y of `xs` other than x. */
  ghost function Others(xs: seq<Elem>, x: Elem): Elem {
    if xs == [] then ONE
    else if xs[0] == x then Others(xs[1..], x)
    else Mul(Add(ONE, Mul(Inv(x), xs[0])), Others(xs[1..], x))
  }

  function Locations(es: seq<ErrorAt>): (xs: seq<Elem>)
    ensures |xs| == |es| && forall i :: 0 <= i < |es| ==> xs[i] == es[i].location
  {
    if es == [] then [] else [es[0].location] + Locations(es[1..])
  }

  lemma OthersUnfold(xs: seq<Elem>, x: Elem)
    ensures Others([], x) == ONE
    ensures xs != [] ==>
      Others(xs, x) ==
        if xs[0] == x then Others(xs[1..], x) else Mul(Add(ONE, Mul(Inv(x), xs[0])), Others(xs[1..], x))
  {
    hide Mul, Add, Inv;
  }

  lemma {:induction false} OthersNonZero(xs: seq<Elem>, x: Elem)
    requires x != ZERO
    ensures Others(xs, x) != ZERO
  {
    hide Mul, Add, Inv, Others;
    OthersUnfold(xs, x);
    if xs != [] {
      OthersNonZero(xs[1..], x);
      InvInv(x);
      EvalFactor(xs[0], Inv(x));
      FactorRoot(xs[0], Inv(x));
      MulNonZero(Add(ONE, Mul(Inv(x), xs[0])), Others(xs[1..], x));
    }
  }

  lemma LocationsTail(es: seq<ErrorAt>)
    requires es != []
    ensures Locations(es)[1..] == Locations(es[1..])
  {
  }

  /** Away from its roots the locator takes the value of the product over all locations. */
  lemma {:induction false} LocatorElsewhere(es: seq<ErrorAt>, x: Elem)
    requires x != ZERO && forall i :: 0 <= i < |es| ==> es[i].location != x
    ensures Eval(Locator(es), Inv(x)) == Others(Locations(es), x)
  {
    hide Mul, Add, Inv, Others, Locator, Eval, Factor, Times, Locations;
    LocatorUnfold(es);
    OthersUnfold(Locations(es), x);
    if es == [] {
      EvalSingle(ONE, Inv(x));
    } else {
      LocationsTail(es);
      LocatorElsewhere(es[1..], x);
      EvalTimes(Factor(es[0].location), Locator(es[1..]), Inv(x));
      EvalFactor(es[0].location, Inv(x));
    }
  }

  /** Forney's formula: at the inverse of a location the evaluator gives its magnitude. */
  lemma {:induction false} EvaluatorAtRoot(es: seq<ErrorAt>, i: nat)
    requires Proper(es) && i < |es|
    ensures Eval(Evaluator(es), Inv(es[i].location)) ==
      Mul(es[i].magnitude, Others(Locations(es), es[i].location))
  {
    hide Mul, Add, Inv, Others, Locator, Evaluator, Eval, Factor, Times, Sum, Scale, Locations;
    var x, rest := es[i].location, es[1..];
    var z, f, y := Inv(x), Factor(es[0].location), es[0].magnitude;
    InvInv(x);
    EvaluatorUnfold(es);
    OthersUnfold(Locations(es), x);
    LocationsTail(es);
    EvalSum(Scale(y, Locator(rest)), Times(f, Evaluator(rest)), z);
    EvalScale(y, Locator(rest), z);
    EvalTimes(f, Evaluator(rest), z);
    EvalFactor(es[0].location, z);
    FactorRoot(es[0].location, z);
    if i == 0 {
      LocatorElsewhere(rest, x);
      MulZero(Eval(Evaluator(rest), z));
      AddLaws(Mul(y, Others(Locations(rest), x)), ZERO);
    } else {
      ProperTail(es);
      LocatorRoot(rest, i - 1);
      EvaluatorAtRoot(rest, i - 1);
      MulZero(y);
      var w, o := Eval(f, z), Others(Locations(rest), x);
      AddLaws(Mul(w, Mul(es[i].magnitude, o)), ZERO);
      MulAssoc(w, es[i].magnitude, o);
      MulComm(w, es[i].magnitude);
      MulAssoc(es[i].magnitude, w, o);
    }
  }

  lemma EvaluatorNonZeroAtRoot(es: seq<ErrorAt>, i: nat)
    requires Proper(es) && i < |es|
    ensures Eval(Evaluator(es), Inv(es[i].location)) != ZERO
  {
    hide Mul, Inv, Others, Evaluator, Eval, Locations;
    EvaluatorAtRoot(es, i);
    OthersNonZero(Locations(es), es[i].location);
    MulNonZero(es[i].magnitude, Others(Locations(es), es[i].location));
  }

  // ---------------------------------------------------------------------------------------
  // Syndromes and the key equation

  lemma GeometricUnfold(a: Elem, m: nat)
    ensures Geometric(a, 0) == []
    ensures m > 0 ==> Geometric(a, m) == Sum(Single(ONE), Up(Scale(a, Geometric(a, m - 1))))
    ensures Power(a, 0) == ONE
    ensures m > 0 ==> Power(a, m) == Mul(a, Power(a, m - 1))
  {
    hide Sum, Single, Up, Scale, Mul;
  }

  lemma {:induction false} CoefGeometric(a: Elem, m: nat, k: nat)
    ensures Coef(Geometric(a, m), k) == if k < m then Power(a, k) else ZERO
  {
    hide *;
    GeometricUnfold(a, m);
    GeometricUnfold(a, k);
    if m == 0 {
      CoefEmpty(k);
    } else {
      var g := Geometric(a, m - 1);
      CoefSum(Single(ONE), Up(Scale(a, g)), k);
      CoefSingle(ONE, k);
      CoefUp(Scale(a, g), k);
      if k == 0 {
        AddLaws(ONE, ZERO);
      } else {
        CoefScale(a, g, k - 1);
        CoefGeometric(a, m - 1, k - 1);
        MulZero(a);
        AddLaws(Coef(Scale(a, g), k - 1), ZERO);
      }
    }
  }

  /** The geometric sum times 1 + a x is 1 + (a x)^m. */
  lemma {:induction false} GeometricClosed(a: Elem, m: nat)
    ensures Times(Factor(a), Geometric(a, m)) == Sum(Single(ONE), Shift(Single(Power(a, m)), m))
  {
    hide *;
    GeometricUnfold(a, m);
    if m == 0 {
      TimesEmpty(Factor(a));
      ShiftStep(Single(ONE), 0);
      SumSelf(Single(ONE));
    } else {
      var f, g, p := Factor(a), Geometric(a, m - 1), Power(a, m - 1);
      GeometricClosed(a, m - 1);
      TimesSum(f, Single(ONE), Up(Scale(a, g)));
      TimesComm(f, Single(ONE));
      TimesSingle(ONE, f);
      ScaleOne(f);
      FactorForm(a);
      TimesComm(f, Up(Scale(a, g)));
      TimesUp(Scale(a, g), f);
      TimesScale(a, g, f);
      TimesComm(g, f);
      ScaleSum(a, Single(ONE), Shift(Single(p), m - 1));
      ScaleSingle(a, ONE);
      MulOne(a);
      ScaleShift(a, Single(p), m - 1);
      ScaleSingle(a, p);
      UpSum(Single(a), Shift(Single(Power(a, m)), m - 1));
      ShiftStep(Single(Power(a, m)), m - 1);
      SumAssoc(Single(ONE), Up(Single(a)), Sum(Up(Single(a)), Shift(Single(Power(a, m)), m)));
      SumCancel(Shift(Single(Power(a, m)), m), Up(Single(a)));
    }
  }

  lemma ScaleShift(c: Elem, p: Poly, d: nat)
    ensures Scale(c, Shift(p, d)) == Shift(Scale(c, p), d)
  {
    hide *;
    forall k: nat ensures Coef(Scale(c, Shift(p, d)), k) == Coef(Shift(Scale(c, p), d), k) {
      CoefScale(c, Shift(p, d), k);
      CoefShift(p, d, k);
      CoefShift(Scale(c, p), d, k);
      MulZero(c);
      if k >= d { CoefScale(c, p, k - d); }
    }
    PolyEq(Scale(c, Shift(p, d)), Shift(Scale(c, p), d));
  }

  lemma ShiftSum(p: Poly, q: Poly, d: nat)
    ensures Shift(Sum(p, q), d) == Sum(Shift(p, d), Shift(q, d))
  {
    hide *;
    forall k: nat ensures Coef(Shift(Sum(p, q), d), k) == Coef(Sum(Shift(p, d), Shift(q, d)), k) {
      CoefShift(Sum(p, q), d, k);
      CoefShift(p, d, k);
      CoefShift(q, d, k);
      CoefSum(Shift(p, d), Shift(q, d), k);
      AddLaws(ZERO, ZERO);
      if k >= d { CoefSum(p, q, k - d); }
    }
    PolyEq(Shift(Sum(p, q), d), Sum(Shift(p, d), Shift(q, d)));
  }

  lemma {:induction false} CoefSyndromePoly(es: seq<ErrorAt>, m: nat, k: nat)
    ensures Coef(SyndromePoly(es, m), k) == if k < m then SyndromeAt(es, k) else ZERO
  {
    hide *;
    SyndromePolyUnfold(es, m);
    SyndromeAtUnfold(es, k);
    if es == [] {
      CoefEmpty(k);
    } else {
      var e, rest := es[0], es[1..];
      CoefSyndromePoly(rest, m, k);
      CoefSum(Scale(e.magnitude, Geometric(e.location, m)), SyndromePoly(rest, m), k);
      CoefScale(e.magnitude, Geometric(e.location, m), k);
      CoefGeometric(e.location, m, k);
      MulZero(e.magnitude);
      AddLaws(ZERO, ZERO);
    }
  }

  /** The key equation. */
  lemma {:induction false} KeyEquation(es: seq<ErrorAt>, m: nat)
    ensures Times(Locator(es), SyndromePoly(es, m)) == Sum(Evaluator(es), Shift(Excess(es, m), m))
  {
    hide *;
    LocatorUnfold(es);
    EvaluatorUnfold(es);
    SyndromePolyUnfold(es, m);
    ExcessUnfold(es, m);
    if es == [] {
      TimesEmpty(Single(ONE));
      ShiftStep([], m);
      EmptyShift(m);
      SumZero([]);
    } else {
      var x, y, rest := es[0].location, es[0].magnitude, es[1..];
      var f, l, g, s, e, h, p :=
        Factor(x), Locator(rest), Geometric(x, m), SyndromePoly(rest, m), Evaluator(rest), Excess(rest, m), Power(x, m);
      KeyEquation(rest, m);
      TimesSum(Times(f, l), Scale(y, g), s);
      KeyFirst(f, l, g, y, p, m) by { GeometricClosed(x, m); }
      KeyRest(f, l, s, e, h, m);
      ShiftSum(Scale(Mul(y, p), l), Times(f, h), m);
      SumSwap(Scale(y, l), Shift(Scale(Mul(y, p), l), m), Times(f, e), Shift(Times(f, h), m));
    }
  }

  lemma EmptyShift(d: nat)
    ensures Shift([], d) == []
  {
  }

  lemma KeyFirst(f: Poly, l: Poly, g: Poly, y: Elem, p: Elem, m: nat)
    requires Times(f, g) == Sum(Single(ONE), Shift(Single(p), m))
    ensures Times(Times(f, l), Scale(y, g)) == Sum(Scale(y, l), Shift(Scale(Mul(y, p), l), m))
  {
    hide *;
    TimesComm(f, l);
    TimesAssoc(l, f, Scale(y, g));
    TimesComm(f, Scale(y, g));
    TimesScale(y, g, f);
    TimesComm(g, f);
    ScaleSum(y, Single(ONE), Shift(Single(p), m));
    ScaleSingle(y, ONE);
    MulOne(y);
    ScaleShift(y, Single(p), m);
    ScaleSingle(y, p);
    TimesSum(l, Single(y), Shift(Single(Mul(y, p)), m));
    TimesComm(l, Single(y));
    TimesSingle(y, l);
    TimesComm(l, Shift(Single(Mul(y, p)), m));
    TimesShift(Single(Mul(y, p)), m, l);
    TimesSingle(Mul(y, p), l);
  }

  lemma KeyRest(f: Poly, l: Poly, s: Poly, e: Poly, h: Poly, m: nat)
    requires Times(l, s) == Sum(e, Shift(h, m))
    ensures Times(Times(f, l), s) == Sum(Times(f, e), Shift(Times(f, h), m))
  {
    hide *;
    TimesAssoc(f, l, s);
    TimesSum(f, e, Shift(h, m));
    TimesComm(f, Shift(h, m));
    TimesShift(h, m, f);
    TimesComm(h, f);
  }
}
