/**
 Polynomials over GF(256), as lists of coefficients with the highest power first. A polynomial
 proper has no leading zero; the zero polynomial is the empty list.
 */
module Polynomials {
  import opened GaloisField

  type Poly = p: seq<Elem> | p == [] || p[0] != ZERO

  function Max(a: nat, b: nat): nat { if a < b then b else a }

  function Zeros(n: nat): (s: seq<Elem>)
    ensures |s| == n
  {
    seq(n, i => ZERO)
  }

  /** The coefficient of x^k. */
  function Coef(s: seq<Elem>, k: nat): Elem {
    if k < |s| then s[|s| - 1 - k] else ZERO
  }

  /** A coefficient list without its leading zeros. */
  function Trim(s: seq<Elem>): (p: Poly)
    ensures |p| <= |s|
  {
    if s == [] || s[0] != ZERO then s else Trim(s[1..])
  }

  /** The value at `x`. */
  ghost function Eval(s: seq<Elem>, x: Elem): Elem {
    if s == [] then ZERO else Add(Coef(s, 0), Mul(x, Eval(s[..|s| - 1], x)))
  }

  ghost function Sum(p: Poly, q: Poly): Poly {
    var n := Max(|p|, |q|);
    Trim(seq(n, i requires 0 <= i < n => Add(Coef(p, n - 1 - i), Coef(q, n - 1 - i))))
  }

  ghost function Scale(c: Elem, p: Poly): (r: Poly)
    ensures c != ZERO ==> |r| == |p|
  {
    if c == ZERO || p == [] then [] else
      MulNonZero(c, p[0]);
      seq(|p|, i requires 0 <= i < |p| => Mul(c, p[i]))
  }

  /** x * p */
  ghost function Up(p: Poly): (r: Poly)
    ensures |r| == if p == [] then 0 else |p| + 1
  {
    if p == [] then [] else p + [ZERO]
  }

  /** p with its constant coefficient dropped, divided by x */
  ghost function High(p: Poly): (r: Poly)
    ensures |r| == if p == [] then 0 else |p| - 1
  {
    if p == [] then [] else p[..|p| - 1]
  }

  ghost function Times(p: Poly, q: Poly): Poly
    decreases |p|
  {
    if p == [] then [] else Sum(Scale(Coef(p, 0), q), Up(Times(High(p), q)))
  }

  /** c * x^d */
  ghost function Monomial(c: Elem, d: nat): Poly {
    if c == ZERO then [] else [c] + Zeros(d)
  }

  /** x^d * p */
  ghost function Shift(p: Poly, d: nat): Poly {
    if p == [] then [] else p + Zeros(d)
  }

  // ---------------------------------------------------------------------------------------
  // Coefficients determine a polynomial

  lemma {:induction false} CoefTrim(s: seq<Elem>, k: nat)
    ensures Coef(Trim(s), k) == Coef(s, k)
  {
    if s != [] && s[0] == ZERO { CoefTrim(s[1..], k); }
  }

  lemma PolyEq(p: Poly, q: Poly)
    requires forall k: nat :: Coef(p, k) == Coef(q, k)
    ensures p == q
  {
    forall k: nat | k >= |q| ensures Coef(p, k) == ZERO { CoefBeyond(q, k); }
    LengthAtMost(p, |q|);
    forall k: nat | k >= |p| ensures Coef(q, k) == ZERO { CoefBeyond(p, k); }
    LengthAtMost(q, |p|);
    forall i | 0 <= i < |p| ensures p[i] == q[i] {
      assert Coef(p, |p| - 1 - i) == Coef(q, |p| - 1 - i);
    }
  }

  lemma CoefSum(p: Poly, q: Poly, k: nat)
    ensures Coef(Sum(p, q), k) == Add(Coef(p, k), Coef(q, k))
  {
    hide Add, Trim;
    var n := Max(|p|, |q|);
    var s := seq(n, i requires 0 <= i < n => Add(Coef(p, n - 1 - i), Coef(q, n - 1 - i)));
    CoefTrim(s, k);
    AddLaws(ZERO, ZERO);
  }

  lemma CoefScale(c: Elem, p: Poly, k: nat)
    ensures Coef(Scale(c, p), k) == Mul(c, Coef(p, k))
  {
    hide Mul;
    MulZero(c);
    MulZero(Coef(p, k));
  }

  lemma CoefUp(p: Poly, k: nat)
    ensures Coef(Up(p), k) == if k == 0 then ZERO else Coef(p, k - 1)
  {
  }

  lemma CoefHigh(p: Poly, k: nat)
    ensures Coef(High(p), k) == Coef(p, k + 1)
  {
  }

  lemma CoefBeyond(p: Poly, k: nat)
    ensures k >= |p| ==> Coef(p, k) == ZERO
    ensures p != [] ==> Coef(p, |p| - 1) != ZERO
  {
  }

  /** A polynomial all of whose coefficients from x^n up vanish is shorter than n + 1. */
  lemma LengthAtMost(p: Poly, n: nat)
    requires forall k: nat :: k >= n ==> Coef(p, k) == ZERO
    ensures |p| <= n
  {
    if |p| > n { CoefBeyond(p, |p| - 1); }
  }

  // ---------------------------------------------------------------------------------------
  // Sums

  lemma SumComm(p: Poly, q: Poly)
    ensures Sum(p, q) == Sum(q, p)
  {
    hide *;
    forall k: nat ensures Coef(Sum(p, q), k) == Coef(Sum(q, p), k) {
      CoefSum(p, q, k);
      CoefSum(q, p, k);
      AddLaws(Coef(p, k), Coef(q, k));
    }
    PolyEq(Sum(p, q), Sum(q, p));
  }

  lemma SumAssoc(p: Poly, q: Poly, r: Poly)
    ensures Sum(Sum(p, q), r) == Sum(p, Sum(q, r))
  {
    hide *;
    forall k: nat ensures Coef(Sum(Sum(p, q), r), k) == Coef(Sum(p, Sum(q, r)), k) {
      CoefSum(p, q, k);
      CoefSum(Sum(p, q), r, k);
      CoefSum(q, r, k);
      CoefSum(p, Sum(q, r), k);
      AddAssoc(Coef(p, k), Coef(q, k), Coef(r, k));
    }
    PolyEq(Sum(Sum(p, q), r), Sum(p, Sum(q, r)));
  }

  lemma CoefEmpty(k: nat)
    ensures Coef([], k) == ZERO
  {
  }

  lemma SumZero(p: Poly)
    ensures Sum(p, []) == p && Sum([], p) == p
  {
    hide *;
    forall k: nat ensures Coef(Sum(p, []), k) == Coef(p, k) {
      CoefSum(p, [], k);
      CoefEmpty(k);
      AddLaws(Coef(p, k), ZERO);
    }
    PolyEq(Sum(p, []), p);
    SumComm(p, []);
  }

  lemma SumSelf(p: Poly)
    ensures Sum(p, p) == []
  {
    hide *;
    forall k: nat ensures Coef(Sum(p, p), k) == Coef([], k) {
      CoefSum(p, p, k);
      CoefEmpty(k);
      AddLaws(Coef(p, k), Coef(p, k));
    }
    PolyEq(Sum(p, p), []);
  }

  /** Adding is its own inverse. */
  lemma SumCancel(p: Poly, q: Poly)
    ensures Sum(Sum(p, q), q) == p && Sum(q, Sum(q, p)) == p
  {
    hide *;
    SumAssoc(p, q, q);
    SumAssoc(q, q, p);
    SumSelf(q);
    SumZero(p);
  }

  lemma SumEmpty(p: Poly, q: Poly)
    requires Sum(p, q) == []
    ensures p == q
  {
    hide *;
    SumCancel(p, q);
    SumZero(q);
  }

  lemma SumSwap(p: Poly, q: Poly, r: Poly, s: Poly)
    ensures Sum(Sum(p, q), Sum(r, s)) == Sum(Sum(p, r), Sum(q, s))
  {
    hide *;
    SumAssoc(p, q, Sum(r, s));
    SumAssoc(q, r, s);
    SumComm(q, r);
    SumAssoc(r, q, s);
    SumAssoc(p, r, Sum(q, s));
  }

  lemma SumLength(p: Poly, q: Poly)
    ensures |Sum(p, q)| <= Max(|p|, |q|)
    ensures |p| < |q| ==> |Sum(p, q)| == |q| && |Sum(q, p)| == |q|
  {
    hide Add, Trim;
    if |p| < |q| {
      CoefSum(p, q, |q| - 1);
      AddLaws(Coef(q, |q| - 1), ZERO);
      CoefBeyond(q, 0);
      CoefBeyond(Sum(p, q), |q| - 1);
      SumComm(p, q);
    }
  }

  // ---------------------------------------------------------------------------------------
  // Scaling and shifting by one

  lemma ScaleSum(c: Elem, p: Poly, q: Poly)
    ensures Scale(c, Sum(p, q)) == Sum(Scale(c, p), Scale(c, q))
  {
    hide *;
    forall k: nat ensures Coef(Scale(c, Sum(p, q)), k) == Coef(Sum(Scale(c, p), Scale(c, q)), k) {
      CoefScale(c, Sum(p, q), k);
      CoefSum(p, q, k);
      CoefSum(Scale(c, p), Scale(c, q), k);
      CoefScale(c, p, k);
      CoefScale(c, q, k);
      MulDistrib(c, Coef(p, k), Coef(q, k));
    }
    PolyEq(Scale(c, Sum(p, q)), Sum(Scale(c, p), Scale(c, q)));
  }

  lemma ScaleAdd(c: Elem, d: Elem, p: Poly)
    ensures Scale(Add(c, d), p) == Sum(Scale(c, p), Scale(d, p))
  {
    hide *;
    forall k: nat ensures Coef(Scale(Add(c, d), p), k) == Coef(Sum(Scale(c, p), Scale(d, p)), k) {
      CoefScale(Add(c, d), p, k);
      CoefSum(Scale(c, p), Scale(d, p), k);
      CoefScale(c, p, k);
      CoefScale(d, p, k);
      MulDistrib(Coef(p, k), c, d);
    }
    PolyEq(Scale(Add(c, d), p), Sum(Scale(c, p), Scale(d, p)));
  }

  lemma ScaleScale(c: Elem, d: Elem, p: Poly)
    ensures Scale(c, Scale(d, p)) == Scale(Mul(c, d), p)
  {
    hide *;
    forall k: nat ensures Coef(Scale(c, Scale(d, p)), k) == Coef(Scale(Mul(c, d), p), k) {
      CoefScale(c, Scale(d, p), k);
      CoefScale(d, p, k);
      CoefScale(Mul(c, d), p, k);
      MulAssoc(c, d, Coef(p, k));
    }
    PolyEq(Scale(c, Scale(d, p)), Scale(Mul(c, d), p));
  }

  lemma ScaleOne(p: Poly)
    ensures Scale(ONE, p) == p
  {
    hide *;
    forall k: nat ensures Coef(Scale(ONE, p), k) == Coef(p, k) {
      CoefScale(ONE, p, k);
      MulOne(Coef(p, k));
    }
    PolyEq(Scale(ONE, p), p);
  }

  lemma ScaleZero(c: Elem, p: Poly)
    ensures Scale(ZERO, p) == [] && Scale(c, []) == []
  {
  }

  lemma UpSum(p: Poly, q: Poly)
    ensures Up(Sum(p, q)) == Sum(Up(p), Up(q))
  {
    hide *;
    forall k: nat ensures Coef(Up(Sum(p, q)), k) == Coef(Sum(Up(p), Up(q)), k) {
      CoefUp(Sum(p, q), k);
      CoefSum(Up(p), Up(q), k);
      CoefUp(p, k);
      CoefUp(q, k);
      if k == 0 { AddLaws(ZERO, ZERO); } else { CoefSum(p, q, k - 1); }
    }
    PolyEq(Up(Sum(p, q)), Sum(Up(p), Up(q)));
  }

  lemma UpScale(c: Elem, p: Poly)
    ensures Up(Scale(c, p)) == Scale(c, Up(p))
  {
    hide *;
    forall k: nat ensures Coef(Up(Scale(c, p)), k) == Coef(Scale(c, Up(p)), k) {
      CoefUp(Scale(c, p), k);
      CoefUp(p, k);
      CoefScale(c, Up(p), k);
      if k == 0 { MulZero(c); } else { CoefScale(c, p, k - 1); }
    }
    PolyEq(Up(Scale(c, p)), Scale(c, Up(p)));
  }

  lemma HighSum(p: Poly, q: Poly)
    ensures High(Sum(p, q)) == Sum(High(p), High(q))
  {
    hide *;
    forall k: nat ensures Coef(High(Sum(p, q)), k) == Coef(Sum(High(p), High(q)), k) {
      CoefHigh(Sum(p, q), k);
      CoefHigh(p, k);
      CoefHigh(q, k);
      CoefSum(p, q, k + 1);
      CoefSum(High(p), High(q), k);
    }
    PolyEq(High(Sum(p, q)), Sum(High(p), High(q)));
  }

  lemma HighScale(c: Elem, p: Poly)
    ensures High(Scale(c, p)) == Scale(c, High(p))
  {
    hide *;
    forall k: nat ensures Coef(High(Scale(c, p)), k) == Coef(Scale(c, High(p)), k) {
      CoefHigh(Scale(c, p), k);
      CoefHigh(p, k);
      CoefScale(c, p, k + 1);
      CoefScale(c, High(p), k);
    }
    PolyEq(High(Scale(c, p)), Scale(c, High(p)));
  }

  lemma HighUp(p: Poly)
    ensures High(Up(p)) == p && Coef(Up(p), 0) == ZERO
  {
    hide *;
    forall k: nat ensures Coef(High(Up(p)), k) == Coef(p, k) {
      CoefHigh(Up(p), k);
      CoefUp(p, k + 1);
    }
    PolyEq(High(Up(p)), p);
    CoefUp(p, 0);
  }

  // ---------------------------------------------------------------------------------------
  // Products

  lemma TimesUnfold(p: Poly, q: Poly)
    ensures Times(p, q) == Sum(Scale(Coef(p, 0), q), Up(Times(High(p), q)))
    ensures Times([], q) == []
  {
    hide Sum, Scale, Add, Mul;
    if p == [] {
      ScaleZero(ZERO, q);
      SumZero([]);
    }
  }

  lemma {:induction false} TimesEmpty(p: Poly)
    ensures Times(p, []) == []
    decreases |p|
  {
    hide *;
    TimesUnfold(p, []);
    if p != [] {
      TimesEmpty(High(p));
      ScaleZero(Coef(p, 0), []);
      UpEmpty();
      SumZero([]);
    }
  }

  lemma UpEmpty()
    ensures Up([]) == []
  {
  }

  lemma {:induction false} TimesSum(p: Poly, q: Poly, r: Poly)
    ensures Times(p, Sum(q, r)) == Sum(Times(p, q), Times(p, r))
    decreases |p|
  {
    hide *;
    TimesUnfold(p, q);
    TimesUnfold(p, r);
    TimesUnfold(p, Sum(q, r));
    if p == [] {
      SumZero([]);
    } else {
      var a, h := Coef(p, 0), High(p);
      TimesSum(h, q, r);
      ScaleSum(a, q, r);
      UpSum(Times(h, q), Times(h, r));
      SumSwap(Scale(a, q), Scale(a, r), Up(Times(h, q)), Up(Times(h, r)));
    }
  }

  lemma {:induction false} TimesSumLeft(p: Poly, q: Poly, r: Poly)
    ensures Times(Sum(p, q), r) == Sum(Times(p, r), Times(q, r))
    decreases |p| + |q|
  {
    hide *;
    TimesUnfold(p, r);
    TimesUnfold(q, r);
    if p == [] {
      SumZero(q);
      SumZero(Times(q, r));
    } else if q == [] {
      SumZero(p);
      SumZero(Times(p, r));
    } else {
      TimesUnfold(Sum(p, q), r);
      TimesSumLeft(High(p), High(q), r);
      HighSum(p, q);
      CoefSum(p, q, 0);
      ScaleAdd(Coef(p, 0), Coef(q, 0), r);
      UpSum(Times(High(p), r), Times(High(q), r));
      SumSwap(Scale(Coef(p, 0), r), Scale(Coef(q, 0), r), Up(Times(High(p), r)), Up(Times(High(q), r)));
    }
  }

  lemma {:induction false} TimesScale(c: Elem, p: Poly, q: Poly)
    ensures Times(Scale(c, p), q) == Scale(c, Times(p, q))
    decreases |p|
  {
    hide *;
    TimesUnfold(p, q);
    TimesUnfold(Scale(c, p), q);
    if p == [] {
      ScaleZero(c, q);
    } else {
      TimesScale(c, High(p), q);
      CoefScale(c, p, 0);
      HighScale(c, p);
      ScaleScale(c, Coef(p, 0), q);
      UpScale(c, Times(High(p), q));
      ScaleSum(c, Scale(Coef(p, 0), q), Up(Times(High(p), q)));
    }
  }

  lemma TimesUp(p: Poly, q: Poly)
    ensures Times(Up(p), q) == Up(Times(p, q))
  {
    hide *;
    TimesUnfold(Up(p), q);
    HighUp(p);
    ScaleZero(ZERO, q);
    SumZero(Up(Times(p, q)));
  }

  /** Unfolding the right factor instead. */
  lemma {:induction false} TimesUnfoldRight(p: Poly, q: Poly)
    ensures Times(p, q) == Sum(Scale(Coef(q, 0), p), Up(Times(p, High(q))))
    decreases |p|
  {
    hide *;
    TimesUnfold(p, q);
    TimesUnfold(p, High(q));
    if p == [] {
      ScaleZero(Coef(q, 0), []);
      UpEmpty();
      SumZero([]);
    } else {
      var a, b, h, g := Coef(p, 0), Coef(q, 0), High(p), High(q);
      TimesUnfoldRight(h, q);
      UpSum(Scale(b, h), Up(Times(h, g)));
      UpSum(Scale(a, g), Up(Times(h, g)));
      UnfoldScaled(a, q);
      UnfoldScaled(b, p);
      MulComm(a, b);
      Regroup(Single(Mul(a, b)), Up(Scale(a, g)), Up(Scale(b, h)), Up(Up(Times(h, g))));
    }
  }

  /** The constant polynomial `c`. */
  ghost function Single(c: Elem): Poly {
    if c == ZERO then [] else [c]
  }

  lemma CoefSingle(c: Elem, k: nat)
    ensures Coef(Single(c), k) == if k == 0 then c else ZERO
  {
  }

  lemma UnfoldScaled(a: Elem, q: Poly)
    ensures Scale(a, q) == Sum(Single(Mul(a, Coef(q, 0))), Up(Scale(a, High(q))))
  {
    hide *;
    var r := Up(Scale(a, High(q)));
    forall k: nat ensures Coef(Scale(a, q), k) == Coef(Sum(Single(Mul(a, Coef(q, 0))), r), k) {
      CoefScale(a, q, k);
      CoefSum(Single(Mul(a, Coef(q, 0))), r, k);
      CoefSingle(Mul(a, Coef(q, 0)), k);
      CoefUp(Scale(a, High(q)), k);
      if k > 0 {
        CoefScale(a, High(q), k - 1);
        CoefHigh(q, k - 1);
      }
      AddLaws(Coef(Scale(a, q), k), ZERO);
    }
    PolyEq(Scale(a, q), Sum(Single(Mul(a, Coef(q, 0))), r));
  }

  lemma Regroup(c: Poly, p: Poly, q: Poly, r: Poly)
    ensures Sum(Sum(c, p), Sum(q, r)) == Sum(Sum(c, q), Sum(p, r))
  {
    hide *;
    SumSwap(c, p, q, r);
  }

  lemma {:induction false} TimesComm(p: Poly, q: Poly)
    ensures Times(p, q) == Times(q, p)
    decreases |p|
  {
    hide *;
    TimesUnfold(p, q);
    if p == [] {
      TimesEmpty(q);
    } else {
      TimesComm(High(p), q);
      TimesUnfoldRight(q, p);
    }
  }

  lemma {:induction false} TimesAssoc(p: Poly, q: Poly, r: Poly)
    ensures Times(Times(p, q), r) == Times(p, Times(q, r))
    decreases |p|
  {
    hide *;
    TimesUnfold(p, q);
    TimesUnfold(p, Times(q, r));
    if p == [] {
      TimesUnfold([], r);
    } else {
      var a, h := Coef(p, 0), High(p);
      TimesAssoc(h, q, r);
      TimesSumLeft(Scale(a, q), Up(Times(h, q)), r);
      TimesScale(a, q, r);
      TimesUp(Times(h, q), r);
    }
  }

  lemma TimesSingle(c: Elem, p: Poly)
    ensures Times(Single(c), p) == Scale(c, p)
  {
    hide *;
    TimesUnfold(Single(c), p);
    CoefSingle(c, 0);
    HighSingle(c);
    TimesUnfold([], p);
    UpEmpty();
    SumZero(Scale(c, p));
  }

  lemma HighSingle(c: Elem)
    ensures High(Single(c)) == []
  {
  }

  /** Degrees add: there are no zero divisors. */
  lemma {:induction false} TimesLength(p: Poly, q: Poly)
    ensures |Times(p, q)| == if p == [] || q == [] then 0 else |p| + |q| - 1
    decreases |p|
  {
    hide Sum, Scale, Add, Mul, Up, High, Times;
    TimesUnfold(p, q);
    TimesEmpty(p);
    if p != [] && q != [] {
      var h := High(p);
      TimesLength(h, q);
      if h == [] {
        CoefBeyond(p, 0);
        TimesUnfold([], q);
        UpEmpty();
        SumZero(Scale(Coef(p, 0), q));
      } else {
        SumLength(Scale(Coef(p, 0), q), Up(Times(h, q)));
        ScaleZero(Coef(p, 0), q);
      }
    }
  }

  lemma TimesNonZero(p: Poly, q: Poly)
    ensures Times(p, q) == [] <==> p == [] || q == []
  {
    hide *;
    TimesLength(p, q);
  }

  /** A common non-zero factor cancels. */
  lemma TimesCancel(p: Poly, q: Poly, r: Poly)
    requires p != [] && Times(p, q) == Times(p, r)
    ensures q == r
  {
    hide *;
    TimesSum(p, q, r);
    SumSelf(Times(p, q));
    TimesNonZero(p, Sum(q, r));
    SumEmpty(q, r);
  }

  lemma TimesCoef0(p: Poly, q: Poly)
    ensures Coef(Times(p, q), 0) == Mul(Coef(p, 0), Coef(q, 0))
  {
    hide *;
    TimesUnfold(p, q);
    CoefSum(Scale(Coef(p, 0), q), Up(Times(High(p), q)), 0);
    CoefScale(Coef(p, 0), q, 0);
    CoefUp(Times(High(p), q), 0);
    AddLaws(Coef(Scale(Coef(p, 0), q), 0), ZERO);
  }

  lemma CoefShift(p: Poly, d: nat, k: nat)
    ensures Coef(Shift(p, d), k) == if k < d then ZERO else Coef(p, k - d)
  {
  }

  lemma ShiftStep(p: Poly, d: nat)
    ensures Shift(p, 0) == p
    ensures Shift(p, d + 1) == Up(Shift(p, d))
  {
    hide *;
    forall k: nat ensures Coef(Shift(p, d + 1), k) == Coef(Up(Shift(p, d)), k) {
      CoefShift(p, d + 1, k);
      CoefUp(Shift(p, d), k);
      if k > 0 { CoefShift(p, d, k - 1); }
    }
    PolyEq(Shift(p, d + 1), Up(Shift(p, d)));
    forall k: nat ensures Coef(Shift(p, 0), k) == Coef(p, k) { CoefShift(p, 0, k); }
    PolyEq(Shift(p, 0), p);
  }

  lemma MonomialIsShift(c: Elem, d: nat)
    ensures Monomial(c, d) == Shift(Single(c), d)
  {
  }

  lemma {:induction false} TimesShift(p: Poly, d: nat, q: Poly)
    ensures Times(Shift(p, d), q) == Shift(Times(p, q), d)
  {
    hide *;
    if d == 0 {
      ShiftStep(p, 0);
      ShiftStep(Times(p, q), 0);
    } else {
      ShiftStep(p, d - 1);
      ShiftStep(Times(p, q), d - 1);
      TimesShift(p, d - 1, q);
      TimesUp(Shift(p, d - 1), q);
    }
  }

  /** Multiplying by a monomial scales and shifts. */
  lemma TimesMonomial(c: Elem, d: nat, p: Poly)
    ensures Times(Monomial(c, d), p) == Shift(Scale(c, p), d)
  {
    hide *;
    MonomialIsShift(c, d);
    TimesShift(Single(c), d, p);
    TimesSingle(c, p);
  }

  /** A product with x^d is a shift. */
  lemma TimesPower(d: nat, p: Poly)
    ensures Times(Monomial(ONE, d), p) == Shift(p, d)
  {
    hide *;
    TimesMonomial(ONE, d, p);
    ScaleOne(p);
  }

  // ---------------------------------------------------------------------------------------
  // Values

  lemma EvalUnfold(p: Poly, x: Elem)
    ensures Eval(p, x) == Add(Coef(p, 0), Mul(x, Eval(High(p), x)))
    ensures Eval([], x) == ZERO
  {
    hide Add, Mul;
    MulZero(x);
    AddLaws(ZERO, ZERO);
  }

  lemma {:induction false} EvalSum(p: Poly, q: Poly, x: Elem)
    ensures Eval(Sum(p, q), x) == Add(Eval(p, x), Eval(q, x))
    decreases |p| + |q|
  {
    hide *;
    EvalUnfold(p, x);
    EvalUnfold(q, x);
    if p == [] {
      SumZero(q);
      AddLaws(Eval(q, x), ZERO);
    } else if q == [] {
      SumZero(p);
      AddLaws(Eval(p, x), ZERO);
    } else {
      EvalUnfold(Sum(p, q), x);
      HighSum(p, q);
      CoefSum(p, q, 0);
      EvalSum(High(p), High(q), x);
      MulDistrib(x, Eval(High(p), x), Eval(High(q), x));
      AddSwap(Coef(p, 0), Coef(q, 0), Mul(x, Eval(High(p), x)), Mul(x, Eval(High(q), x)));
    }
  }

  lemma {:induction false} EvalScale(c: Elem, p: Poly, x: Elem)
    ensures Eval(Scale(c, p), x) == Mul(c, Eval(p, x))
    decreases |p|
  {
    hide *;
    EvalUnfold(p, x);
    EvalUnfold(Scale(c, p), x);
    if p == [] {
      ScaleZero(c, []);
      MulZero(c);
    } else {
      EvalScale(c, High(p), x);
      HighScale(c, p);
      CoefScale(c, p, 0);
      var e := Eval(High(p), x);
      MulDistrib(c, Coef(p, 0), Mul(x, e));
      MulAssoc(c, x, e);
      MulComm(c, x);
      MulAssoc(x, c, e);
    }
  }

  lemma EvalUp(p: Poly, x: Elem)
    ensures Eval(Up(p), x) == Mul(x, Eval(p, x))
  {
    hide *;
    EvalUnfold(Up(p), x);
    HighUp(p);
    AddLaws(Mul(x, Eval(p, x)), ZERO);
  }

  lemma {:induction false} EvalTimes(p: Poly, q: Poly, x: Elem)
    ensures Eval(Times(p, q), x) == Mul(Eval(p, x), Eval(q, x))
    decreases |p|
  {
    hide *;
    TimesUnfold(p, q);
    EvalUnfold(p, x);
    if p == [] {
      MulZero(Eval(q, x));
    } else {
      var a, h := Coef(p, 0), High(p);
      EvalTimes(h, q, x);
      EvalSum(Scale(a, q), Up(Times(h, q)), x);
      EvalScale(a, q, x);
      EvalUp(Times(h, q), x);
      MulDistrib(Eval(q, x), a, Mul(x, Eval(h, x)));
      MulAssoc(x, Eval(h, x), Eval(q, x));
    }
  }

  lemma {:induction false} EvalTrim(s: seq<Elem>, x: Elem)
    ensures Eval(Trim(s), x) == Eval(s, x)
  {
    if s != [] && s[0] == ZERO {
      EvalTrim(s[1..], x);
      EvalLeadingZero(s, x);
    }
  }

  lemma {:induction false} EvalLeadingZero(s: seq<Elem>, x: Elem)
    requires s != [] && s[0] == ZERO
    ensures Eval(s, x) == Eval(s[1..], x)
  {
    hide Add, Mul;
    if |s| == 1 {
      assert s[..0] == [];
      assert Eval([], x) == ZERO;
      MulZero(x);
      AddLaws(ZERO, ZERO);
    } else {
      var t := s[..|s| - 1];
      EvalLeadingZero(t, x);
      assert t[1..] == s[1..][..|s| - 2];
    }
  }
}
