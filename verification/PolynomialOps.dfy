/**
 Polynomial arithmetic on coefficient lists as both programs carry it out, proved against the
 polynomials proper. The programs write the zero polynomial as the list of one zero.
 */
module PolynomialOps {
  import opened GaloisField
  import opened GaloisTables
  import opened Polynomials

  /** The coefficient lists that the programs pass around. */
  type Coeffs = c: seq<Elem> | |c| > 0 && (c[0] == ZERO ==> |c| == 1) witness [Elem(0)]

  /** The polynomial a list stands for. */
  function Value(c: Coeffs): (p: Poly)
    ensures p == if c == [ZERO] then [] else c
  {
    if c[0] == ZERO then [] else c
  }

  function Degree(c: Coeffs): nat { |c| - 1 }

  lemma TrimValue(c: Coeffs)
    ensures Trim(c) == Value(c)
  {
    if c[0] == ZERO { assert c[1..] == []; }
  }

  lemma CoefValue(c: Coeffs, k: nat)
    ensures Coef(Value(c), k) == Coef(c, k)
  {
  }

  /** Drops leading zeros; the source refuses the empty list. */
  method Normalise(coefficients: seq<Elem>) returns (c: Coeffs)
    requires |coefficients| > 0
    ensures Value(c) == Trim(coefficients)
  {
    var rest := coefficients;
    while |rest| > 0
      invariant Trim(rest) == Trim(coefficients)
    {
      if rest[0] != ZERO { return rest; }
      rest := rest[1..];
    }
    return [ZERO];
  }

  method BuildMonomial(degree: nat, coefficient: Elem) returns (c: Coeffs)
    ensures Value(c) == Monomial(coefficient, degree)
  {
    if coefficient == ZERO { return [ZERO]; }
    var coeff := new Elem[degree + 1](_ => ZERO);
    coeff[0] := coefficient;
    assert coeff[..] == [coefficient] + Zeros(degree);
    c := Normalise(coeff[..]);
  }

  method AddSub(p: Coeffs, q: Coeffs) returns (c: Coeffs)
    ensures Value(c) == Sum(Value(p), Value(q))
  {
    hide Add, Sum, Trim, Coef;
    if p[0] == ZERO { SumZero(Value(q)); return q; }
    if q[0] == ZERO { SumZero(Value(p)); return p; }
    var smaller, larger := p, q;
    if |smaller| > |larger| { smaller, larger := larger, smaller; }
    var coeff := new Elem[|larger|];
    var lenDiff := |larger| - |smaller|;
    for i := 0 to lenDiff
      invariant forall k :: 0 <= k < i ==> coeff[k] == larger[k]
    {
      coeff[i] := larger[i];
    }
    for i := lenDiff to |larger|
      invariant forall k :: 0 <= k < lenDiff ==> coeff[k] == larger[k]
      invariant forall k :: lenDiff <= k < i ==> coeff[k] == Add(smaller[k - lenDiff], larger[k])
    {
      coeff[i] := Add(smaller[i - lenDiff], larger[i]);
    }
    AlignedSum(smaller, larger, coeff[..]);
    SumComm(p, q);
    c := Normalise(coeff[..]);
  }

  lemma AlignedSum(p: Poly, q: Poly, s: seq<Elem>)
    requires |p| <= |q| == |s|
    requires forall k :: 0 <= k < |q| - |p| ==> s[k] == q[k]
    requires forall k :: |q| - |p| <= k < |q| ==> s[k] == Add(p[k - (|q| - |p|)], q[k])
    ensures Trim(s) == Sum(p, q)
  {
    hide Add, Sum, Trim;
    forall k: nat ensures Coef(Trim(s), k) == Coef(Sum(p, q), k) {
      CoefTrim(s, k);
      CoefSum(p, q, k);
      AddLaws(Coef(q, k), ZERO);
      AddLaws(ZERO, ZERO);
    }
    PolyEq(Trim(s), Sum(p, q));
  }

  // ---------------------------------------------------------------------------------------
  // Products

  /** `s` with `a * q` added to its last |q| entries. */
  ghost function RowAdded(s: seq<Elem>, a: Elem, q: seq<Elem>): (r: seq<Elem>)
    requires |q| <= |s|
    ensures |r| == |s|
  {
    seq(|s|, k requires 0 <= k < |s| =>
      if k < |s| - |q| then s[k] else Add(s[k], Mul(a, q[k - (|s| - |q|)])))
  }

  /** What the coefficient array holds once the rows of `p` have been added in. */
  ghost function Rows(p: seq<Elem>, q: seq<Elem>): (r: seq<Elem>)
    requires |q| > 0
    ensures |r| == |p| + |q| - 1
  {
    if p == [] then Zeros(|q| - 1)
    else RowAdded(Rows(p[..|p| - 1], q) + [ZERO], p[|p| - 1], q)
  }

  lemma CoefRowAdded(s: seq<Elem>, a: Elem, q: seq<Elem>, k: nat)
    requires |q| <= |s|
    ensures Coef(RowAdded(s, a, q), k) == Add(Coef(s, k), Mul(a, Coef(q, k)))
  {
    hide Add, Mul;
    MulZero(a);
    AddLaws(Coef(s, k), ZERO);
    AddLaws(ZERO, ZERO);
  }

  lemma {:induction false} CoefRows(p: Poly, q: Poly, k: nat)
    requires |q| > 0
    ensures Coef(Rows(p, q), k) == Coef(Times(p, q), k)
    decreases |p|
  {
    hide Add, Mul, Sum, Scale, Times, Trim, RowAdded;
    TimesUnfold(p, q);
    if p != [] {
      var h := High(p);
      var a := Coef(p, 0);
      assert p[..|p| - 1] == h;
      var upper := Rows(h, q) + [ZERO];
      assert Rows(p, q) == RowAdded(upper, a, q);
      CoefRowAdded(upper, a, q, k);
      CoefSum(Scale(a, q), Up(Times(h, q)), k);
      CoefScale(a, q, k);
      CoefUp(Times(h, q), k);
      if k > 0 {
        CoefRows(h, q, k - 1);
        assert Coef(upper, k) == Coef(Rows(h, q), k - 1);
      } else {
        assert Coef(upper, k) == ZERO;
      }
      AddLaws(Coef(upper, k), Mul(a, Coef(q, k)));
    }
  }

  lemma RowsAreProduct(p: Poly, q: Poly)
    requires |q| > 0
    ensures Trim(Rows(p, q)) == Times(p, q)
  {
    hide *;
    forall k: nat ensures Coef(Trim(Rows(p, q)), k) == Coef(Times(p, q), k) {
      CoefTrim(Rows(p, q), k);
      CoefRows(p, q, k);
    }
    PolyEq(Trim(Rows(p, q)), Times(p, q));
  }

  method Multiply(field: GF256, p: Coeffs, q: Coeffs) returns (c: Coeffs)
    requires field.Valid()
    ensures Value(c) == Times(Value(p), Value(q))
  {
    hide Add, Mul, Times, Trim, Rows, GF256.Valid;
    if p[0] == ZERO || q[0] == ZERO {
      TimesEmpty(Value(p));
      TimesUnfold([], Value(q));
      return [ZERO];
    }
    var product := new Elem[|p| + |q| - 1](_ => ZERO);
    RowsStart(q);
    assert p[..0] == [];
    for i := 0 to |p|
      invariant product[..i + |q| - 1] == Rows(p[..i], q)
      invariant forall k :: i + |q| - 1 <= k < product.Length ==> product[k] == ZERO
    {
      AddRow(field, product, i, p[i], q);
      RowsStep(p[..i + 1], q);
      assert p[..i + 1][..i] == p[..i];
    }
    assert p[..|p|] == p;
    RowsAreProduct(p, q);
    assert product[..] == product[..|p| + |q| - 1];
    c := Normalise(product[..]);
  }

  lemma RowsStart(q: seq<Elem>)
    requires |q| > 0
    ensures Rows([], q) == Zeros(|q| - 1)
  {
  }

  lemma RowsStep(p: seq<Elem>, q: seq<Elem>)
    requires |q| > 0 && |p| > 0
    ensures Rows(p, q) == RowAdded(Rows(p[..|p| - 1], q) + [ZERO], p[|p| - 1], q)
  {
  }

  /** The inner loop of the product. */
  method AddRow(field: GF256, product: array<Elem>, i: nat, a: Elem, q: Coeffs)
    requires field.Valid()
    requires i + |q| <= product.Length && product[i + |q| - 1] == ZERO
    modifies product
    ensures product[..i + |q|] == RowAdded(old(product[..i + |q| - 1]) + [ZERO], a, q)
    ensures forall k :: i + |q| <= k < product.Length ==> product[k] == old(product[k])
  {
    hide Add, Mul;
    for j := 0 to |q|
      invariant forall k :: 0 <= k < product.Length && !(i <= k < i + j) ==> product[k] == old(product[k])
      invariant forall k :: i <= k < i + j ==> product[k] == Add(old(product[k]), Mul(a, q[k - i]))
    {
      var m := field.Multiply(a, q[j]);
      product[i + j] := Add(product[i + j], m);
    }
  }

  method MultiplyByMonomial(field: GF256, p: Coeffs, degree: nat, coefficient: Elem) returns (c: Coeffs)
    requires field.Valid()
    ensures Value(c) == Times(Monomial(coefficient, degree), Value(p))
  {
    hide Mul, Times, Trim, Scale, Shift, GF256.Valid;
    TimesMonomial(coefficient, degree, Value(p));
    if coefficient == ZERO {
      ScaleZero(ZERO, Value(p));
      ShiftEmpty(degree);
      return [ZERO];
    }
    var product := new Elem[|p| + degree](_ => ZERO);
    for i := 0 to |p|
      invariant forall k :: 0 <= k < i ==> product[k] == Mul(p[k], coefficient)
      invariant forall k :: i <= k < product.Length ==> product[k] == ZERO
    {
      product[i] := field.Multiply(p[i], coefficient);
    }
    ScaledShift(p, degree, coefficient, product[..]);
    c := Normalise(product[..]);
  }

  lemma ShiftEmpty(d: nat)
    ensures Shift([], d) == []
  {
  }

  lemma ScaledShift(p: Coeffs, d: nat, c: Elem, s: seq<Elem>)
    requires |s| == |p| + d
    requires forall k :: 0 <= k < |p| ==> s[k] == Mul(p[k], c)
    requires forall k :: |p| <= k < |s| ==> s[k] == ZERO
    ensures Trim(s) == Shift(Scale(c, Value(p)), d)
  {
    hide Add, Mul, Trim, Scale, Shift;
    forall k: nat ensures Coef(Trim(s), k) == Coef(Shift(Scale(c, Value(p)), d), k) {
      CoefTrim(s, k);
      CoefShift(Scale(c, Value(p)), d, k);
      if k >= d {
        CoefScale(c, Value(p), k - d);
        CoefValue(p, k - d);
        MulComm(Coef(p, k - d), c);
        MulZero(c);
      }
    }
    PolyEq(Trim(s), Shift(Scale(c, Value(p)), d));
  }

  /** Multiplying by a scalar, with the shortcuts of the source. */
  method MultiplyByScalar(field: GF256, p: Coeffs, scalar: Elem) returns (c: Coeffs)
    requires field.Valid()
    ensures Value(c) == Scale(scalar, Value(p))
  {
    hide Mul, Trim, Scale, Shift, GF256.Valid;
    if scalar == ZERO { ScaleZero(ZERO, Value(p)); return [ZERO]; }
    if scalar == ONE { ScaleOne(Value(p)); return p; }
    var product := new Elem[|p|];
    for i := 0 to |p|
      invariant forall k :: 0 <= k < i ==> product[k] == Mul(p[k], scalar)
    {
      product[i] := field.Multiply(p[i], scalar);
    }
    ScaledShift(p, 0, scalar, product[..]);
    ShiftStep(Scale(scalar, Value(p)), 0);
    c := Normalise(product[..]);
  }

  // ---------------------------------------------------------------------------------------
  // Division

  /** One step of long division takes the leading term of the remainder away. */
  lemma DivideStep(r: Poly, x: Poly, d: nat)
    requires x != [] && |r| == |x| + d
    ensures |Sum(r, Times(Monomial(Mul(r[0], Inv(x[0])), d), x))| < |r|
  {
    hide Add, Mul, Inv, Sum, Scale, Times, Trim, Shift;
    var c := Mul(r[0], Inv(x[0]));
    var term := Times(Monomial(c, d), x);
    TimesMonomial(c, d, x);
    var n := |r| - 1;
    forall k: nat | k >= n ensures Coef(Sum(r, term), k) == ZERO {
      CoefSum(r, term, k);
      CoefShift(Scale(c, x), d, k);
      CoefScale(c, x, k - d);
      if k == n {
        MulCancel(x[0], r[0]);
        AddLaws(r[0], r[0]);
      } else {
        MulZero(c);
        AddLaws(ZERO, ZERO);
      }
    }
    LengthAtMost(Sum(r, term), n);
  }

  lemma DivideKeeps(p: Poly, x: Poly, q: Poly, r: Poly, m: Poly)
    requires p == Sum(Times(q, x), r)
    ensures p == Sum(Times(Sum(q, m), x), Sum(r, Times(m, x)))
  {
    hide *;
    var t := Times(m, x);
    TimesSumLeft(q, m, x);
    SumSwap(Times(q, x), t, r, t);
    SumSelf(t);
    SumZero(Sum(Times(q, x), r));
  }

  /**
   Long division, the inner loop of the decoder's Euclidean algorithm and the encoder's
   `Divide`; both sources refuse the zero divisor.
   */
  method Divide(field: GF256, p: Coeffs, x: Coeffs) returns (quotient: Coeffs, remainder: Coeffs)
    requires field.Valid() && x[0] != ZERO
    ensures Value(p) == Sum(Times(Value(quotient), Value(x)), Value(remainder))
    ensures |Value(remainder)| < |Value(x)|
  {
    hide Mul, Inv, Sum, Times, Trim, Monomial, GF256.Valid;
    quotient, remainder := [ZERO], p;
    TimesUnfold([], Value(x));
    SumZero(Value(p));
    var inverse := field.Inverse(x[0]);
    while Degree(remainder) >= Degree(x) && remainder[0] != ZERO
      invariant Value(p) == Sum(Times(Value(quotient), Value(x)), Value(remainder))
      decreases |Value(remainder)|
    {
      var degreeDifference := Degree(remainder) - Degree(x);
      var scale := field.Multiply(remainder[0], inverse);
      DivideStep(Value(remainder), Value(x), degreeDifference);
      DivideKeeps(Value(p), Value(x), Value(quotient), Value(remainder), Monomial(scale, degreeDifference));
      var term := MultiplyByMonomial(field, x, degreeDifference, scale);
      var iterationQuotient := BuildMonomial(degreeDifference, scale);
      quotient := AddSub(quotient, iterationQuotient);
      remainder := AddSub(remainder, term);
    }
  }

  // ---------------------------------------------------------------------------------------
  // Values

  /** Horner's rule, with the shortcuts of the source at 0 and 1. */
  method EvaluateAt(field: GF256, p: Coeffs, a: Elem) returns (r: Elem)
    requires field.Valid()
    ensures r == Eval(p, a)
  {
    hide Add, Mul, Eval, GF256.Valid;
    if a == ZERO {
      EvalAtZero(p);
      return p[|p| - 1];
    }
    if a == ONE {
      r := ZERO;
      EvalStart(ONE);
      assert p[..0] == [];
      for i := 0 to |p|
        invariant r == Eval(p[..i], ONE)
      {
        EvalStep(p[..i + 1], ONE);
        assert p[..i + 1][..i] == p[..i];
        MulOne(r);
        AddLaws(r, p[i]);
        r := Add(r, p[i]);
      }
      assert p[..|p|] == p;
      return;
    }
    r := p[0];
    EvalStart(a);
    EvalStep(p[..1], a);
    assert p[..1][..0] == [];
    MulZero(a);
    AddLaws(p[0], ZERO);
    for i := 1 to |p|
      invariant r == Eval(p[..i], a)
    {
      EvalStep(p[..i + 1], a);
      assert p[..i + 1][..i] == p[..i];
      AddLaws(Mul(a, r), p[i]);
      var m := field.Multiply(a, r);
      r := Add(m, p[i]);
    }
    assert p[..|p|] == p;
  }

  lemma EvalStart(a: Elem)
    ensures Eval([], a) == ZERO
  {
  }

  lemma EvalStep(s: seq<Elem>, a: Elem)
    requires |s| > 0
    ensures Eval(s, a) == Add(s[|s| - 1], Mul(a, Eval(s[..|s| - 1], a)))
  {
  }

  lemma EvalAtZero(s: seq<Elem>)
    requires |s| > 0
    ensures Eval(s, ZERO) == s[|s| - 1]
  {
    hide Add, Mul, Eval;
    EvalStep(s, ZERO);
    MulZero(Eval(s[..|s| - 1], ZERO));
    AddLaws(s[|s| - 1], ZERO);
  }
}
