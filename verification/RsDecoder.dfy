/**
 The Reed-Solomon decoder: syndromes, extended Euclidean algorithm, Chien search and Forney's
 formula, with the proof that it restores every word received with at most half as many errors
 as there are check bytes.
 */
module RsDecoder {
  import opened GaloisField
  import opened GaloisTables
  import opened Polynomials
  import opened PolynomialOps
  import opened ErrorPolynomials
  import opened EuclidRows
  import opened Codewords
  import opened RsSolutions
  import opened RsRepair
  import ElemBytes

  /** How decoding ends; all but the first are exceptions in the source. */
  datatype Outcome = Done | ZeroRemainder | ZeroConstantTerm | TooFewRoots | BadLocation

  // ---------------------------------------------------------------------------------------
  // Syndromes

  method Syndromes(field: GF256, poly: Coeffs, twoS: nat)
    returns (coefficients: seq<Elem>, noError: bool)
    requires field.Valid() && twoS <= 256
    ensures |coefficients| == twoS
    ensures forall i: nat :: i < twoS ==> Coef(coefficients, i) == Eval(poly, Exp(i))
    ensures noError <==> IsCodeword(poly, twoS)
  {
    hide Eval, Exp, IsCodeword;
    CodewordStep(poly, 0);
    var s := new Elem[twoS](_ => ZERO);
    noError := true;
    for i := 0 to twoS
      invariant forall k: nat {:trigger Exp(k)} :: k < i ==> s[twoS - 1 - k] == Eval(poly, Exp(k))
      invariant noError <==> IsCodeword(poly, i)
    {
      CodewordStep(poly, i);
      var eval := EvaluateAt(field, poly, field.expTable[i]);
      s[twoS - 1 - i] := eval;
      if eval != ZERO { noError := false; }
    }
    coefficients := s[..];
  }

  lemma CodewordStep(w: seq<Elem>, n: nat)
    ensures IsCodeword(w, 0)
    ensures IsCodeword(w, n + 1) <==> IsCodeword(w, n) && Eval(w, Exp(n)) == ZERO
  {
    hide Eval, Exp;
  }

  // ---------------------------------------------------------------------------------------
  // The extended Euclidean algorithm

  function Larger(a: Coeffs, b: Coeffs): Coeffs { if Degree(a) < Degree(b) then b else a }

  function Smaller(a: Coeffs, b: Coeffs): Coeffs { if Degree(a) < Degree(b) then a else b }

  lemma ValueLength(c: Coeffs)
    ensures c[0] != ZERO ==> |Value(c)| == Degree(c) + 1
    ensures c[0] == ZERO ==> Value(c) == [] && Degree(c) == 0
    ensures Value([ZERO]) == [] && Value([ONE]) == Single(ONE)
  {
  }

  /**
   On a normal end the row reached is a row of the algorithm, of degree below R / 2 for the
   first time, or the first row if both polynomials are; the results are its multiplier and
   remainder divided by the multiplier's constant coefficient. Dividing by zero happens exactly
   when R is less than 2.
   */
  method RunEuclideanAlgorithm(field: GF256, a0: Coeffs, b0: Coeffs, R: nat)
    returns (outcome: Outcome, sigma: Coeffs, omega: Coeffs, ghost w: Rows)
    requires field.Valid()
    ensures outcome in {Done, ZeroRemainder, ZeroConstantTerm}
    ensures outcome == ZeroRemainder <==> R < 2
    ensures R >= 2 && Degree(Larger(a0, b0)) >= R / 2 ==>
      RowsOf(w, Value(Larger(a0, b0)), Value(Smaller(a0, b0))) && |w.r| <= R / 2 < |w.rLast|
    ensures R >= 2 && Degree(Larger(a0, b0)) < R / 2 ==> w == FirstRows(Value(Larger(a0, b0)), Value(Smaller(a0, b0)))
    ensures R >= 2 ==> (outcome == ZeroConstantTerm <==> Coef(w.t, 0) == ZERO)
    ensures outcome == Done ==> Value(sigma) == Scale(Inv(Coef(w.t, 0)), w.t)
    ensures outcome == Done ==> Value(omega) == Scale(Inv(Coef(w.t, 0)), w.r)
  {
    hide Sum, Times, Scale, Inv, Coef, RowsOf, GF256.Valid;
    var a, b := a0, b0;
    if Degree(a) < Degree(b) { a, b := b, a; }
    var rLast, r := a, b;
    var sLast: Coeffs, s: Coeffs := [ONE], [ZERO];
    var tLast: Coeffs, t: Coeffs := [ZERO], [ONE];
    sigma, omega := [ZERO], [ZERO];
    ValueLength(a);
    ValueLength(b);
    ghost var x, y := Value(a), Value(b);
    w := FirstRows(x, y);
    if x != [] { FirstRowsOk(x, y); }
    while Degree(r) >= R / 2
      invariant w == Rows(Value(r), Value(rLast), Value(s), Value(sLast), Value(t), Value(tLast))
      invariant x != [] ==> RowsOf(w, x, y)
      invariant Degree(a) >= R / 2 ==> Degree(rLast) >= R / 2
      invariant Degree(a) < R / 2 ==> r == b && w == FirstRows(x, y)
      decreases |Value(r)|
    {
      var rLastLast, sLastLast, tLastLast := rLast, sLast, tLast;
      rLast, sLast, tLast := r, s, t;
      ValueLength(rLast);
      if rLast[0] == ZERO { return ZeroRemainder, sigma, omega, w; }
      var q;
      q, r := Divide(field, rLastLast, rLast);
      if x != [] { NextRowsOk(w, x, y, Value(q), Value(r)); }
      w := NextRows(w, Value(q), Value(r));
      var qs := Multiply(field, q, sLast);
      s := AddSub(qs, sLastLast);
      var qt := Multiply(field, q, tLast);
      t := AddSub(qt, tLastLast);
    }
    ValueLength(r);
    ValueLength(rLast);
    var sigmaTildeAtZero := t[|t| - 1];
    ConstantTerm(t);
    if sigmaTildeAtZero == ZERO { return ZeroConstantTerm, sigma, omega, w; }
    var inverse := field.Inverse(sigmaTildeAtZero);
    sigma := MultiplyByScalar(field, t, inverse);
    omega := MultiplyByScalar(field, r, inverse);
    outcome := Done;
  }

  lemma ConstantTerm(t: Coeffs)
    ensures Coef(Value(t), 0) == t[|t| - 1]
  {
  }

  /**
   What the results mean: sigma is 1 at zero, omega has degree below R / 2, and sigma times the
   syndrome polynomial is omega modulo x^R.
   */
  lemma EuclidMeaning(w: Rows, b: Poly, R: nat, sigma: Poly, omega: Poly)
    requires RowsOf(w, Monomial(ONE, R), b) && |w.r| <= R / 2
    requires Coef(w.t, 0) != ZERO
    requires sigma == Scale(Inv(Coef(w.t, 0)), w.t) && omega == Scale(Inv(Coef(w.t, 0)), w.r)
    ensures Coef(sigma, 0) == ONE && |omega| <= R / 2
    ensures forall k: nat :: k < R ==> Coef(Times(sigma, b), k) == Coef(omega, k)
  {
    hide Sum, Times, Scale, Inv, Coef, Monomial, Add, Mul;
    var c, x := Inv(Coef(w.t, 0)), Monomial(ONE, R);
    CoefScale(c, w.t, 0);
    InvIsInverse(Coef(w.t, 0));
    TimesScale(c, w.t, b);
    TimesComm(w.s, x);
    TimesPower(R, w.s);
    forall k: nat | k < R ensures Coef(Times(sigma, b), k) == Coef(omega, k) {
      CoefScale(c, Times(w.t, b), k);
      CoefScale(c, w.r, k);
      CoefSum(Times(w.s, x), Times(w.t, b), k);
      CoefShift(w.s, R, k);
      AddLaws(Coef(Times(w.t, b), k), ZERO);
    }
  }

  // ---------------------------------------------------------------------------------------
  // Chien search

  /** Every non-zero root of the locator is the inverse of a member of `xs`. */
  ghost predicate AllRoots(locator: seq<Elem>, xs: seq<Elem>, bound: nat) {
    forall x: Elem {:trigger Inv(x)} :: x != ZERO && x.bits as int < bound && Eval(locator, x) == ZERO ==> Inv(x) in xs
  }

  /**
   The search succeeds exactly when it finds as many distinct roots as the degree of the
   locator; when it fails it has found every root there is.
   */
  method FindErrorLocations(field: GF256, locator: Coeffs) returns (ok: bool, result: seq<Elem>)
    requires field.Valid()
    ensures Degree(locator) == 1 ==> ok && result == [locator[0]]
    ensures Degree(locator) != 1 ==> DistinctRoots(locator, result)
    ensures ok <==> |result| == Degree(locator)
    ensures !ok ==> |result| < Degree(locator) && AllRoots(locator, result, 256)
  {
    hide Eval, Inv, GF256.Valid;
    var numErrors := Degree(locator);
    if numErrors == 1 { return true, [locator[0]]; }
    result := [];
    var i := 1;
    while i < 256 && |result| < numErrors
      invariant 1 <= i <= 256 && |result| <= numErrors
      invariant DistinctRoots(locator, result)
      invariant forall k :: 0 <= k < |result| ==> Inv(result[k]).bits as int < i
      invariant AllRoots(locator, result, i)
    {
      var x := Elem(i as bv8);
      ByteOf(i);
      var value := EvaluateAt(field, locator, x);
      if value == ZERO {
        var inverse := field.Inverse(x);
        InvInv(x);
        NewRoot(locator, result, x);
        result := result + [inverse];
      }
      RootsBelow(locator, result, x, i);
      i := i + 1;
    }
    ok := |result| == numErrors;
  }

  lemma ByteOf(i: nat)
    requires 0 < i < 256
    ensures Elem(i as bv8) != ZERO && Elem(i as bv8).bits as int == i
  {
    var b := i as bv8;
    ElemBytes.Narrow(i);
    NarrowZero(b);
  }

  lemma NarrowZero(b: bv8)
    requires b as int > 0
    ensures b != 0
  {
  }

  lemma NewRoot(locator: seq<Elem>, xs: seq<Elem>, x: Elem)
    requires DistinctRoots(locator, xs) && x != ZERO && Eval(locator, x) == ZERO
    requires forall k :: 0 <= k < |xs| ==> Inv(xs[k]).bits as int < x.bits as int
    ensures DistinctRoots(locator, xs + [Inv(x)])
  {
    hide Eval, Inv;
    InvInv(x);
  }

  lemma RootsBelow(locator: seq<Elem>, xs: seq<Elem>, x: Elem, i: nat)
    requires x.bits as int == i
    requires forall y: Elem {:trigger Inv(y)} :: y != ZERO && y.bits as int < i && Eval(locator, y) == ZERO ==>
      Inv(y) in xs
    requires Eval(locator, x) == ZERO ==> Inv(x) in xs
    ensures AllRoots(locator, xs, i + 1)
  {
    hide Eval, Inv;
    forall y: Elem | y != ZERO && y.bits as int < i + 1 && Eval(locator, y) == ZERO ensures Inv(y) in xs {
      SameByte(x, y);
    }
  }

  // ---------------------------------------------------------------------------------------
  // Forney's formula

  lemma {:induction false} OthersSnoc(xs: seq<Elem>, y: Elem, x: Elem)
    ensures Others(xs + [y], x) ==
            if y == x then Others(xs, x) else Mul(Others(xs, x), Add(ONE, Mul(Inv(x), y)))
  {
    hide Others, Mul, Add, Inv;
    OthersUnfold(xs + [y], x);
    OthersUnfold(xs, x);
    if xs == [] {
      assert (xs + [y])[1..] == [];
      var f := Add(ONE, Mul(Inv(x), y));
      MulOne(f);
    } else {
      assert (xs + [y])[1..] == xs[1..] + [y];
      OthersSnoc(xs[1..], y, x);
      MulAssoc(Add(ONE, Mul(Inv(x), xs[0])), Others(xs[1..], x), Add(ONE, Mul(Inv(x), y)));
    }
  }

  /** The inner loop: the product over the other locations. */
  method Denominator(field: GF256, locations: seq<Elem>, i: nat, xiInverse: Elem) returns (d: Elem)
    requires field.Valid() && i < |locations| && DistinctNonZero(locations)
    requires xiInverse == Inv(locations[i])
    ensures d == Others(locations, locations[i])
  {
    hide Others, Mul, Add, Inv, GF256.Valid;
    ghost var x := locations[i];
    d := ONE;
    OthersUnfold([], x);
    for j := 0 to |locations|
      invariant d == Others(locations[..j], x)
    {
      OthersSnoc(locations[..j], locations[j], x);
      assert locations[..j] + [locations[j]] == locations[..j + 1];
      if i != j {
        MulComm(locations[j], xiInverse);
        var m := field.Multiply(locations[j], xiInverse);
        d := field.Multiply(d, Add(ONE, m));
      }
    }
    assert locations[..|locations|] == locations;
  }

  method FindErrorMagnitudes(field: GF256, omega: Coeffs, locations: seq<Elem>) returns (result: seq<Elem>)
    requires field.Valid() && DistinctNonZero(locations)
    ensures |result| == |locations|
    ensures forall i :: 0 <= i < |result| ==>
      result[i] == Mul(Eval(omega, Inv(locations[i])), Inv(Others(locations, locations[i])))
  {
    hide Others, Mul, Inv, Eval, GF256.Valid;
    var magnitudes := new Elem[|locations|];
    for i := 0 to |locations|
      invariant forall k :: 0 <= k < i ==>
        magnitudes[k] == Mul(Eval(omega, Inv(locations[k])), Inv(Others(locations, locations[k])))
    {
      var xiInverse := field.Inverse(locations[i]);
      var denominator := Denominator(field, locations, i, xiInverse);
      OthersNonZero(locations, locations[i]);
      var value := EvaluateAt(field, omega, xiInverse);
      var inverse := field.Inverse(denominator);
      magnitudes[i] := field.Multiply(value, inverse);
    }
    result := magnitudes[..];
  }

  // ---------------------------------------------------------------------------------------
  // Decoding

  /** Adds each magnitude to the byte its location names. */
  method Correct(field: GF256, received: array<Elem>, locations: seq<Elem>, magnitudes: seq<Elem>)
    returns (ok: bool)
    requires field.Valid() && DistinctNonZero(locations) && |magnitudes| == |locations|
    modifies received
    ensures ok <==> forall i :: 0 <= i < |locations| ==> Log(locations[i]) < received.Length
    ensures ok ==> Corrected(old(received[..]), received[..], locations, magnitudes)
    ensures ok ==>
      && WithinWord(Claimed(locations, magnitudes), received.Length)
      && received[..] == Patch(old(received[..]), Claimed(locations, magnitudes))
  {
    hide Add, Log, Exp, MagnitudeAt, Patch, AddAt;
    ghost var es := Claimed(locations, magnitudes);
    ghost var all := forall i :: 0 <= i < |locations| ==> Log(locations[i]) < received.Length;
    assert es[0..] == es;
    NothingCorrected(received[..]);
    assert locations[..0] == [] && magnitudes[..0] == [];
    for i := 0 to |locations|
      invariant forall k :: 0 <= k < i ==> Log(locations[k]) < received.Length
      invariant Corrected(old(received[..]), received[..], locations[..i], magnitudes[..i])
      invariant all ==> WithinWord(es, received.Length) && WithinWord(es[i..], received.Length)
      invariant all ==> Patch(received[..], es[i..]) == Patch(old(received[..]), es)
    {
      ghost var before := received[..];
      assert locations[..i + 1][i] == locations[i];
      var position := received.Length - 1 - field.logTable[locations[i].bits as int];
      if position < 0 { return false; }
      received[position] := Add(received[position], magnitudes[i]);
      CorrectedStep(old(received[..]), before, received[..], locations, magnitudes, i);
      if all { PatchStep(before, received[..], es, i); }
    }
    if all { PatchUnfold(received[..], es[|es|..]); }
    assert locations[..|locations|] == locations && magnitudes[..|locations|] == magnitudes;
    ok := true;
  }

  ghost predicate Corrected(v: seq<Elem>, w: seq<Elem>, locations: seq<Elem>, magnitudes: seq<Elem>) {
    && |v| == |w| && |locations| == |magnitudes|
    && (forall i :: 0 <= i < |locations| ==> Log(locations[i]) < |v|)
    && (forall k: nat :: k < |v| ==>
        Coef(w, k) == Add(Coef(v, k), MagnitudeAt(locations, magnitudes, k)))
  }

  /** The magnitude given for power k, or zero. */
  ghost function MagnitudeAt(locations: seq<Elem>, magnitudes: seq<Elem>, k: nat): Elem
    requires |locations| == |magnitudes|
  {
    if locations == [] then ZERO
    else if Log(locations[|locations| - 1]) == k then magnitudes[|locations| - 1]
    else MagnitudeAt(locations[..|locations| - 1], magnitudes[..|locations| - 1], k)
  }

  lemma MagnitudeUnfold(xs: seq<Elem>, ys: seq<Elem>, k: nat)
    requires |xs| == |ys|
    ensures MagnitudeAt([], [], k) == ZERO
    ensures xs != [] ==>
      MagnitudeAt(xs, ys, k) ==
        if Log(xs[|xs| - 1]) == k then ys[|xs| - 1] else MagnitudeAt(xs[..|xs| - 1], ys[..|xs| - 1], k)
  {
    hide Log;
  }

  lemma {:induction false} MagnitudeAbsent(xs: seq<Elem>, ys: seq<Elem>, k: nat)
    requires |xs| == |ys| && forall i :: 0 <= i < |xs| ==> Log(xs[i]) != k
    ensures MagnitudeAt(xs, ys, k) == ZERO
  {
    hide Log, MagnitudeAt;
    MagnitudeUnfold(xs, ys, k);
    if xs != [] { MagnitudeAbsent(xs[..|xs| - 1], ys[..|xs| - 1], k); }
  }

  lemma NothingCorrected(v: seq<Elem>)
    ensures Corrected(v, v, [], [])
  {
    hide Add, MagnitudeAt, Coef;
    forall k: nat | k < |v| ensures Coef(v, k) == Add(Coef(v, k), MagnitudeAt([], [], k)) {
      MagnitudeUnfold([], [], k);
      AddLaws(Coef(v, k), ZERO);
    }
  }

  lemma CoefUpdate(v: seq<Elem>, p: nat, y: Elem, k: nat)
    requires p < |v| && k < |v|
    ensures Coef(v[p := y], k) == if k == |v| - 1 - p then y else Coef(v, k)
  {
  }

  lemma CorrectedStep(v: seq<Elem>, before: seq<Elem>, after: seq<Elem>, xs: seq<Elem>, ys: seq<Elem>, i: nat)
    requires |xs| == |ys| && i < |xs| && DistinctNonZero(xs)
    requires Corrected(v, before, xs[..i], ys[..i])
    requires Log(xs[i]) < |v|
    requires after == before[|v| - 1 - Log(xs[i]) := Add(before[|v| - 1 - Log(xs[i])], ys[i])]
    ensures Corrected(v, after, xs[..i + 1], ys[..i + 1])
  {
    hide Log, MagnitudeAt, Add, Coef;
    var l := Log(xs[i]);
    var p := |v| - 1 - l;
    var xs', ys' := xs[..i + 1], ys[..i + 1];
    assert xs'[..i] == xs[..i] && ys'[..i] == ys[..i];
    forall k: nat | k < |v|
      ensures Coef(after, k) == Add(Coef(v, k), MagnitudeAt(xs', ys', k))
    {
      CoefUpdate(before, p, Add(before[p], ys[i]), k);
      MagnitudeUnfold(xs', ys', k);
      if k == l {
        forall j | 0 <= j < i ensures Log(xs[..i][j]) != l {
          if Log(xs[j]) == l { SameLog(xs[j], xs[i]); }
        }
        MagnitudeAbsent(xs[..i], ys[..i], l);
        CoefAt(before, p);
        AddLaws(Coef(v, k), ZERO);
      }
    }
  }

  // ---------------------------------------------------------------------------------------
  // From found locations to the word sent

  ghost predicate SameMembers(xs: seq<Elem>, ys: seq<Elem>) {
    forall x :: x in xs <==> x in ys
  }

  ghost function Members(xs: seq<Elem>): set<Elem> { set x | x in xs }

  lemma {:induction false} MembersCount(xs: seq<Elem>)
    requires DistinctNonZero(xs)
    ensures |Members(xs)| == |xs|
  {
    if xs != [] {
      MembersCount(xs[1..]);
      assert Members(xs) == Members(xs[1..]) + {xs[0]};
      assert xs[0] !in xs[1..];
    }
  }

  lemma {:induction false} SubsetCount(s: set<Elem>, t: set<Elem>)
    requires s <= t
    ensures |s| <= |t| && (|s| == |t| ==> s == t)
  {
    assert t == s + (t - s);
    assert |t| == |s| + |t - s|;
  }

  lemma Pigeonhole(xs: seq<Elem>, ys: seq<Elem>)
    requires DistinctNonZero(xs) && DistinctNonZero(ys)
    requires forall x :: x in xs ==> x in ys
    ensures |xs| <= |ys|
    ensures |xs| == |ys| ==> SameMembers(xs, ys)
  {
    MembersCount(xs);
    MembersCount(ys);
    SubsetCount(Members(xs), Members(ys));
    if |xs| == |ys| {
      forall x ensures x in xs <==> x in ys {
        assert x in Members(xs) <==> x in Members(ys);
      }
    }
  }

  /** Removing a location takes its factor out of the product. */
  lemma {:induction false} OthersRemove(ys: seq<Elem>, i: nat, x: Elem)
    requires i < |ys|
    ensures Others(ys, x) ==
            if ys[i] == x then Others(ys[..i] + ys[i + 1..], x)
            else Mul(Add(ONE, Mul(Inv(x), ys[i])), Others(ys[..i] + ys[i + 1..], x))
  {
    hide Others, Mul, Add, Inv;
    var rest := ys[..i] + ys[i + 1..];
    OthersUnfold(ys, x);
    if i == 0 {
      assert rest == ys[1..];
    } else {
      OthersRemove(ys[1..], i - 1, x);
      OthersUnfold(rest, x);
      assert rest[1..] == ys[1..][..i - 1] + ys[1..][i..];
      var f, g, o := Add(ONE, Mul(Inv(x), ys[0])), Add(ONE, Mul(Inv(x), ys[i])), Others(rest[1..], x);
      MulAssoc(f, g, o);
      MulComm(f, g);
      MulAssoc(g, f, o);
    }
  }

  lemma {:induction false} OthersPermuted(xs: seq<Elem>, ys: seq<Elem>, x: Elem)
    requires DistinctNonZero(xs) && DistinctNonZero(ys) && SameMembers(xs, ys)
    ensures Others(xs, x) == Others(ys, x)
  {
    hide Others, Mul, Add, Inv;
    OthersUnfold(xs, x);
    OthersUnfold(ys, x);
    if xs == [] {
      Pigeonhole(ys, xs);
    } else {
      assert xs[0] in ys;
      var i :| 0 <= i < |ys| && ys[i] == xs[0];
      OthersRemove(ys, i, x);
      var rest := ys[..i] + ys[i + 1..];
      RemoveMember(xs, ys, i);
      OthersPermuted(xs[1..], rest, x);
    }
  }

  lemma RemoveMember(xs: seq<Elem>, ys: seq<Elem>, i: nat)
    requires DistinctNonZero(xs) && DistinctNonZero(ys) && SameMembers(xs, ys)
    requires xs != [] && i < |ys| && ys[i] == xs[0]
    ensures DistinctNonZero(xs[1..]) && DistinctNonZero(ys[..i] + ys[i + 1..])
    ensures SameMembers(xs[1..], ys[..i] + ys[i + 1..])
  {
    var rest := ys[..i] + ys[i + 1..];
    assert ys == ys[..i] + [ys[i]] + ys[i + 1..];
    assert xs == [xs[0]] + xs[1..];
    forall x ensures x in xs[1..] <==> x in rest {
      assert x in xs <==> x in ys;
    }
  }

  lemma ProperLocations(es: seq<ErrorAt>)
    requires Proper(es)
    ensures DistinctNonZero(Locations(es))
  {
    hide Locations;
  }

  /** The search on a true locator finds exactly the true locations. */
  lemma {:induction false} LocationsFound(es: seq<ErrorAt>, ok: bool, xs: seq<Elem>)
    requires Proper(es) && es != []
    requires |es| == 1 ==> ok && |Locator(es)| > 0 && xs == [Locator(es)[0]]
    requires |es| != 1 ==> DistinctRoots(Locator(es), xs)
    requires ok <==> |xs| == |es|
    requires !ok ==> |xs| < |es| && AllRoots(Locator(es), xs, 256)
    ensures ok && DistinctNonZero(xs) && SameMembers(xs, Locations(es))
  {
    hide Locator, Eval, Inv, Locations, Factor;
    ProperLocations(es);
    if |es| == 1 {
      SingleLocator(es);
      assert Locations(es) == [es[0].location];
    } else {
      forall x | x in xs ensures x in Locations(es) {
        var k :| 0 <= k < |xs| && xs[k] == x;
        InvInv(x);
        LocatorRoots(es, Inv(x));
        var i :| 0 <= i < |es| && es[i].location == x;
        assert Locations(es)[i] == x;
      }
      Pigeonhole(xs, Locations(es));
      if !ok {
        forall x | x in Locations(es) ensures x in xs {
          var k :| 0 <= k < |es| && Locations(es)[k] == x;
          InvInv(x);
          LocatorRoot(es, k);
          assert Inv(x).bits as int < 256;
          assert Inv(Inv(x)) in xs;
        }
        Pigeonhole(Locations(es), xs);
        assert false;
      }
    }
  }

  lemma {:induction false} SingleLocator(es: seq<ErrorAt>)
    requires Proper(es) && |es| == 1
    ensures Locator(es) == [es[0].location, ONE]
  {
    hide Locator, Times;
    LocatorUnfold(es);
    assert es[1..] == [];
    TimesComm(Factor(es[0].location), Single(ONE));
    TimesSingle(ONE, Factor(es[0].location));
    ScaleOne(Factor(es[0].location));
  }

  /** Forney's formula gives each found location its true magnitude. */
  lemma MagnitudeFound(es: seq<ErrorAt>, xs: seq<Elem>, i: nat)
    requires Proper(es) && i < |es| && DistinctNonZero(xs) && SameMembers(xs, Locations(es))
    ensures Mul(Eval(Evaluator(es), Inv(es[i].location)), Inv(Others(xs, es[i].location))) == es[i].magnitude
  {
    hide Locator, Evaluator, Eval, Inv, Locations, Factor, Mul, Others, SameMembers, DistinctNonZero;
    var x := es[i].location;
    ProperLocations(es);
    OthersPermuted(xs, Locations(es), x);
    EvaluatorAtRoot(es, i);
    OthersNonZero(xs, x);
    MulCancel(Others(xs, x), es[i].magnitude);
  }

  lemma {:induction false} MagnitudeIs(e: seq<Elem>, xs: seq<Elem>, ys: seq<Elem>, k: nat)
    requires |xs| == |ys| && forall i :: 0 <= i < |xs| ==> ys[i] == Coef(e, Log(xs[i]))
    requires (exists i :: 0 <= i < |xs| && Log(xs[i]) == k) || Coef(e, k) == ZERO
    ensures MagnitudeAt(xs, ys, k) == Coef(e, k)
  {
    hide Log, MagnitudeAt, Coef;
    MagnitudeUnfold(xs, ys, k);
    if xs != [] && Log(xs[|xs| - 1]) != k {
      var xs', ys' := xs[..|xs| - 1], ys[..|xs| - 1];
      if i :| 0 <= i < |xs| && Log(xs[i]) == k { assert Log(xs'[i]) == k; }
      MagnitudeIs(e, xs', ys', k);
    }
  }

  /** Correcting the true locations by the true magnitudes restores the word sent. */
  lemma Restored(v: seq<Elem>, c: seq<Elem>, w: seq<Elem>, xs: seq<Elem>, ys: seq<Elem>)
    requires |v| == |c| <= 255 && Corrected(v, w, xs, ys)
    requires SameMembers(xs, Locations(Errors(Difference(v, c))))
    requires forall i :: 0 <= i < |xs| ==> ys[i] == Coef(Difference(v, c), Log(xs[i]))
    ensures w == c
  {
    hide Log, MagnitudeAt, Coef, Exp, Errors, Locations, Add;
    var e := Difference(v, c);
    forall p | 0 <= p < |v| ensures w[p] == c[p] {
      var k := |v| - 1 - p;
      CoefAt(w, p);
      CoefAt(v, p);
      CoefAt(e, p);
      if Coef(e, k) != ZERO {
        ErrorsComplete(e, k);
        var j :| 0 <= j < |Errors(e)| && Errors(e)[j] == ErrorAt(Exp(k), Coef(e, k));
        assert Locations(Errors(e))[j] in xs;
        var i :| 0 <= i < |xs| && xs[i] == Exp(k);
        LogUnique(k);
      }
      MagnitudeIs(e, xs, ys, k);
      AddCancel(c[p], v[p]);
    }
  }

  // ---------------------------------------------------------------------------------------
  // The whole decoder

  /** `v` is a word received after sending `c` with no more errors than the code corrects. */
  ghost predicate Near(v: seq<Elem>, c: seq<Elem>, twoS: nat): (near: bool)
    ensures near ==> |v| == |c| <= 255
  {
    |v| == |c| && |v| <= 255 && IsCodeword(c, twoS) && Distance(v, c) <= twoS / 2
  }

  ghost function ErrorsOf(v: seq<Elem>, c: seq<Elem>): seq<ErrorAt>
    requires |v| == |c|
  {
    Errors(Difference(v, c))
  }

  lemma WithinErrors(v: seq<Elem>, c: seq<Elem>, twoS: nat)
    requires Within(v, c, twoS)
    ensures Proper(ErrorsOf(v, c)) && |ErrorsOf(v, c)| <= twoS - twoS / 2 && |Evaluator(ErrorsOf(v, c))| <= twoS / 2
  {
    hide Errors, Difference, Proper, IsCodeword, Evaluator;
    ErrorsProper(Difference(v, c));
    ErrorsCount(v, c);
  }

  /** With zero syndromes nothing needs correcting. */
  lemma NoErrorMeansEqual(v: seq<Elem>, c: seq<Elem>, twoS: nat)
    requires Within(v, c, twoS) && IsCodeword(v, twoS)
    ensures v == c
  {
    hide IsCodeword, Distance;
    if v != c { MinimumDistance(v, c, twoS); }
  }

  /** The decoder's syndrome polynomial is that of the errors. */
  lemma SyndromeIsTrue(v: seq<Elem>, c: seq<Elem>, twoS: nat, s: seq<Elem>)
    requires Within(v, c, twoS) && |s| == twoS
    requires forall i: nat :: i < twoS ==> Coef(s, i) == Eval(v, Exp(i))
    ensures Trim(s) == SyndromePoly(ErrorsOf(v, c), twoS)
  {
    hide Errors, Difference, Proper, IsCodeword, Eval, Exp, Coef, SyndromePoly, SyndromeAt, Trim, Distance, ErrorsOf;
    var es := ErrorsOf(v, c);
    forall k: nat ensures Coef(Trim(s), k) == Coef(SyndromePoly(es, twoS), k) {
      CoefTrim(s, k);
      CoefSyndromePoly(es, twoS, k);
      if k < twoS { TrueSyndrome(v, c, twoS, k); } else { CoefPast(s, k); }
    }
    PolyEq(Trim(s), SyndromePoly(es, twoS));
  }

  lemma TrueSyndrome(v: seq<Elem>, c: seq<Elem>, twoS: nat, k: nat)
    requires Within(v, c, twoS) && k < twoS
    ensures Eval(v, Exp(k)) == SyndromeAt(ErrorsOf(v, c), k)
  {
    hide Eval, Exp, SyndromeAt, IsCodeword, Difference, Errors, Distance;
    ReceivedSyndrome(v, c, twoS, k);
  }

  lemma CoefPast(s: seq<Elem>, k: nat)
    requires k >= |s|
    ensures Coef(s, k) == ZERO
  {
  }

  /** Dividing by the constant term recovers the locator and evaluator themselves. */
  lemma Unscaled(es: seq<ErrorAt>, twoS: nat, w: Rows)
    requires Proper(es) && |es| <= twoS - twoS / 2 && |Evaluator(es)| <= twoS / 2
    requires RowsOf(w, Monomial(ONE, twoS), SyndromePoly(es, twoS))
    requires |w.r| <= twoS / 2 < |w.rLast|
    ensures Coef(w.t, 0) != ZERO
    ensures Scale(Inv(Coef(w.t, 0)), w.t) == Locator(es)
    ensures Scale(Inv(Coef(w.t, 0)), w.r) == Evaluator(es)
  {
    hide Locator, Evaluator, Scale, Coef, Inv, Mul, RowsOf, Proper, SyndromePoly, Monomial;
    var c := StopIsSolution(es, twoS, w);
    LocatorShape(es);
    CoefScale(c, Locator(es), 0);
    MulOne(c);
    ScaleScale(Inv(c), c, Locator(es));
    ScaleScale(Inv(c), c, Evaluator(es));
    InvIsInverse(c);
    ScaleOne(Locator(es));
    ScaleOne(Evaluator(es));
  }

  /** Corrected magnitudes are the bytes of the difference. */
  lemma {:induction false} TrueMagnitudes(v: seq<Elem>, c: seq<Elem>, xs: seq<Elem>, ys: seq<Elem>, omega: seq<Elem>)
    requires |v| == |c| <= 255 && Proper(ErrorsOf(v, c)) && |xs| == |ys|
    requires DistinctNonZero(xs) && SameMembers(xs, Locations(ErrorsOf(v, c)))
    requires forall x :: Eval(omega, x) == Eval(Evaluator(ErrorsOf(v, c)), x)
    requires forall i :: 0 <= i < |ys| ==> ys[i] == Mul(Eval(omega, Inv(xs[i])), Inv(Others(xs, xs[i])))
    ensures forall i :: 0 <= i < |xs| ==> Log(xs[i]) < |v| && ys[i] == Coef(Difference(v, c), Log(xs[i]))
  {
    hide Eval, Mul, Inv, Others, Locations, Errors, Difference, Evaluator, Log, Coef, Proper, DistinctNonZero;
    var es := ErrorsOf(v, c);
    forall i | 0 <= i < |xs|
      ensures Log(xs[i]) < |v| && ys[i] == Coef(Difference(v, c), Log(xs[i]))
    {
      assert xs[i] in xs;
      var j :| 0 <= j < |es| && Locations(es)[j] == xs[i];
      MagnitudeFound(es, xs, j);
      ErrorsLocate(Difference(v, c), j);
    }
  }

  lemma WordRestored(v: seq<Elem>, c: seq<Elem>, w: seq<Elem>, xs: seq<Elem>, ys: seq<Elem>)
    requires |v| == |c| <= 255 && Corrected(v, w, xs, ys)
    requires SameMembers(xs, Locations(ErrorsOf(v, c)))
    requires forall i :: 0 <= i < |xs| ==> ys[i] == Coef(Difference(v, c), Log(xs[i]))
    ensures w == c
  {
    hide Corrected, Locations, Errors, Difference, Coef, Log;
    Restored(v, c, w, xs, ys);
  }

  lemma NotYetEqual(v: seq<Elem>, c: seq<Elem>, twoS: nat)
    requires Within(v, c, twoS) && !IsCodeword(v, twoS)
    ensures ErrorsOf(v, c) != [] && twoS >= 2
  {
    hide IsCodeword, Errors, Difference, Proper, Distance, Evaluator, Eval, Inv;
    WithinErrors(v, c, twoS);
    var es := ErrorsOf(v, c);
    if es == [] {
      SameWord(v, c);
    } else {
      EvaluatorNonZeroAtRoot(es, 0);
      EvalUnfold([], Inv(es[0].location));
    }
  }

  lemma ValueEval(c: Coeffs, x: Elem)
    ensures Eval(c, x) == Eval(Value(c), x)
  {
    hide Eval, Trim;
    EvalTrim(c, x);
    TrimValue(c);
  }

  /** Leading zeros do not matter to the syndromes. */
  lemma WordValue(poly: Coeffs, v: seq<Elem>, twoS: nat)
    requires Value(poly) == Trim(v)
    ensures forall x :: Eval(poly, x) == Eval(v, x)
    ensures IsCodeword(poly, twoS) <==> IsCodeword(v, twoS)
  {
    hide Eval, Trim, Value;
    forall x ensures Eval(poly, x) == Eval(v, x) {
      ValueEval(poly, x);
      EvalTrim(v, x);
    }
  }

  lemma NoSyndromes(v: seq<Elem>, twoS: nat)
    requires !IsCodeword(v, twoS)
    ensures twoS > 0
  {
  }

  lemma FoundAreDistinct(locator: Coeffs, xs: seq<Elem>)
    requires Degree(locator) == 1 ==> xs == [locator[0]]
    requires Degree(locator) != 1 ==> DistinctRoots(locator, xs)
    ensures DistinctNonZero(xs)
  {
    hide Eval;
  }

  /** Which of x^twoS and the syndromes is the larger polynomial. */
  lemma SyndromesSmaller(a: Coeffs, b: Coeffs, twoS: nat)
    requires Value(a) == Monomial(ONE, twoS) && |Value(b)| <= twoS
    ensures a[0] != ZERO && Degree(a) == twoS
    ensures Larger(a, b) == a && Smaller(a, b) == b
  {
  }

  /** A list whose value is a locator is that locator. */
  lemma LocatorAsList(sigma: Coeffs, es: seq<ErrorAt>)
    requires Proper(es) && Value(sigma) == Locator(es)
    ensures sigma == Locator(es) && Degree(sigma) == |es|
  {
    hide Locator, Proper;
    LocatorShape(es);
  }

  /** Half as many changes as check bytes are always within the bounds, and for an even number they are the bounds. */
  lemma NearIsWithin(v: seq<Elem>, c: seq<Elem>, twoS: nat)
    ensures Near(v, c, twoS) ==> Within(v, c, twoS)
    ensures twoS % 2 == 0 ==> (Near(v, c, twoS) <==> Within(v, c, twoS))
  {
    hide Errors, Difference, Proper, IsCodeword, Evaluator;
    if |v| == |c| <= 255 {
      ErrorsProper(Difference(v, c));
      ErrorsCount(v, c);
      EvaluatorLength(Errors(Difference(v, c)));
    }
  }

  lemma CodewordIsWithin(v: seq<Elem>, twoS: nat)
    requires |v| <= 255 && IsCodeword(v, twoS)
    ensures Within(v, v, twoS)
  {
    hide Errors, Difference, Evaluator, IsCodeword;
    DistanceNone(v, v);
    ErrorsCount(v, v);
    EvaluatorUnfold([]);
  }

  /** The search succeeds exactly when the locator splits. */
  lemma SearchSplits(sigma: Coeffs, ok: bool, xs: seq<Elem>)
    requires Coef(sigma, 0) == ONE
    requires Degree(sigma) == 1 ==> ok && xs == [sigma[0]]
    requires Degree(sigma) != 1 ==> DistinctRoots(sigma, xs)
    requires ok <==> |xs| == Degree(sigma)
    requires !ok ==> |xs| < Degree(sigma) && AllRoots(sigma, xs, 256)
    ensures sigma == Value(sigma)
    ensures ok <==> Splits(sigma)
    ensures ok ==> |xs| + 1 == |sigma| && DistinctRoots(sigma, xs)
  {
    hide Eval, Inv, Mul, Add;
    ProperValue(sigma);
    if Degree(sigma) == 1 { ShortcutIsRoot(sigma); }
    if !ok && Splits(sigma) {
      var ys: seq<Elem> :| |ys| + 1 == |sigma| && DistinctRoots(sigma, ys);
      forall y | y in ys ensures y in xs {
        InvInv(y);
        assert Inv(y).bits as int < 256;
        assert Inv(Inv(y)) in xs;
      }
      Pigeonhole(ys, xs);
    }
  }

  lemma ProperValue(sigma: Coeffs)
    requires Coef(sigma, 0) == ONE
    ensures sigma[0] != ZERO && sigma == Value(sigma)
  {
  }

  /** The root of 1 + a x. */
  lemma ShortcutIsRoot(sigma: Coeffs)
    requires Degree(sigma) == 1 && Coef(sigma, 0) == ONE
    ensures DistinctRoots(sigma, [sigma[0]])
  {
    hide Eval, Inv, Mul, Add;
    ProperValue(sigma);
    var a := sigma[0];
    assert sigma == Factor(a);
    InvInv(a);
    FactorRoot(a, Inv(a));
  }

  /** The claims behind locations and magnitudes found. */
  function Claimed(xs: seq<Elem>, ys: seq<Elem>): (es: seq<ErrorAt>)
    requires |xs| == |ys|
    ensures |es| == |xs|
  {
    seq(|xs|, i requires 0 <= i < |xs| => ErrorAt(xs[i], ys[i]))
  }

  lemma ClaimedClaims(sigma: Poly, omega: Poly, omegaList: Coeffs, xs: seq<Elem>, ys: seq<Elem>)
    requires |xs| == |ys| && |xs| + 1 == |sigma| && DistinctRoots(sigma, xs) && omega == Value(omegaList)
    requires forall i :: 0 <= i < |ys| ==> ys[i] == Mul(Eval(omegaList, Inv(xs[i])), Inv(Others(xs, xs[i])))
    ensures Claims(Claimed(xs, ys), sigma, omega)
  {
    hide Eval, Inv, Mul, Others;
    assert Locations(Claimed(xs, ys)) == xs;
    forall i | 0 <= i < |xs| ensures Claimed(xs, ys)[i].magnitude == Forney(omega, xs, xs[i]) {
      ValueEval(omegaList, Inv(xs[i]));
    }
  }

  /**
   Decodes in place. Whatever word was sent, if at most half as many bytes changed on the way as
   there are check bytes, or one more where the bounds of the algorithm still hold, decoding ends
   normally with the word sent. It ends normally with a codeword in no other case. All exceptions
   come under exact conditions on the solutions of the key equation; without one, a damaged word
   has been corrected by its locator and evaluator.
   */
  method Decode(field: GF256, received: array<Elem>, twoS: nat, ghost sent: seq<Elem>)
    returns (outcome: Outcome)
    requires field.Valid() && received.Length > 0 && twoS <= 256
    modifies received
    ensures Near(old(received[..]), sent, twoS) ==> outcome == Done && received[..] == sent
    ensures Within(old(received[..]), sent, twoS) ==> outcome == Done && received[..] == sent
    ensures outcome == Done && received.Length <= 255 && IsCodeword(received[..], twoS) ==>
      Within(old(received[..]), received[..], twoS)
    ensures IsCodeword(old(received[..]), twoS) ==> outcome == Done && received[..] == old(received[..])
    ensures outcome == ZeroRemainder <==> twoS == 1 && !IsCodeword(old(received[..]), twoS)
    ensures outcome == ZeroConstantTerm <==> Damaged(old(received[..]), twoS) && !Solvable(old(received[..]), twoS)
    ensures outcome == TooFewRoots <==>
      Damaged(old(received[..]), twoS) && exists s, o :: LocatorOf(old(received[..]), twoS, s, o) && !Splits(s)
    ensures outcome == BadLocation <==>
      Damaged(old(received[..]), twoS) &&
      exists s, o ::
        LocatorOf(old(received[..]), twoS, s, o) && Splits(s) && !Inside(s, received.Length)
    ensures outcome == Done && Damaged(old(received[..]), twoS) ==>
      exists s, o :: Repaired(old(received[..]), received[..], twoS, s, o)
    ensures Damaged(old(received[..]), twoS) ==>
      (outcome == Done && received[..] == old(received[..]) <==> Unnoticed(old(received[..]), twoS))
  {
    hide *;
    ghost var v := received[..];
    var poly := Normalise(received[..]);
    WordValue(poly, v, twoS);
    NearIsWithin(v, sent, twoS);
    var syndromeCoefficients, noError := Syndromes(field, poly, twoS);
    DamagedIs(v, twoS);
    if twoS >= 2 { UnnoticedIff(v, twoS); }
    if noError {
      if Within(v, sent, twoS) { NoErrorMeansEqual(v, sent, twoS); }
      if |v| <= 255 { CodewordIsWithin(v, twoS); }
      return Done;
    }
    NoSyndromes(v, twoS);
    var syndrome := Normalise(syndromeCoefficients);
    var power := BuildMonomial(twoS, ONE);
    SyndromesSmaller(power, syndrome, twoS);
    SyndromesMatch(v, twoS, syndromeCoefficients);
    var sigma, omega;
    ghost var w;
    outcome, sigma, omega, w := RunEuclideanAlgorithm(field, power, syndrome, twoS);
    ghost var s, o := Scale(Inv(Coef(w.t, 0)), w.t), Scale(Inv(Coef(w.t, 0)), w.r);
    if twoS >= 2 { RowIsLocator(w, v, twoS, s, o); }
    ghost var near := Within(v, sent, twoS);
    ghost var es := if near then ErrorsOf(v, sent) else [];
    if near {
      NotYetEqual(v, sent, twoS);
      WithinErrors(v, sent, twoS);
      SyndromeIsTrue(v, sent, twoS, syndromeCoefficients);
      Unscaled(es, twoS, w);
    }
    if outcome != Done { return; }
    LocatorStarts(v, twoS, s, o, sigma);
    var ok, locations := FindErrorLocations(field, sigma);
    SearchSplits(sigma, ok, locations);
    if near {
      LocatorAsList(sigma, es);
      LocationsFound(es, ok, locations);
    }
    if !ok { return TooFewRoots; }
    FoundAreDistinct(sigma, locations);
    var magnitudes := FindErrorMagnitudes(field, omega, locations);
    if near {
      forall x ensures Eval(omega, x) == Eval(Evaluator(es), x) { ValueEval(omega, x); }
      TrueMagnitudes(v, sent, locations, magnitudes, omega);
    }
    InsideIff(s, locations, |v|);
    var corrected := Correct(field, received, locations, magnitudes);
    if !corrected { return BadLocation; }
    if near { WordRestored(v, sent, received[..], locations, magnitudes); }
    ClaimedClaims(s, o, omega, locations, magnitudes);
    RepairFound(v, received[..], twoS, s, o, Claimed(locations, magnitudes));
  }

  /** A word whose syndromes call for the Euclidean algorithm; with one check byte it only throws. */
  ghost predicate Damaged(v: seq<Elem>, twoS: nat) { twoS >= 2 && !IsCodeword(v, twoS) }

  lemma DamagedIs(v: seq<Elem>, twoS: nat)
    ensures Damaged(v, twoS) <==> twoS >= 2 && !IsCodeword(v, twoS)
  {
  }

  lemma SyndromesMatch(v: seq<Elem>, twoS: nat, s: seq<Elem>)
    requires |s| == twoS && forall i: nat :: i < twoS ==> Coef(s, i) == Eval(v, Exp(i))
    ensures Trim(s) == SyndromesOf(v, twoS)
  {
    hide Eval, Exp, Coef, Trim, SyndromesOf;
    forall k: nat ensures Coef(Trim(s), k) == Coef(SyndromesOf(v, twoS), k) {
      CoefTrim(s, k);
      CoefSyndromes(v, twoS, k);
      if k >= twoS { CoefPast(s, k); }
    }
    PolyEq(Trim(s), SyndromesOf(v, twoS));
  }

  lemma LocatorStarts(v: seq<Elem>, twoS: nat, s: Poly, o: Poly, sigma: Coeffs)
    requires LocatorOf(v, twoS, s, o) && s == Value(sigma)
    ensures Coef(sigma, 0) == ONE && Coef(s, 0) == ONE
  {
    hide Value, Coef, SyndromesOf;
    CoefValue(sigma, 0);
  }

  lemma RepairFound(v: seq<Elem>, w: seq<Elem>, twoS: nat, s: Poly, o: Poly, es: seq<ErrorAt>)
    requires LocatorOf(v, twoS, s, o) && Claims(es, s, o) && WithinWord(es, |v|) && w == Patch(v, es)
    ensures Repaired(v, w, twoS, s, o)
    ensures |v| <= 255 && IsCodeword(w, twoS) ==> Within(v, w, twoS)
  {
    hide LocatorOf, Claims, WithinWord, Patch, IsCodeword, Within;
    if |v| <= 255 && IsCodeword(w, twoS) { RepairIsWithin(v, w, twoS, s, o); }
  }
}
