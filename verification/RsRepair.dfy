/**
 What correcting a word by its own locator and evaluator amounts to. The errors claimed are those
 of Forney's formula at the roots; the word they lead to is a codeword exactly when the
 evaluator's degree is below the locator's.
 */
module RsRepair {
  import opened GaloisField
  import opened Polynomials
  import opened ErrorPolynomials
  import opened EuclidRows
  import opened Codewords
  import opened RsSolutions
  import Doubling

  ghost predicate DistinctNonZero(xs: seq<Elem>) {
    && (forall i :: 0 <= i < |xs| ==> xs[i] != ZERO)
    && (forall i, j :: 0 <= i < j < |xs| ==> xs[i] != xs[j])
  }

  ghost predicate DistinctRoots(locator: seq<Elem>, xs: seq<Elem>) {
    && (forall i :: 0 <= i < |xs| ==> xs[i] != ZERO && Eval(locator, Inv(xs[i])) == ZERO)
    && (forall i, j :: 0 <= i < j < |xs| ==> xs[i] != xs[j])
  }

  /** A locator with as many roots as its degree. */
  ghost predicate Splits(sigma: Poly) {
    exists xs :: |xs| + 1 == |sigma| && DistinctRoots(sigma, xs)
  }

  /** All roots locate places of a word of length n. */
  ghost predicate Inside(sigma: Poly, n: nat) {
    forall x :: x != ZERO && Eval(sigma, Inv(x)) == ZERO ==> Log(x) < n
  }

  /** One claim for each root, with the magnitude of Forney's formula. */
  ghost predicate Claims(es: seq<ErrorAt>, sigma: Poly, omega: Poly) {
    && |es| + 1 == |sigma| && DistinctRoots(sigma, Locations(es))
    && forall i :: 0 <= i < |es| ==> es[i].magnitude == Forney(omega, Locations(es), es[i].location)
  }

  ghost function Forney(omega: seq<Elem>, xs: seq<Elem>, x: Elem): Elem {
    Mul(Eval(omega, Inv(x)), Inv(Others(xs, x)))
  }

  ghost predicate WithinWord(es: seq<ErrorAt>, n: nat) {
    forall i :: 0 <= i < |es| ==> Log(es[i].location) < n
  }

  /** A magnitude added to the byte at one power. */
  function AddAt(v: seq<Elem>, k: nat, y: Elem): (w: seq<Elem>)
    requires k < |v|
    ensures |w| == |v|
  {
    v[|v| - 1 - k := Add(v[|v| - 1 - k], y)]
  }

  /** Each magnitude added to the byte its location names. */
  ghost function Patch(v: seq<Elem>, es: seq<ErrorAt>): (w: seq<Elem>)
    requires WithinWord(es, |v|)
    ensures |w| == |v|
    decreases |es|
  {
    if es == [] then v else Patch(AddAt(v, Log(es[0].location), es[0].magnitude), es[1..])
  }

  /** `w` is `v` corrected by its locator and evaluator. */
  ghost predicate Repaired(v: seq<Elem>, w: seq<Elem>, m: nat, sigma: Poly, omega: Poly) {
    && LocatorOf(v, m, sigma, omega)
    && exists es :: Claims(es, sigma, omega) && WithinWord(es, |v|) && w == Patch(v, es)
  }

  // ---------------------------------------------------------------------------------------
  // Roots

  lemma LocationsOf(xs: seq<Elem>) returns (es: seq<ErrorAt>)
    requires DistinctNonZero(xs)
    ensures Proper(es) && Locations(es) == xs && |es| == |xs|
  {
    es := seq(|xs|, i requires 0 <= i < |xs| => ErrorAt(xs[i], ONE));
    assert ONE != ZERO;
  }

  /** A locator has no more roots than those found, if they are as many as its degree. */
  lemma RootsAreAll(sigma: Poly, xs: seq<Elem>, x: Elem)
    requires Coef(sigma, 0) == ONE && |xs| + 1 == |sigma| && DistinctRoots(sigma, xs)
    requires x != ZERO && Eval(sigma, Inv(x)) == ZERO
    ensures x in xs
  {
    hide Eval, Inv, Coef, Locator, Proper;
    var es := LocationsOf(xs);
    forall i | 0 <= i < |es| ensures Eval(sigma, Inv(es[i].location)) == ZERO {
      assert es[i].location == xs[i];
    }
    LocatorIs(es, sigma);
    InvInv(x);
    LocatorRoots(es, Inv(x));
    var i :| 0 <= i < |es| && es[i].location == x;
    assert xs[i] == x;
  }

  /** So all of them lie inside a word if and only if those found do. */
  lemma InsideIff(sigma: Poly, xs: seq<Elem>, n: nat)
    requires Coef(sigma, 0) == ONE && |xs| + 1 == |sigma| && DistinctRoots(sigma, xs)
    ensures Inside(sigma, n) <==> forall i :: 0 <= i < |xs| ==> Log(xs[i]) < n
  {
    hide Eval, Inv, Coef, Log;
    if forall i :: 0 <= i < |xs| ==> Log(xs[i]) < n {
      forall x | x != ZERO && Eval(sigma, Inv(x)) == ZERO ensures Log(x) < n { RootsAreAll(sigma, xs, x); }
    }
  }

  /**
   What is claimed are proper errors, their locator is the word's own, and so is their evaluator's
   value at every root.
   */
  lemma ClaimsAreErrors(v: seq<Elem>, m: nat, sigma: Poly, omega: Poly, es: seq<ErrorAt>)
    requires LocatorOf(v, m, sigma, omega) && Claims(es, sigma, omega)
    ensures Proper(es) && Locator(es) == sigma
    ensures forall i :: 0 <= i < |es| ==>
      Eval(Evaluator(es), Inv(es[i].location)) == Eval(omega, Inv(es[i].location))
  {
    hide Eval, Inv, Coef, Locator, Evaluator, Mul, Others, SyndromesOf, SameBelow;
    var xs := Locations(es);
    forall i | 0 <= i < |es| ensures es[i].location != ZERO && es[i].magnitude != ZERO {
      var x := xs[i];
      NoCommonRoot(v, m, sigma, omega, x);
      OthersNonZero(xs, x);
      InvIsInverse(Others(xs, x));
      MulNonZero(Eval(omega, Inv(x)), Inv(Others(xs, x)));
    }
    ClaimsDistinct(es, sigma, omega);
    LocatorIs(es, sigma);
    forall i | 0 <= i < |es|
      ensures Eval(Evaluator(es), Inv(es[i].location)) == Eval(omega, Inv(es[i].location))
    {
      var x := xs[i];
      EvaluatorAtRoot(es, i);
      OthersNonZero(xs, x);
      MulCancel(Others(xs, x), Eval(omega, Inv(x)));
    }
  }

  lemma ClaimsDistinct(es: seq<ErrorAt>, sigma: Poly, omega: Poly)
    requires Claims(es, sigma, omega)
    ensures forall i, j :: 0 <= i < j < |es| ==> es[i].location != es[j].location
    ensures forall i :: 0 <= i < |es| ==> Eval(sigma, Inv(es[i].location)) == ZERO
  {
    hide Eval, Inv, Forney;
    forall i, j | 0 <= i < j < |es| ensures es[i].location != es[j].location {
      assert Locations(es)[i] != Locations(es)[j];
    }
    forall i | 0 <= i < |es| ensures Eval(sigma, Inv(es[i].location)) == ZERO {
      assert Locations(es)[i] == es[i].location;
    }
  }

  // ---------------------------------------------------------------------------------------
  // Patching

  /** Adding to one byte adds its share to every value. */
  lemma {:induction false} EvalAddAt(v: seq<Elem>, k: nat, y: Elem, x: Elem)
    requires k < |v|
    ensures Eval(AddAt(v, k, y), x) == Add(Eval(v, x), Mul(y, Power(x, k)))
  {
    hide Eval, Add, Mul, Power;
    var w, p, t := AddAt(v, k, y), Power(x, |v| - 1), v[1..];
    EvalLead(v, x);
    EvalLead(w, x);
    if k == |v| - 1 {
      assert w[1..] == t;
      MulDistrib(p, v[0], y);
      AddAssoc(Mul(v[0], p), Mul(y, p), Eval(t, x));
      AddLaws(Mul(y, p), Eval(t, x));
      AddAssoc(Mul(v[0], p), Eval(t, x), Mul(y, p));
    } else {
      assert w[1..] == AddAt(t, k, y);
      EvalAddAt(t, k, y, x);
      AddAssoc(Mul(v[0], p), Eval(t, x), Mul(y, Power(x, k)));
    }
  }

  lemma PatchUnfold(v: seq<Elem>, es: seq<ErrorAt>)
    requires WithinWord(es, |v|)
    ensures es == [] ==> Patch(v, es) == v
    ensures es != [] ==>
      && Log(es[0].location) < |v| && WithinWord(es[1..], |v|)
      && Patch(v, es) == Patch(AddAt(v, Log(es[0].location), es[0].magnitude), es[1..])
  {
    hide Log, AddAt;
  }

  lemma PatchStep(before: seq<Elem>, after: seq<Elem>, es: seq<ErrorAt>, i: nat)
    requires i < |es| && WithinWord(es, |before|)
    requires
      var p := |before| - 1 - Log(es[i].location);
      after == before[p := Add(before[p], es[i].magnitude)]
    ensures |after| == |before| && WithinWord(es[i..], |before|) && WithinWord(es[i + 1..], |after|)
    ensures Patch(after, es[i + 1..]) == Patch(before, es[i..])
  {
    hide Log, Patch, Add;
    assert es[i..][1..] == es[i + 1..];
    PatchUnfold(before, es[i..]);
  }

  lemma {:induction false} PatchSyndrome(v: seq<Elem>, es: seq<ErrorAt>, i: nat)
    requires WithinWord(es, |v|) && forall j :: 0 <= j < |es| ==> es[j].location != ZERO
    ensures Eval(Patch(v, es), Exp(i)) == Add(Eval(v, Exp(i)), SyndromeAt(es, i))
    decreases |es|
  {
    hide Eval, Add, Mul, Power, Exp, Log, SyndromeAt, Patch, AddAt;
    PatchUnfold(v, es);
    SyndromeAtUnfold(es, i);
    if es == [] {
      AddLaws(Eval(v, Exp(i)), ZERO);
    } else {
      var k, y := Log(es[0].location), es[0].magnitude;
      PatchSyndrome(AddAt(v, k, y), es[1..], i);
      EvalAddAt(v, k, y, Exp(i));
      PowerSwap(es[0].location, i);
      AddAssoc(Eval(v, Exp(i)), Mul(y, Power(Exp(i), k)), SyndromeAt(es[1..], i));
    }
  }

  lemma PowerSwap(x: Elem, i: nat)
    requires x != ZERO
    ensures Power(Exp(i), Log(x)) == Power(x, i)
  {
    hide Power, Exp, Log;
    PowerOfExp(i, Log(x));
    PowerOfExp(Log(x), i);
    assert i * Log(x) == Log(x) * i;
  }

  lemma CoefAddAt(v: seq<Elem>, k: nat, y: Elem, j: nat)
    requires k < |v|
    ensures Coef(AddAt(v, k, y), j) == if j == k then Add(Coef(v, j), y) else Coef(v, j)
  {
  }

  lemma {:induction false} DistanceAddAt(v: seq<Elem>, u: seq<Elem>, k: nat, y: Elem)
    requires |u| == |v| && k < |v| && Coef(u, k) == Coef(v, k) && y != ZERO
    ensures Distance(v, AddAt(u, k, y)) == Distance(v, u) + 1
  {
    hide Add;
    var w := AddAt(u, k, y);
    if k == |v| - 1 {
      AddCancel(y, u[0]);
      AddLaws(y, u[0]);
      AddLaws(u[0], u[0]);
      assert w[1..] == u[1..];
    } else {
      assert w[1..] == AddAt(u[1..], k, y);
      CoefTail(u, k);
      CoefTail(v, k);
      DistanceAddAt(v[1..], u[1..], k, y);
    }
  }

  /** Patching proper errors changes as many bytes as there are errors, and no others. */
  lemma {:induction false} PatchDistance(v: seq<Elem>, u: seq<Elem>, es: seq<ErrorAt>)
    requires Proper(es) && |u| == |v| && WithinWord(es, |v|)
    requires forall i :: 0 <= i < |es| ==> Coef(u, Log(es[i].location)) == Coef(v, Log(es[i].location))
    ensures Distance(v, Patch(u, es)) == Distance(v, u) + |es|
    ensures forall k: nat ::
      (forall i :: 0 <= i < |es| ==> Log(es[i].location) != k) ==> Coef(Patch(u, es), k) == Coef(u, k)
    decreases |es|
  {
    hide Log, Distance, Patch, AddAt, Coef;
    PatchUnfold(u, es);
    if es != [] {
      var k, y, rest := Log(es[0].location), es[0].magnitude, es[1..];
      var t := AddAt(u, k, y);
      ProperTail(es);
      DistanceAddAt(v, u, k, y);
      forall i | 0 <= i < |rest| ensures Coef(t, Log(rest[i].location)) == Coef(v, Log(rest[i].location)) {
        OtherLog(es[0].location, rest[i].location);
        CoefAddAt(u, k, y, Log(rest[i].location));
        assert rest[i] == es[i + 1];
      }
      PatchDistance(v, t, rest);
      forall j: nat | forall i :: 0 <= i < |es| ==> Log(es[i].location) != j
        ensures Coef(Patch(u, es), j) == Coef(u, j)
      {
        forall i | 0 <= i < |rest| ensures Log(rest[i].location) != j { assert rest[i] == es[i + 1]; }
        CoefAddAt(u, k, y, j);
      }
    }
  }

  lemma OtherLog(x: Elem, y: Elem)
    requires x != ZERO && y != ZERO && x != y
    ensures Log(x) != Log(y)
  {
    hide Exp;
  }

  // ---------------------------------------------------------------------------------------
  // What a repair achieves

  /**
   A repair changes as many bytes as the locator's degree, and ends at a codeword exactly when the
   evaluator's degree is below the locator's.
   */
  lemma RepairIsCodewordIff(v: seq<Elem>, w: seq<Elem>, m: nat, sigma: Poly, omega: Poly)
    requires Repaired(v, w, m, sigma, omega)
    ensures |w| == |v| && Distance(v, w) + 1 == |sigma|
    ensures IsCodeword(w, m) <==> |omega| < |sigma|
  {
    hide Eval, Log, Inv, Locator, Evaluator, Claims, WithinWord, Patch, LocatorOf, IsCodeword, SyndromesOf, Exp;
    var es :| Claims(es, sigma, omega) && WithinWord(es, |v|) && w == Patch(v, es);
    ClaimsAreErrors(v, m, sigma, omega, es);
    LocatorShape(es);
    PatchDistance(v, v, es);
    DistanceNone(v, v);
    forall i: nat {:trigger Exp(i)} | i < m
      ensures Eval(w, Exp(i)) == Add(Eval(v, Exp(i)), SyndromeAt(es, i))
    {
      PatchSyndrome(v, es, i);
    }
    SyndromesAdd(v, w, es, m);
    AddedIsCodeword(v, w, es, m, omega);
  }

  /**
   `c` is a codeword so near to `v` that the bounds of the algorithm hold for the errors between
   them: with an even number of check bytes half as many changes, with an odd one possibly one more.
   */
  ghost predicate Within(v: seq<Elem>, c: seq<Elem>, m: nat): (within: bool)
    ensures within ==> |v| == |c| <= 255
  {
    && |v| == |c| <= 255 && IsCodeword(c, m) && Distance(v, c) <= m - m / 2
    && |Evaluator(Errors(Difference(v, c)))| <= m / 2
  }

  /** A repair that ends at a codeword ends within these bounds. */
  lemma RepairIsWithin(v: seq<Elem>, w: seq<Elem>, m: nat, sigma: Poly, omega: Poly)
    requires Repaired(v, w, m, sigma, omega) && |v| <= 255 && IsCodeword(w, m)
    ensures Within(v, w, m)
  {
    hide Eval, Log, Inv, Locator, Evaluator, Claims, WithinWord, Patch, IsCodeword, SyndromesOf, Exp, Errors,
      Difference, SameBelow, Times, SyndromePoly, Proper, Coef;
    RepairIsCodewordIff(v, w, m, sigma, omega);
    var es := Errors(Difference(v, w));
    ErrorsProper(Difference(v, w));
    ErrorsCount(v, w);
    RepairedErrors(v, w, m, sigma, omega);
    LocatorIs(es, sigma);
    SyndromesAreErrors(v, w, m);
    KeyBelow(es, m);
    EvaluatorLength(es);
    SameChain(Times(sigma, SyndromesOf(v, m)), omega, Evaluator(es), m);
    SameShort(omega, Evaluator(es), m);
  }

  /** Every place at which a repair changed the word is a root of the locator. */
  lemma RepairedErrors(v: seq<Elem>, w: seq<Elem>, m: nat, sigma: Poly, omega: Poly)
    requires Repaired(v, w, m, sigma, omega) && |v| == |w| <= 255
    ensures
      var es := Errors(Difference(v, w));
      forall i :: 0 <= i < |es| ==> Eval(sigma, Inv(es[i].location)) == ZERO
  {
    hide Eval, Log, Inv, Locator, Evaluator, Patch, LocatorOf, IsCodeword, Exp, Errors, Difference, Coef, Forney;
    var claims: seq<ErrorAt> :| Claims(claims, sigma, omega) && WithinWord(claims, |v|) && w == Patch(v, claims);
    ClaimsAreErrors(v, m, sigma, omega, claims);
    PatchDistance(v, v, claims);
    var es := Errors(Difference(v, w));
    forall i | 0 <= i < |es| ensures Eval(sigma, Inv(es[i].location)) == ZERO {
      var x := es[i].location;
      ErrorsLocate(Difference(v, w), i);
      CoefDifference(v, w, Log(x));
      var j :| 0 <= j < |claims| && Log(claims[j].location) == Log(x);
      SameLog(claims[j].location, x);
      assert Locations(claims)[j] == x;
    }
  }

  lemma SameLog(x: Elem, y: Elem)
    requires x != ZERO && y != ZERO && Log(x) == Log(y)
    ensures x == y
  {
    hide Log;
    if x != y { OtherLog(x, y); }
  }

  lemma CoefDifference(v: seq<Elem>, w: seq<Elem>, k: nat)
    requires |v| == |w| && k < |v|
    ensures Coef(Difference(v, w), k) == Add(Coef(v, k), Coef(w, k))
    ensures Coef(Difference(v, w), k) != ZERO ==> Coef(v, k) != Coef(w, k)
  {
    hide Add;
    AddLaws(Coef(v, k), Coef(w, k));
  }

  /** The syndromes of a word are those of its errors from a codeword. */
  lemma SyndromesAreErrors(v: seq<Elem>, c: seq<Elem>, m: nat)
    requires |v| == |c| && IsCodeword(c, m)
    ensures SyndromesOf(v, m) == SyndromePoly(Errors(Difference(v, c)), m)
  {
    hide *;
    var es := Errors(Difference(v, c));
    forall k: nat ensures Coef(SyndromesOf(v, m), k) == Coef(SyndromePoly(es, m), k) {
      CoefSyndromes(v, m, k);
      CoefSyndromePoly(es, m, k);
      if k < m { ReceivedSyndrome(v, c, m, k); }
    }
    PolyEq(SyndromesOf(v, m), SyndromePoly(es, m));
  }

  // ---------------------------------------------------------------------------------------
  // Damage that passes

  /** The second half of the syndromes is zero. */
  ghost predicate Unnoticed(v: seq<Elem>, m: nat) {
    forall k: nat :: m / 2 <= k < m ==> Eval(v, Exp(k)) == ZERO
  }

  /** Such a word solves its own key equation, with no error at all. */
  lemma UnnoticedLocator(v: seq<Elem>, m: nat)
    requires m >= 2 && Unnoticed(v, m)
    ensures LocatorOf(v, m, Single(ONE), SyndromesOf(v, m))
    ensures forall s, o :: LocatorOf(v, m, s, o) ==> |s| == 1
  {
    hide Eval, SyndromesOf, Times, SameBelow, Exp, Coef;
    var b := SyndromesOf(v, m);
    forall k: nat | k >= m / 2 ensures Coef(b, k) == ZERO { CoefSyndromes(v, m, k); }
    LengthAtMost(b, m / 2);
    CoefSingle(ONE, 0);
    SingleLength(ONE);
    TimesSingle(ONE, b);
    ScaleOne(b);
    SameSelf(b, m);
    forall s, o | Solves(b, m, s, o) ensures 1 <= |s| {
      CoefEmpty(0);
      OneIsNotZero();
    }
  }

  lemma ConstantSplits(s: Poly, n: nat)
    requires |s| == 1
    ensures Splits(s) && Inside(s, n)
  {
    hide Eval, Inv, Log;
    ConstantForm(s);
    assert DistinctRoots(s, []);
    forall x ensures Eval(s, Inv(x)) != ZERO { EvalSingle(s[0], Inv(x)); }
  }

  /**
   A repair leaves the word as it is exactly when the second half of the syndromes is zero, and
   nothing then keeps the repair from happening.
   */
  lemma UnnoticedIff(v: seq<Elem>, m: nat)
    requires m >= 2
    ensures Unnoticed(v, m) <==> exists s, o :: Repaired(v, v, m, s, o)
    ensures Unnoticed(v, m) ==> Solvable(v, m)
    ensures Unnoticed(v, m) ==> forall s, o :: LocatorOf(v, m, s, o) ==> Splits(s) && Inside(s, |v|)
    ensures Unnoticed(v, m) ==> forall w, s, o :: Repaired(v, w, m, s, o) ==> w == v
  {
    hide Eval, LocatorOf, Claims, WithinWord, Patch, Exp, SyndromesOf, Unnoticed, Solves, Distance, Splits, Inside;
    if Unnoticed(v, m) {
      UnnoticedLocator(v, m);
      UnnoticedRepair(v, m);
      forall s, o | LocatorOf(v, m, s, o) ensures Splits(s) && Inside(s, |v|) { ConstantSplits(s, |v|); }
      forall w, s, o | Repaired(v, w, m, s, o) ensures w == v {
        RepairIsCodewordIff(v, w, m, s, o);
        DistanceNone(v, w);
      }
    }
    if s: Poly, o: Poly :| Repaired(v, v, m, s, o) {
      RepairIsCodewordIff(v, v, m, s, o);
      DistanceNone(v, v);
      ConstantLocator(v, m, s, o);
    }
  }

  lemma UnnoticedRepair(v: seq<Elem>, m: nat)
    requires m >= 2 && Unnoticed(v, m)
    ensures Repaired(v, v, m, Single(ONE), SyndromesOf(v, m)) && Solvable(v, m)
  {
    hide Eval, Exp, SyndromesOf, Unnoticed, Solves, Forney;
    UnnoticedLocator(v, m);
    SingleLength(ONE);
    OneIsNotZero();
    assert Locations([]) == [];
    assert Claims([], Single(ONE), SyndromesOf(v, m));
    assert v == Patch(v, []);
  }

  lemma ConstantLocator(v: seq<Elem>, m: nat, s: Poly, o: Poly)
    requires LocatorOf(v, m, s, o) && |s| == 1
    ensures Unnoticed(v, m)
  {
    hide Eval, Exp, SyndromesOf, Times, Coef;
    var b := SyndromesOf(v, m);
    ConstantForm(s);
    CoefSingle(s[0], 0);
    TimesSingle(ONE, b);
    ScaleOne(b);
    forall k: nat | m / 2 <= k < m ensures Eval(v, Exp(k)) == ZERO {
      CoefSyndromes(v, m, k);
      CoefBeyond(o, k);
    }
  }

  /** With two check bytes the word 1, 2 is such a word: it is no codeword, but its second syndrome is zero. */
  lemma DamageThatPasses()
    ensures !IsCodeword([Elem(1), Elem(2)], 2) && Unnoticed([Elem(1), Elem(2)], 2)
  {
    hide Mul, Exp;
    var v := [Elem(1), Elem(2)];
    ExpZero();
    ExpOne();
    EvalPair(Elem(1), Elem(2), ONE);
    EvalPair(Elem(1), Elem(2), Elem(2));
    MulOne(ONE);
    MulOne(Elem(2));
    AddLaws(Elem(2), Elem(1));
    AddLaws(Elem(2), Elem(2));
    assert Eval(v, Exp(0)) != ZERO;
  }

  lemma ExpOne()
    ensures Exp(1) == Elem(2)
  {
    assert Doubling.Shifted(1, 1) == Doubling.Xtime(1);
  }

  lemma EvalPair(a: Elem, b: Elem, x: Elem)
    ensures Eval([a, b], x) == Add(b, Mul(x, a))
  {
    hide Mul, Add;
    assert [a, b][..1] == [a] && [a][..0] == [];
    MulZero(x);
    AddLaws(a, ZERO);
    assert Eval([a], x) == a;
  }
}
