/**
 Words, codewords and the errors between them. A word is a codeword for n check bytes when, read
 as a polynomial, it vanishes at the first n powers of 2.
 */
module Codewords {
  import opened GaloisField
  import opened Polynomials
  import opened ErrorPolynomials
  import opened EuclidRows

  ghost predicate IsCodeword(w: seq<Elem>, n: nat) {
    forall i: nat :: i < n ==> Eval(w, Exp(i)) == ZERO
  }

  /** In how many places two words differ. */
  function Distance(v: seq<Elem>, c: seq<Elem>): nat
    requires |v| == |c|
  {
    if v == [] then 0 else (if v[0] == c[0] then 0 else 1) + Distance(v[1..], c[1..])
  }

  function Difference(v: seq<Elem>, c: seq<Elem>): (e: seq<Elem>)
    requires |v| == |c|
    ensures |e| == |v|
  {
    seq(|v|, i requires 0 <= i < |v| => Add(v[i], c[i]))
  }

  /** The non-zero bytes of an error word, each located by its power of 2. */
  ghost function Errors(e: seq<Elem>): seq<ErrorAt> {
    if e == [] then []
    else if e[0] == ZERO then Errors(e[1..])
    else [ErrorAt(Exp(|e| - 1), e[0])] + Errors(e[1..])
  }

  lemma ErrorsUnfold(e: seq<Elem>)
    ensures Errors([]) == []
    ensures e != [] ==>
      Errors(e) == if e[0] == ZERO then Errors(e[1..]) else [ErrorAt(Exp(|e| - 1), e[0])] + Errors(e[1..])
  {
    hide Exp;
  }

  /** `x` locates the byte of `e` at the logarithm of `x`, whose value is `y`. */
  ghost predicate Locates(e: seq<Elem>, x: Elem, y: Elem) {
    x != ZERO && Log(x) < |e| && Coef(e, Log(x)) == y && y != ZERO
  }

  lemma CoefTail(e: seq<Elem>, k: nat)
    requires e != []
    ensures k < |e| - 1 ==> Coef(e[1..], k) == Coef(e, k)
    ensures Coef(e, |e| - 1) == e[0]
  {
  }

  lemma {:induction false} ErrorsLocate(e: seq<Elem>, i: nat)
    requires |e| <= 255 && i < |Errors(e)|
    ensures Locates(e, Errors(e)[i].location, Errors(e)[i].magnitude)
  {
    hide Exp, Log, Errors, Coef;
    ErrorsUnfold(e);
    if e != [] {
      CoefTail(e, |e| - 1);
      if e[0] == ZERO {
        ErrorsLocate(e[1..], i);
        CoefTail(e, Log(Errors(e)[i].location));
      } else if i == 0 {
        LogUnique(|e| - 1);
        ExpNonZero(|e| - 1);
      } else {
        ErrorsLocate(e[1..], i - 1);
        CoefTail(e, Log(Errors(e)[i].location));
      }
    }
  }

  lemma {:induction false} ErrorsComplete(e: seq<Elem>, k: nat)
    requires k < |e| && Coef(e, k) != ZERO
    ensures exists i :: 0 <= i < |Errors(e)| && Errors(e)[i] == ErrorAt(Exp(k), Coef(e, k))
  {
    hide Exp, Log, Errors, Coef;
    ErrorsUnfold(e);
    CoefTail(e, k);
    if k == |e| - 1 {
      assert Errors(e)[0] == ErrorAt(Exp(k), Coef(e, k));
    } else {
      ErrorsComplete(e[1..], k);
      var i :| 0 <= i < |Errors(e[1..])| && Errors(e[1..])[i] == ErrorAt(Exp(k), Coef(e, k));
      if e[0] != ZERO { assert Errors(e)[i + 1] == Errors(e[1..])[i]; }
    }
  }

  lemma {:induction false} ErrorsProper(e: seq<Elem>)
    requires |e| <= 255
    ensures Proper(Errors(e))
  {
    hide Exp, Log, Errors, Coef;
    ErrorsUnfold(e);
    if e != [] {
      ErrorsProper(e[1..]);
      ExpNonZero(|e| - 1);
      LogUnique(|e| - 1);
      forall i | 0 <= i < |Errors(e[1..])|
        ensures Errors(e[1..])[i].location != Exp(|e| - 1)
      {
        ErrorsLocate(e[1..], i);
      }
    }
  }

  lemma {:induction false} ErrorsCount(v: seq<Elem>, c: seq<Elem>)
    requires |v| == |c|
    ensures |Errors(Difference(v, c))| == Distance(v, c)
  {
    hide Exp, Errors, Add;
    var e := Difference(v, c);
    ErrorsUnfold(e);
    if v != [] {
      AddLaws(v[0], c[0]);
      assert e[1..] == Difference(v[1..], c[1..]);
      ErrorsCount(v[1..], c[1..]);
    }
  }

  // ---------------------------------------------------------------------------------------
  // Values of words at powers of 2

  lemma {:induction false} PowerOfExp(a: nat, k: nat)
    ensures Power(Exp(a), k) == Exp(a * k)
  {
    hide Exp, Mul;
    if k == 0 {
      ExpZero();
      assert a * k == 0;
    } else {
      PowerOfExp(a, k - 1);
      MulExp(a, a * (k - 1));
      assert a + a * (k - 1) == a * k;
    }
  }

  /** The leading coefficient's share of a value. */
  lemma {:induction false} EvalLead(e: seq<Elem>, x: Elem)
    requires e != []
    ensures Eval(e, x) == Add(Mul(e[0], Power(x, |e| - 1)), Eval(e[1..], x))
  {
    hide Add, Mul, Eval, Power;
    EvalLast(e, x);
    PowerUnfold(x, |e| - 1);
    if |e| == 1 {
      assert e[..0] == [] && e[1..] == [];
      EvalLast(e, x);
      MulZero(x);
      MulOne(e[0]);
    } else {
      var t, p := e[..|e| - 1], Power(x, |e| - 2);
      EvalLead(t, x);
      EvalLast(e[1..], x);
      assert t[1..] == e[1..][..|e| - 2];
      MulDistrib(x, Mul(e[0], p), Eval(t[1..], x));
      MulAssoc(x, e[0], p);
      MulComm(x, e[0]);
      MulAssoc(e[0], x, p);
      var lead, rest, low := Mul(e[0], Mul(x, p)), Mul(x, Eval(t[1..], x)), e[|e| - 1];
      AddLaws(low, Add(lead, rest));
      AddAssoc(lead, rest, low);
      AddLaws(rest, low);
    }
  }

  lemma EvalLast(e: seq<Elem>, x: Elem)
    ensures Eval([], x) == ZERO
    ensures e != [] ==> Eval(e, x) == Add(e[|e| - 1], Mul(x, Eval(e[..|e| - 1], x)))
  {
    hide Add, Mul;
  }

  lemma PowerUnfold(x: Elem, k: nat)
    ensures Power(x, 0) == ONE
    ensures k > 0 ==> Power(x, k) == Mul(x, Power(x, k - 1))
  {
    hide Mul;
  }

  /** The syndromes of a word are those of its errors. */
  lemma {:induction false} EvalErrors(e: seq<Elem>, i: nat)
    ensures Eval(e, Exp(i)) == SyndromeAt(Errors(e), i)
  {
    hide Add, Mul, Eval, Power, Exp, Errors, SyndromeAt;
    ErrorsUnfold(e);
    SyndromeAtUnfold(Errors(e), i);
    if e == [] {
      EvalLast([], Exp(i));
    } else {
      EvalErrors(e[1..], i);
      EvalLead(e, Exp(i));
      if e[0] == ZERO {
        MulZero(Power(Exp(i), |e| - 1));
        AddLaws(Eval(e[1..], Exp(i)), ZERO);
      } else {
        PowerOfExp(i, |e| - 1);
        PowerOfExp(|e| - 1, i);
        assert i * (|e| - 1) == (|e| - 1) * i;
        assert Errors(e)[1..] == Errors(e[1..]);
      }
    }
  }

  lemma {:induction false} EvalDifference(v: seq<Elem>, c: seq<Elem>, x: Elem)
    requires |v| == |c|
    ensures Eval(Difference(v, c), x) == Add(Eval(v, x), Eval(c, x))
  {
    hide Add, Mul, Eval;
    var e := Difference(v, c);
    EvalLast(e, x);
    EvalLast(v, x);
    EvalLast(c, x);
    if v == [] {
      AddLaws(ZERO, ZERO);
    } else {
      var v', c', n := v[..|v| - 1], c[..|v| - 1], |v| - 1;
      EvalDifference(v', c', x);
      assert e[..n] == Difference(v', c');
      MulDistrib(x, Eval(v', x), Eval(c', x));
      AddSwap(v[n], c[n], Mul(x, Eval(v', x)), Mul(x, Eval(c', x)));
    }
  }

  /** The syndromes of a received word depend only on its errors. */
  lemma ReceivedSyndrome(v: seq<Elem>, c: seq<Elem>, n: nat, i: nat)
    requires |v| == |c| && IsCodeword(c, n) && i < n
    ensures Eval(v, Exp(i)) == SyndromeAt(Errors(Difference(v, c)), i)
  {
    hide Add, Eval, Exp, Errors, SyndromeAt, Difference;
    EvalErrors(Difference(v, c), i);
    EvalDifference(v, c, Exp(i));
    AddLaws(Eval(v, Exp(i)), ZERO);
  }

  lemma SameWord(v: seq<Elem>, c: seq<Elem>)
    requires |v| == |c| && Errors(Difference(v, c)) == []
    ensures v == c
  {
    hide Exp, Log, Errors, Coef, Add;
    var e := Difference(v, c);
    forall p | 0 <= p < |v| ensures v[p] == c[p] {
      var k := |v| - 1 - p;
      assert Coef(e, k) == Add(v[p], c[p]) by { CoefAt(e, p); }
      AddLaws(v[p], c[p]);
      if Coef(e, k) != ZERO { ErrorsComplete(e, k); }
    }
  }

  lemma CoefAt(e: seq<Elem>, p: nat)
    requires p < |e|
    ensures Coef(e, |e| - 1 - p) == e[p]
  {
  }

  // ---------------------------------------------------------------------------------------
  // Minimum distance

  lemma SyndromesVanish(es: seq<ErrorAt>, n: nat)
    requires forall i: nat :: i < n ==> SyndromeAt(es, i) == ZERO
    ensures SyndromePoly(es, n) == []
  {
    hide *;
    forall k: nat ensures Coef(SyndromePoly(es, n), k) == Coef([], k) {
      CoefSyndromePoly(es, n, k);
      CoefEmpty(k);
    }
    PolyEq(SyndromePoly(es, n), []);
  }

  /** Distinct codewords differ in more places than there are check bytes. */
  lemma MinimumDistance(v: seq<Elem>, c: seq<Elem>, n: nat)
    requires |v| == |c| <= 255 && IsCodeword(v, n) && IsCodeword(c, n) && v != c
    ensures Distance(v, c) > n
  {
    hide Add, Eval, Exp, Errors, SyndromeAt, Difference, SyndromePoly, Proper, Distance;
    var es := Errors(Difference(v, c));
    ErrorsCount(v, c);
    ErrorsProper(Difference(v, c));
    forall i: nat | i < n ensures SyndromeAt(es, i) == ZERO { ReceivedSyndrome(v, c, n, i); }
    SyndromesVanish(es, n);
    if |es| <= n {
      ErrorsShow(es, n);
      SameWord(v, c);
      assert false;
    }
  }

  // ---------------------------------------------------------------------------------------
  // Why words end at 255 bytes

  /** The shortest word too long for the field: two ones, 255 places apart. */
  function TooLong(): seq<Elem> { [ONE] + Zeros(254) + [ONE] }

  lemma {:induction false} EvalZerosOne(n: nat, x: Elem)
    ensures Eval(Zeros(n) + [ONE], x) == ONE
  {
    hide Eval, Mul, Add;
    var s := Zeros(n) + [ONE];
    if n == 0 {
      EvalLast(s, x);
      assert s[..0] == [];
      EvalLast([], x);
      MulZero(x);
      AddLaws(ONE, ZERO);
    } else {
      EvalLeadingZero(s, x);
      assert s[1..] == Zeros(n - 1) + [ONE];
      EvalZerosOne(n - 1, x);
    }
  }

  lemma {:induction false} EvalZeros(n: nat, x: Elem)
    ensures Eval(Zeros(n), x) == ZERO
  {
    hide Mul, Add;
    if n > 0 {
      assert Zeros(n)[..n - 1] == Zeros(n - 1);
      EvalZeros(n - 1, x);
      MulZero(x);
      AddLaws(ZERO, ZERO);
    }
  }

  lemma {:induction false} DistanceZerosOne(n: nat)
    ensures Distance(Zeros(n) + [ONE], Zeros(n + 1)) == 1
  {
    var v, c := Zeros(n) + [ONE], Zeros(n + 1);
    assert c[1..] == Zeros(n);
    if n == 0 {
      assert v[1..] == [];
    } else {
      assert v[1..] == Zeros(n - 1) + [ONE];
      DistanceZerosOne(n - 1);
    }
  }

  /** At 256 bytes two codewords, whatever the number of check bytes, differ in two places only. */
  lemma TooLongIsCodeword(n: nat)
    ensures IsCodeword(TooLong(), n) && IsCodeword(Zeros(256), n)
    ensures |TooLong()| == 256 && TooLong() != Zeros(256) && Distance(TooLong(), Zeros(256)) == 2
  {
    hide Eval, Mul, Add, Exp, Power;
    var v := TooLong();
    assert v[1..] == Zeros(254) + [ONE] && Zeros(256)[1..] == Zeros(255);
    forall i: nat | i < n ensures Eval(v, Exp(i)) == ZERO && Eval(Zeros(256), Exp(i)) == ZERO {
      EvalZeros(256, Exp(i));
      EvalLead(v, Exp(i));
      EvalZerosOne(254, Exp(i));
      PowerOfExp(i, 255);
      FullTurns(i);
      MulOne(ONE);
      AddLaws(ONE, ONE);
    }
    assert Distance(v, Zeros(256)) == 1 + Distance(v[1..], Zeros(255)) by { FirstDiffers(); }
    DistanceZerosOne(254);
  }

  lemma FirstDiffers()
    ensures TooLong()[0] != Zeros(256)[0]
  {
  }

  lemma {:induction false} FullTurns(i: nat)
    ensures Exp(i * 255) == ONE
  {
    hide Exp;
    ExpZero();
    ExpMod(i * 255);
    assert i * 255 % 255 == 0;
  }

  // ---------------------------------------------------------------------------------------
  // Exactly where half as many errors as check bytes can be corrected

  /** Two places only, for every length from 256 bytes on. */
  lemma {:induction false} LongPair(k: nat, n: nat)
    ensures IsCodeword(Zeros(k) + TooLong(), n) && IsCodeword(Zeros(k + 256), n)
    ensures |Zeros(k) + TooLong()| == k + 256 && Zeros(k) + TooLong() != Zeros(k + 256)
    ensures Distance(Zeros(k) + TooLong(), Zeros(k + 256)) == 2
  {
    hide Eval, TooLong, Exp;
    TooLongIsCodeword(n);
    var v, c := Zeros(k) + TooLong(), Zeros(k + 256);
    forall i: nat | i < n ensures Eval(v, Exp(i)) == ZERO && Eval(c, Exp(i)) == ZERO {
      EvalLeadingZeros(k, TooLong(), Exp(i));
      EvalZeros(k + 256, Exp(i));
    }
    assert c == Zeros(k) + Zeros(256);
    DistanceSamePrefix(Zeros(k), TooLong(), Zeros(256));
    assert v[k..] == TooLong() && c[k..] == Zeros(256);
  }

  lemma {:induction false} EvalLeadingZeros(k: nat, w: seq<Elem>, x: Elem)
    ensures Eval(Zeros(k) + w, x) == Eval(w, x)
  {
    hide Eval;
    var v := Zeros(k) + w;
    if k == 0 {
      assert v == w;
    } else {
      assert v[1..] == Zeros(k - 1) + w;
      EvalLeadingZero(v, x);
      EvalLeadingZeros(k - 1, w, x);
    }
  }

  lemma {:induction false} DistanceSamePrefix(p: seq<Elem>, v: seq<Elem>, c: seq<Elem>)
    requires |v| == |c|
    ensures Distance(p + v, p + c) == Distance(v, c)
  {
    if p == [] {
      assert p + v == v && p + c == c;
    } else {
      assert (p + v)[1..] == p[1..] + v && (p + c)[1..] == p[1..] + c;
      DistanceSamePrefix(p[1..], v, c);
    }
  }

  lemma {:induction false} DistanceTriangle(v: seq<Elem>, a: seq<Elem>, b: seq<Elem>)
    requires |v| == |a| == |b|
    ensures Distance(a, b) <= Distance(v, a) + Distance(v, b)
  {
    if v != [] { DistanceTriangle(v[1..], a[1..], b[1..]); }
  }

  lemma {:induction false} DistanceNone(a: seq<Elem>, b: seq<Elem>)
    requires |a| == |b|
    ensures Distance(a, b) == 0 <==> a == b
  {
    if a != [] {
      DistanceNone(a[1..], b[1..]);
      assert a == [a[0]] + a[1..] && b == [b[0]] + b[1..];
    }
  }

  /** No received word lies within `n / 2` changes of two different codewords. */
  ghost predicate UniquelyDecodable(length: nat, n: nat) {
    forall v, a, b :: NearCodeword(v, a, length, n) && NearCodeword(v, b, length, n) ==> a == b
  }

  ghost predicate NearCodeword(v: seq<Elem>, c: seq<Elem>, length: nat, n: nat) {
    |v| == |c| == length && IsCodeword(c, n) && Distance(v, c) <= n / 2
  }

  /** Half way between the two long codewords. */
  function HalfWay(k: nat): seq<Elem> { Zeros(k) + (Zeros(255) + [ONE]) }

  lemma HalfWayIsNear(k: nat, n: nat)
    requires n >= 2
    ensures NearCodeword(HalfWay(k), Zeros(k) + TooLong(), k + 256, n)
    ensures NearCodeword(HalfWay(k), Zeros(k + 256), k + 256, n)
  {
    hide IsCodeword;
    LongPair(k, n);
    DistanceZerosOne(255);
    assert Zeros(k + 256) == Zeros(k) + Zeros(256);
    DistanceSamePrefix(Zeros(k), Zeros(255) + [ONE], Zeros(256));
    DistanceSamePrefix(Zeros(k), Zeros(255) + [ONE], TooLong());
    HalfWayTail();
  }

  lemma HalfWayTail()
    ensures Distance(Zeros(255) + [ONE], TooLong()) == 1
  {
    var h, t := Zeros(255) + [ONE], TooLong();
    assert h[1..] == Zeros(254) + [ONE] && t[1..] == Zeros(254) + [ONE];
    DistanceNone(h[1..], t[1..]);
    assert h[0] == ZERO && t[0] == ONE;
  }

  /**
   Half as many errors as check bytes leave only one codeword to choose from exactly for words of
   at most 255 bytes, and for fewer than two check bytes, where no error is promised to be
   corrected. Beyond that no decoder can keep the promise.
   */
  lemma LengthLimit(length: nat, n: nat)
    ensures UniquelyDecodable(length, n) <==> length <= 255 || n < 2
  {
    hide IsCodeword, Distance, TooLong, HalfWay;
    if length <= 255 || n < 2 {
      forall v, a, b | NearCodeword(v, a, length, n) && NearCodeword(v, b, length, n) ensures a == b {
        DistanceTriangle(v, a, b);
        if a != b {
          DistanceNone(v, a);
          DistanceNone(v, b);
          MinimumDistance(a, b, n);
        }
      }
    } else {
      HalfWayIsNear(length - 256, n);
      LongPair(length - 256, n);
    }
  }
}
