/**
 The Reed-Solomon encoder: generator polynomials kept in a growing cache, and check bytes as the
 remainder of a long division.
 */
module RsEncoder {
  import opened GaloisField
  import opened GaloisTables
  import opened Polynomials
  import opened PolynomialOps
  import opened Codewords
  import ErrorPolynomials

  /** The product of x - 2^i for i below n. */
  ghost function Generator(n: nat): Poly {
    if n == 0 then Single(ONE) else Times(Generator(n - 1), [ONE, Exp(n - 1)])
  }

  lemma GeneratorUnfold(n: nat)
    ensures Generator(0) == Single(ONE)
    ensures n > 0 ==> Generator(n) == Times(Generator(n - 1), [ONE, Exp(n - 1)])
  {
    hide Times, Exp;
  }

  lemma EvalRoot(a: Elem, x: Elem)
    ensures Eval([ONE, a], x) == Add(a, x)
  {
    hide Add, Mul, Eval;
    EvalLast([ONE, a], x);
    assert [ONE, a][..1] == [ONE];
    EvalLast([ONE], x);
    assert [ONE][..0] == [];
    EvalLast([], x);
    MulZero(x);
    AddLaws(ONE, ZERO);
    MulOne(x);
  }

  lemma {:induction false} GeneratorLength(n: nat)
    ensures |Generator(n)| == n + 1
  {
    hide Generator, Times, Exp;
    GeneratorUnfold(n);
    if n > 0 {
      GeneratorLength(n - 1);
      TimesLength(Generator(n - 1), [ONE, Exp(n - 1)]);
    }
  }

  /** The generator vanishes exactly at the powers it was built from. */
  lemma {:induction false} GeneratorRoots(n: nat, x: Elem)
    ensures Eval(Generator(n), x) == ZERO <==> exists i: nat :: i < n && x == Exp(i)
  {
    hide Generator, Times, Exp, Eval, Mul, Add;
    GeneratorUnfold(n);
    if n == 0 {
      ErrorPolynomials.EvalSingle(ONE, x);
    } else {
      GeneratorRoots(n - 1, x);
      var a := Exp(n - 1);
      EvalTimes(Generator(n - 1), [ONE, a], x);
      EvalRoot(a, x);
      AddLaws(a, x);
      MulNonZero(Eval(Generator(n - 1), x), Add(a, x));
    }
  }

  /** The global cache of generators, one for each degree so far. */
  class GeneratorCache {
    var cached: seq<Coeffs>

    ghost predicate Valid()
      reads this
    {
      |cached| > 0 && forall d: nat :: d < |cached| ==> Value(cached[d]) == Generator(d)
    }

    constructor ()
      ensures Valid()
    {
      cached := [[ONE]];
    }

    /** Extends the cache as far as needed; entries already there stay. */
    method BuildGenerator(field: GF256, degree: nat) returns (g: Coeffs)
      requires field.Valid() && Valid() && degree <= 256
      modifies this
      ensures Valid() && old(cached) <= cached && degree < |cached|
      ensures Value(g) == Generator(degree)
    {
      hide Generator, Times, Exp, Log, Value;
      while degree >= |cached|
        invariant Valid() && old(cached) <= cached
      {
        var d := |cached| - 1;
        var lastGenerator := cached[d];
        var factor := Normalise([ONE, field.expTable[d]]);
        FactorValue(field.expTable[d]);
        GeneratorUnfold(d + 1);
        var next := Multiply(field, lastGenerator, factor);
        cached := cached + [next];
      }
      g := cached[degree];
    }
  }

  lemma FactorValue(a: Elem)
    ensures Trim([ONE, a]) == [ONE, a]
  {
  }

  // ---------------------------------------------------------------------------------------
  // Check bytes

  /** `r` with zeros in front, filling n bytes. */
  lemma Padded(data: seq<Elem>, r: Coeffs, ec: seq<Elem>)
    requires |r| <= |ec| && ec == Zeros(|ec| - |r|) + r
    ensures Trim(data + ec) == Sum(Shift(Trim(data), |ec|), Value(r))
  {
    hide Trim, Sum, Shift, Add, Value;
    var n := |ec|;
    forall k: nat ensures Coef(Trim(data + ec), k) == Coef(Sum(Shift(Trim(data), n), Value(r)), k) {
      CoefTrim(data + ec, k);
      CoefSum(Shift(Trim(data), n), Value(r), k);
      CoefShift(Trim(data), n, k);
      CoefValue(r, k);
      if k >= n {
        CoefTrim(data, k - n);
        assert Coef(data + ec, k) == Coef(data, k - n);
        AddLaws(Coef(data, k - n), ZERO);
      } else {
        assert Coef(data + ec, k) == Coef(ec, k) == Coef(r, k);
        AddLaws(Coef(r, k), ZERO);
      }
    }
    PolyEq(Trim(data + ec), Sum(Shift(Trim(data), n), Value(r)));
  }

  /** A multiple of the generator vanishes where the generator does. */
  lemma MultipleIsCodeword(w: seq<Elem>, q: Poly, n: nat)
    requires Trim(w) == Times(q, Generator(n))
    ensures IsCodeword(w, n)
  {
    hide Trim, Times, Generator, Eval, Exp, Mul;
    forall i: nat | i < n ensures Eval(w, Exp(i)) == ZERO {
      EvalTrim(w, Exp(i));
      EvalTimes(q, Generator(n), Exp(i));
      GeneratorRoots(n, Exp(i));
      MulZero(Eval(q, Exp(i)));
    }
  }

  method FillFromEnd(remainder: Coeffs, n: nat) returns (ec: seq<Elem>)
    requires |remainder| <= n
    ensures ec == Zeros(n - |remainder|) + remainder
  {
    var bytes := new Elem[n];
    var numZeroCoefficients := n - |remainder|;
    for i := 0 to numZeroCoefficients
      invariant forall k :: 0 <= k < i ==> bytes[k] == ZERO
    {
      bytes[i] := ZERO;
    }
    for i := 0 to |remainder|
      invariant forall k :: 0 <= k < numZeroCoefficients ==> bytes[k] == ZERO
      invariant forall k :: 0 <= k < i ==> bytes[numZeroCoefficients + k] == remainder[k]
    {
      bytes[numZeroCoefficients + i] := remainder[i];
    }
    ec := bytes[..];
  }

  /**
   The check bytes for a block: data followed by them is a codeword. The source refuses an
   empty block and no check bytes, and its table of powers ends at 256.
   */
  method GenerateECBytes(field: GF256, cache: GeneratorCache, data: seq<Elem>, n: nat)
    returns (ec: seq<Elem>)
    requires field.Valid() && cache.Valid() && |data| > 0 && 1 <= n <= 256
    modifies cache
    ensures cache.Valid() && |ec| == n && IsCodeword(data + ec, n)
  {
    hide *;
    var generator := cache.BuildGenerator(field, n);
    GeneratorLength(n);
    LeadNonZero(generator, n);
    var block := Normalise(data);
    var info := MultiplyByMonomial(field, block, n, ONE);
    TimesPower(n, Trim(data));
    var quotient, remainder := Divide(field, info, generator);
    RemainderFits(remainder, n);
    ec := FillFromEnd(remainder, n);
    Padded(data, remainder, ec);
    SumCancel(Times(Value(quotient), Value(generator)), Value(remainder));
    MultipleIsCodeword(data + ec, Value(quotient), n);
  }

  lemma LeadNonZero(c: Coeffs, n: nat)
    requires |Value(c)| == n + 1
    ensures c[0] != ZERO
  {
  }

  lemma RemainderFits(r: Coeffs, n: nat)
    requires |Value(r)| < n + 1 && n > 0
    ensures |r| <= n
  {
  }

  /** The check bytes are the only ones that make the block a codeword. */
  lemma CheckBytesUnique(data: seq<Elem>, ec: seq<Elem>, ec': seq<Elem>, n: nat)
    requires |ec| == |ec'| == n && |data| + n <= 255
    requires IsCodeword(data + ec, n) && IsCodeword(data + ec', n)
    ensures ec == ec'
  {
    hide IsCodeword;
    if data + ec != data + ec' {
      MinimumDistance(data + ec, data + ec', n);
      DistanceSuffix(data, ec, ec');
      assert false;
    }
    assert ec == (data + ec)[|data|..];
    assert ec' == (data + ec')[|data|..];
  }

  lemma {:induction false} DistanceAtMost(v: seq<Elem>, c: seq<Elem>)
    requires |v| == |c|
    ensures Distance(v, c) <= |v|
  {
    if v != [] { DistanceAtMost(v[1..], c[1..]); }
  }

  lemma {:induction false} DistanceSuffix(p: seq<Elem>, v: seq<Elem>, c: seq<Elem>)
    requires |v| == |c|
    ensures Distance(p + v, p + c) <= |v|
  {
    if p == [] {
      assert p + v == v && p + c == c;
      DistanceAtMost(v, c);
    } else {
      assert (p + v)[1..] == p[1..] + v && (p + c)[1..] == p[1..] + c;
      DistanceSuffix(p[1..], v, c);
    }
  }
}
