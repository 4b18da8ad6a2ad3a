/**
 The tables of GF(256) as the decoder builds them, and the arithmetic read off them.
 */
module GaloisTables {
  import Doubling
  import opened GaloisField

  /** The source doubles in a wider word and subtracts the reduction polynomial on overflow. */
  function WideDouble(x: bv16): bv16 {
    var y := x << 1;
    if y >= 0x100 then y ^ 0x11d else y
  }

  lemma WideDoubleIsXtime(b: bv8)
    ensures WideDouble(b as bv16) == Doubling.Xtime(b) as bv16
  {
  }

  /** The first loop of the constructor. */
  method PowerTable() returns (table: seq<Elem>)
    ensures |table| == 256 && forall k :: 0 <= k < 256 ==> table[k] == Exp(k)
  {
    assert Exp(0) == Elem(1);
    var e := new Elem[256];
    var x: bv16 := 1;
    for i := 0 to 256
      invariant x == Exp(i).bits as bv16
      invariant forall k :: 0 <= k < i ==> e[k] == Exp(k)
    {
      hide *;
      NarrowBack(x, Exp(i));
      e[i] := Elem(x as bv8);
      NextPower(i);
      x := WideDouble(x);
    }
    table := e[..];
  }

  lemma NarrowBack(x: bv16, a: Elem)
    requires x == a.bits as bv16
    ensures x < 0x100 && Elem(x as bv8) == a
  {
    var y := a.bits as bv16;
    assert y < 0x100;
    assert y as bv8 == a.bits;
  }

  lemma NextPower(i: nat)
    ensures WideDouble(Exp(i).bits as bv16) == Exp(i + 1).bits as bv16
  {
    hide WideDouble, Doubling.Xtime;
    WideDoubleIsXtime(Exp(i).bits);
  }

  /** The second loop of the constructor. */
  method LogTable(e: seq<Elem>) returns (table: seq<nat>)
    requires |e| == 256 && forall k :: 0 <= k < 256 ==> e[k] == Exp(k)
    ensures |table| == 256 && forall a: Elem :: table[a.bits as int] == Log(a)
  {
    hide Exp, Log;
    var l := new nat[256](_ => 0);
    for i := 0 to 255
      invariant forall k: nat :: k < i ==> l[Exp(k).bits as int] == k
      invariant l[0] == 0
    {
      SlotIsFree(i);
      l[e[i].bits as int] := i;
    }
    table := l[..];
    forall a: Elem ensures table[a.bits as int] == Log(a) {
      if a != ZERO { assert l[Exp(Log(a)).bits as int] == Log(a); }
    }
  }

  class GF256 {
    const expTable: seq<Elem>
    const logTable: seq<nat>

    ghost predicate Valid() {
      && |expTable| == 256 && |logTable| == 256
      && (forall k :: 0 <= k < 256 ==> expTable[k] == Exp(k))
      && (forall a: Elem :: logTable[a.bits as int] == Log(a))
    }

    constructor ()
      ensures Valid()
    {
      hide Exp, Log;
      var e := PowerTable();
      var l := LogTable(e);
      expTable, logTable := e, l;
    }

    /** The product, with the shortcuts of the source. */
    method Multiply(a: Elem, b: Elem) returns (r: Elem)
      requires Valid()
      ensures r == Mul(a, b)
    {
      hide Exp, Log;
      if a == ZERO || b == ZERO { return ZERO; }
      if a == ONE { MulOne(b); return b; }
      if b == ONE { MulOne(a); return a; }
      r := expTable[(logTable[a.bits as int] + logTable[b.bits as int]) % 255];
    }

    /** The inverse; the source throws on zero. */
    method Inverse(a: Elem) returns (r: Elem)
      requires Valid() && a != ZERO
      ensures r == Inv(a)
    {
      hide Exp, Log;
      r := expTable[255 - logTable[a.bits as int]];
    }
  }

  /** Filling the logarithm of the next power touches no earlier entry. */
  lemma SlotIsFree(i: nat)
    requires i < 255
    ensures Exp(i).bits as int != 0
    ensures forall k: nat :: k < i ==> Exp(k).bits as int != Exp(i).bits as int
  {
    hide *;
    ExpNonZero(i);
    SameByte(Exp(i), ZERO);
    forall k: nat | k < i ensures Exp(k).bits as int != Exp(i).bits as int {
      SameByte(Exp(k), Exp(i));
      if Exp(k) == Exp(i) { ExpInjective(k, i); }
    }
  }

  lemma SameByte(a: Elem, b: Elem)
    ensures a.bits as int == b.bits as int <==> a == b
    ensures ZERO.bits as int == 0
  {
  }
}
