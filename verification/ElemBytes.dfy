/** Field elements as numbers below 256, and the other way. */
module ElemBytes {
  import opened GaloisField

  function NumberOf(a: Elem): (n: nat)
    ensures n < 256
  {
    a.bits as int
  }

  function ElemOf(n: nat): Elem
    requires n < 256
  {
    Elem(n as bv8)
  }

  lemma Narrow(i: nat)
    requires i < 256
    ensures (i as bv8) as int == i
  {
    var b := ByteFor(i);
    BackToByte(b);
  }

  /** The byte that stands for `i`, counted up to from 0. */
  lemma {:induction false} ByteFor(i: nat) returns (b: bv8)
    requires i < 256
    ensures b as int == i
  {
    if i == 0 {
      b := 0;
    } else {
      var c := ByteFor(i - 1);
      NextByte(c);
      b := c + 1;
    }
  }

  lemma NextByte(c: bv8)
    requires c as int < 255
    ensures (c + 1) as int == c as int + 1
  {
  }

  lemma BackToByte(b: bv8)
    ensures (b as int) as bv8 == b
  {
  }

  lemma NumberBack(n: nat)
    requires n < 256
    ensures NumberOf(ElemOf(n)) == n
  {
    Narrow(n);
  }

  lemma ElemBack(a: Elem)
    ensures ElemOf(NumberOf(a)) == a
  {
    BackToByte(a.bits);
  }

  function Numbers(es: seq<Elem>): (ns: seq<nat>)
    ensures |ns| == |es| && forall k :: 0 <= k < |ns| ==> ns[k] == NumberOf(es[k]) && ns[k] < 256
  {
    seq(|es|, k requires 0 <= k < |es| => NumberOf(es[k]))
  }

  function Elems(ns: seq<nat>): (es: seq<Elem>)
    requires forall k :: 0 <= k < |ns| ==> ns[k] < 256
    ensures |es| == |ns| && forall k :: 0 <= k < |ns| ==> es[k] == ElemOf(ns[k])
  {
    seq(|ns|, k requires 0 <= k < |ns| => ElemOf(ns[k]))
  }

  lemma NumbersBack(ns: seq<nat>)
    requires forall k :: 0 <= k < |ns| ==> ns[k] < 256
    ensures Numbers(Elems(ns)) == ns
  {
    hide NumberOf, ElemOf;
    forall k | 0 <= k < |ns| ensures NumberOf(ElemOf(ns[k])) == ns[k] { NumberBack(ns[k]); }
  }

  lemma ElemsBack(es: seq<Elem>)
    ensures Elems(Numbers(es)) == es
  {
    hide NumberOf, ElemOf;
    forall k | 0 <= k < |es| ensures ElemOf(NumberOf(es[k])) == es[k] { ElemBack(es[k]); }
  }
}
