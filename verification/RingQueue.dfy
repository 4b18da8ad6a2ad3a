/** The ring-buffer queue, as a first-in first-out sequence. */
module RingQueue {

  datatype Option<T> = None | Some(value: T)

  /** The index after wrapping around once. */
  function Wrap(i: nat, cap: nat): nat { if i < cap then i else i - cap }

  lemma WrapIsRemainder(i: nat, cap: nat)
    requires cap > 0 && i < 2 * cap
    ensures i % cap == Wrap(i, cap) < cap
  {
    if i >= cap { assert i % cap == (i - cap) % cap; }
  }

  /** The k-th slot from `popi` on. */
  function Slot<T>(e: seq<Option<T>>, popi: nat, k: nat): Option<T> {
    if popi < |e| && k < |e| then e[Wrap(popi + k, |e|)] else None
  }

  ghost predicate Holds<T>(e: seq<Option<T>>, popi: nat, n: nat) {
    && n <= |e| && (n > 0 ==> popi < |e|)
    && forall k :: 0 <= k < n ==> Slot(e, popi, k).Some?
  }

  /** The elements held, oldest first. */
  ghost function Items<T>(e: seq<Option<T>>, popi: nat, n: nat): (s: seq<T>)
    requires Holds(e, popi, n)
    ensures |s| == n
  {
    seq(n, k requires 0 <= k < n => Slot(e, popi, k).value)
  }

  lemma PushItems<T>(e: seq<Option<T>>, popi: nat, n: nat, x: T)
    requires Holds(e, popi, n) && n < |e| && popi < |e|
    ensures Wrap(popi + n, |e|) < |e|
    ensures
      var e' := e[Wrap(popi + n, |e|) := Some(x)];
      Holds(e', popi, n + 1) && Items(e', popi, n + 1) == Items(e, popi, n) + [x]
  {
    var e' := e[Wrap(popi + n, |e|) := Some(x)];
    assert forall k :: 0 <= k < n ==> Slot(e', popi, k) == Slot(e, popi, k);
    assert Slot(e', popi, n) == Some(x);
  }

  lemma PopItems<T>(e: seq<Option<T>>, popi: nat, n: nat)
    requires Holds(e, popi, n) && n > 0
    ensures
      var e', next := e[popi := None], Wrap(popi + 1, |e|);
      Holds(e', next, n - 1) && e[popi] == Some(Items(e, popi, n)[0]) &&
        Items(e', next, n - 1) == Items(e, popi, n)[1..]
  {
    var e', next := e[popi := None], Wrap(popi + 1, |e|);
    assert Slot(e, popi, 0) == e[popi];
    forall k | 0 <= k < n - 1 ensures Slot(e', next, k) == Slot(e, popi, k + 1) { }
  }

  /** A full ring unrolled into a longer one: the wrapped part in front, the rest at the end. */
  lemma ExpandItems<T>(e: seq<Option<T>>, popi: nat, bigger: seq<Option<T>>)
    requires Holds(e, popi, |e|) && 0 < popi < |e| < |bigger|
    requires forall k :: 0 <= k < popi ==> bigger[k] == e[k]
    requires forall k :: popi <= k < |e| ==> bigger[k + (|bigger| - |e|)] == e[k]
    ensures
      var newpopi := popi + (|bigger| - |e|);
      Holds(bigger, newpopi, |e|) && Items(bigger, newpopi, |e|) == Items(e, popi, |e|)
      && Wrap(newpopi + |e|, |bigger|) == popi
  {
    var newpopi := popi + (|bigger| - |e|);
    forall k | 0 <= k < |e| ensures Slot(bigger, newpopi, k) == Slot(e, popi, k) {
      if popi + k < |e| { assert bigger[newpopi + k] == e[popi + k]; }
    }
  }

  lemma UnrollItems<T>(e: seq<Option<T>>, bigger: seq<Option<T>>)
    requires Holds(e, 0, |e|) && |e| < |bigger| && forall k :: 0 <= k < |e| ==> bigger[k] == e[k]
    ensures Holds(bigger, 0, |e|) && Items(bigger, 0, |e|) == Items(e, 0, |e|)
  {
    assert forall k :: 0 <= k < |e| ==> Slot(bigger, 0, k) == Slot(e, 0, k);
  }

  class Queue<T> {
    var elems: array<Option<T>>
    var nelems: nat
    var popi: nat
    var pushi: nat

    constructor ()
      ensures Valid() && Contents() == [] && fresh(elems)
    {
      elems := new Option<T>[0];
      nelems, popi, pushi := 0, 0, 0;
    }

    ghost predicate Valid()
      reads this, elems
    {
      && nelems <= elems.Length && Holds(elems[..], popi, nelems)
      && (elems.Length == 0 ==> popi == pushi == 0)
      && (elems.Length > 0 ==> popi < elems.Length && pushi == Wrap(popi + nelems, elems.Length))
    }

    ghost function Contents(): (s: seq<T>)
      requires Valid()
      reads this, elems
      ensures |s| == nelems
    {
      Items(elems[..], popi, nelems)
    }

    method Push(elem: T)
      requires Valid()
      modifies this, elems
      ensures Valid() && Contents() == old(Contents()) + [elem]
      ensures elems == old(elems) || fresh(elems)
    {
      hide Holds, Items;
      if nelems == elems.Length { Expand(); }
      PushItems(elems[..], popi, nelems, elem);
      ghost var pushed := elems[..][pushi := Some(elem)];
      elems[pushi] := Some(elem);
      assert elems[..] == pushed;
      WrapIsRemainder(pushi + 1, elems.Length);
      pushi := (pushi + 1) % elems.Length;
      nelems := nelems + 1;
    }

    method Pop() returns (elem: Option<T>)
      requires Valid()
      modifies this, elems
      ensures Valid() && elems == old(elems)
      ensures old(Contents()) == [] ==> elem == None && Contents() == []
      ensures old(Contents()) != [] ==> elem == Some(old(Contents())[0]) && Contents() == old(Contents())[1..]
    {
      hide Items;
      if nelems == 0 { return None; }
      PopItems(elems[..], popi, nelems);
      elem := elems[popi];
      ghost var popped := elems[..][popi := None];
      elems[popi] := None;
      assert elems[..] == popped;
      WrapIsRemainder(popi + 1, elems.Length);
      popi := (popi + 1) % elems.Length;
      nelems := nelems - 1;
    }

    /** Makes room when full; what wrapped around stays in front, the rest moves to the end. */
    method Expand()
      requires Valid() && nelems == elems.Length
      modifies this, elems
      ensures Valid() && Contents() == old(Contents()) && fresh(elems) && elems.Length > nelems == old(nelems)
    {
      hide Holds, Items, Slot;
      var curcap := elems.Length;
      var newcap := NewCapacity(curcap);
      var bigger := new Option<T>[newcap](_ => None);
      if popi == 0 {
        Copy(bigger, 0, elems[..]);
        UnrollItems(elems[..], bigger[..]);
        pushi := curcap;
      } else {
        var newpopi := newcap - (curcap - popi);
        CopySplit(bigger, elems[..], popi);
        ExpandItems(elems[..], popi, bigger[..]);
        popi := newpopi;
      }
      elems := bigger;
    }

    /** The first `popi` slots to the front of the array, the others to its end. */
    static method CopySplit(bigger: array<Option<T>>, e: seq<Option<T>>, popi: nat)
      requires popi <= |e| <= bigger.Length
      modifies bigger
      ensures forall k :: 0 <= k < popi ==> bigger[..][k] == e[k]
      ensures forall k :: popi <= k < |e| ==> bigger[..][k + (bigger.Length - |e|)] == e[k]
    {
      Copy(bigger, 0, e[..popi]);
      Copy(bigger, bigger.Length - (|e| - popi), e[popi..]);
    }

    static method Copy(a: array<Option<T>>, at: nat, s: seq<Option<T>>)
      requires at + |s| <= a.Length
      modifies a
      ensures forall k :: 0 <= k < a.Length ==> a[k] == if at <= k < at + |s| then s[k - at] else old(a[k])
    {
      for i := 0 to |s|
        invariant forall k :: 0 <= k < a.Length ==> a[k] == if at <= k < at + i then s[k - at] else old(a[k])
      {
        a[at + i] := s[i];
      }
    }
  }

  function NewCapacity(curcap: nat): (newcap: nat)
    ensures newcap > curcap
  {
    if curcap == 0 then 8 else if curcap < 1024 then curcap * 2 else curcap + curcap / 4
  }
}
