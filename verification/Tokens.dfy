/** Transaction tokens in document queues, and which of them count. */
module Tokens {
  import opened TxnGraph

  type DocKey = nat

  /** A nonce; zero stands for the empty string of a transaction that has none. */
  type Nonce = nat

  /** The queue entry of a transaction: its id and the nonce it was prepared with. */
  datatype Token = Token(id: Id, nonce: Nonce)

  datatype Option<T> = None | Some(value: T)

  /** An entry counts when it carries the nonce saved in its transaction. */
  predicate Valid(seen: map<Id, Nonce>, t: Token) {
    t.id in seen && seen[t.id] == t.nonce
  }

  /** The transactions with a valid entry in `q`, in queue order. */
  ghost function Chain(seen: map<Id, Nonce>, q: seq<Token>): (r: seq<Id>)
    ensures forall x :: x in r <==> exists i :: 0 <= i < |q| && Valid(seen, q[i]) && q[i].id == x
    ensures |r| <= |q|
  {
    if q == [] then [] else
      var rest := Chain(seen, q[..|q| - 1]);
      var last := q[|q| - 1];
      assert q == q[..|q| - 1] + [last];
      if Valid(seen, last) then rest + [last.id] else rest
  }

  lemma {:induction false} ChainSplit(seen: map<Id, Nonce>, a: seq<Token>, b: seq<Token>)
    ensures Chain(seen, a + b) == Chain(seen, a) + Chain(seen, b)
  {
    if b == [] {
      assert a + b == a;
    } else {
      assert (a + b)[..|a + b| - 1] == a + b[..|b| - 1];
      ChainSplit(seen, a, b[..|b| - 1]);
    }
  }

  /** A valid entry of `a` comes before a valid entry of `b` in `q`. */
  ghost predicate Precedes(seen: map<Id, Nonce>, q: seq<Token>, a: Id, b: Id) {
    exists i, j :: 0 <= i < j < |q| && Valid(seen, q[i]) && Valid(seen, q[j]) && q[i].id == a && q[j].id == b
  }

  ghost predicate PrecedesInChain(c: seq<Id>, a: Id, b: Id) {
    exists k, l :: 0 <= k < l < |c| && c[k] == a && c[l] == b
  }

  lemma ChainStep(seen: map<Id, Nonce>, q: seq<Token>, i: nat)
    requires i < |q|
    ensures Chain(seen, q[..i + 1]) == Chain(seen, q[..i]) + (if Valid(seen, q[i]) then [q[i].id] else [])
  {
    assert q[..i + 1][..i] == q[..i];
  }

  /** Where a valid entry stands in the chain. */
  lemma {:induction false} ChainAt(seen: map<Id, Nonce>, q: seq<Token>, i: nat)
    requires i < |q| && Valid(seen, q[i])
    ensures |Chain(seen, q[..i])| < |Chain(seen, q)|
    ensures Chain(seen, q)[|Chain(seen, q[..i])|] == q[i].id
  {
    ChainStep(seen, q, i);
    assert q == q[..i + 1] + q[i + 1..];
    ChainSplit(seen, q[..i + 1], q[i + 1..]);
  }

  lemma {:induction false} ChainMonotone(seen: map<Id, Nonce>, q: seq<Token>, i: nat, j: nat)
    requires i < j <= |q| && Valid(seen, q[i])
    ensures |Chain(seen, q[..i])| < |Chain(seen, q[..j])|
  {
    ChainStep(seen, q, i);
    assert q[..j] == q[..i + 1] + q[i + 1..j];
    ChainSplit(seen, q[..i + 1], q[i + 1..j]);
  }

  lemma {:induction false} ChainKeepsOrder(seen: map<Id, Nonce>, q: seq<Token>, a: Id, b: Id)
    requires Precedes(seen, q, a, b)
    ensures PrecedesInChain(Chain(seen, q), a, b)
  {
    var i, j :| 0 <= i < j < |q| && Valid(seen, q[i]) && Valid(seen, q[j]) && q[i].id == a && q[j].id == b;
    ChainAt(seen, q, i);
    ChainAt(seen, q, j);
    ChainMonotone(seen, q, i, j);
  }

  /** Each position of the chain is that of a valid entry, and later positions are later entries. */
  lemma {:induction false} ChainFrom(seen: map<Id, Nonce>, q: seq<Token>, k: nat) returns (i: nat)
    requires k < |Chain(seen, q)|
    ensures i < |q| && Valid(seen, q[i]) && q[i].id == Chain(seen, q)[k] && |Chain(seen, q[..i])| == k
  {
    var init := q[..|q| - 1];
    if k < |Chain(seen, init)| {
      i := ChainFrom(seen, init, k);
      assert init[..i] == q[..i];
    } else {
      i := |q| - 1;
    }
  }

  lemma {:induction false} ChainShowsOrder(seen: map<Id, Nonce>, q: seq<Token>, a: Id, b: Id)
    requires PrecedesInChain(Chain(seen, q), a, b)
    ensures Precedes(seen, q, a, b)
  {
    var k, l :| 0 <= k < l < |Chain(seen, q)| && Chain(seen, q)[k] == a && Chain(seen, q)[l] == b;
    var i := ChainFrom(seen, q, k);
    var j := ChainFrom(seen, q, l);
    if j < i { ChainMonotone(seen, q, j, i); }
  }

  ghost predicate DistinctTokens(q: seq<Token>) {
    forall i, j :: 0 <= i < j < |q| ==> q[i] != q[j]
  }

  // ---------------------------------------------------------------------------------------

  /** The entries an update removes: everything up to the last valid entry of a transaction in
      `pull`, and after that the leftover entries of such transactions. */
  function Pulled(q: seq<Token>, pull: map<Id, Nonce>, dontPull: Option<Token>): seq<Token> {
    if q == [] then [] else
      var last := q[|q| - 1];
      if last.id !in pull then Pulled(q[..|q| - 1], pull, dontPull)
      else if pull[last.id] == last.nonce then (if dontPull == Some(last) then q[..|q| - 1] else q)
      else [last] + Pulled(q[..|q| - 1], pull, dontPull)
  }

  method TokensToPull(dqueue: seq<Token>, pull: map<Id, Nonce>, dontPull: Option<Token>) returns (result: seq<Token>)
    ensures result == Pulled(dqueue, pull, dontPull)
  {
    result := [];
    var j := |dqueue| - 1;
    assert dqueue[..j + 1] == dqueue;
    while j >= 0
      invariant -1 <= j < |dqueue|
      invariant result + Pulled(dqueue[..j + 1], pull, dontPull) == Pulled(dqueue, pull, dontPull)
    {
      var dtt := dqueue[j];
      assert dqueue[..j + 1][..j] == dqueue[..j];
      if dtt.id in pull {
        if pull[dtt.id] == dtt.nonce {
          if Some(dtt) == dontPull {
            j := j - 1;
          }
          result := result + dqueue[..j + 1];
          return;
        }
        result := result + [dtt];
      }
      j := j - 1;
    }
  }

  /** The last valid entry of a transaction in `pull`. */
  ghost predicate LastOf(q: seq<Token>, pull: map<Id, Nonce>, j: nat) {
    j < |q| && Valid(pull, q[j]) && forall l :: j < l < |q| ==> !Valid(pull, q[l])
  }

  /** Entry `i` is ahead of that one, is that one and not to be kept, or is an outdated entry of a
      transaction in `pull` behind it. */
  ghost predicate Taken(q: seq<Token>, pull: map<Id, Nonce>, dontPull: Option<Token>, i: nat)
    requires i < |q|
  {
    || (exists j :: i < j && LastOf(q, pull, j))
    || (LastOf(q, pull, i) && dontPull != Some(q[i]))
    || (q[i].id in pull && forall l :: i <= l < |q| ==> !Valid(pull, q[l]))
  }

  lemma TakenBefore(q: seq<Token>, pull: map<Id, Nonce>, dontPull: Option<Token>, i: nat)
    requires i < |q| - 1 && !Valid(pull, q[|q| - 1])
    ensures Taken(q, pull, dontPull, i) <==> Taken(q[..|q| - 1], pull, dontPull, i)
  {
    var init := q[..|q| - 1];
    forall j: nat ensures LastOf(q, pull, j) <==> LastOf(init, pull, j) {
      if LastOf(init, pull, j) {
        forall l | j < l < |q| ensures !Valid(pull, q[l]) { if l < |init| { assert q[l] == init[l]; } }
      }
      if LastOf(q, pull, j) {
        forall l | j < l < |init| ensures !Valid(pull, init[l]) { assert q[l] == init[l]; }
      }
    }
    if forall l :: i <= l < |init| ==> !Valid(pull, init[l]) {
      forall l | i <= l < |q| ensures !Valid(pull, q[l]) { if l < |init| { assert q[l] == init[l]; } }
    }
    if forall l :: i <= l < |q| ==> !Valid(pull, q[l]) {
      forall l | i <= l < |init| ensures !Valid(pull, init[l]) { assert q[l] == init[l]; }
    }
  }

  /** Exactly the entries that go. */
  lemma {:induction false} PulledIff(q: seq<Token>, pull: map<Id, Nonce>, dontPull: Option<Token>, t: Token)
    ensures t in Pulled(q, pull, dontPull) <==> exists i :: 0 <= i < |q| && q[i] == t && Taken(q, pull, dontPull, i)
  {
    if q != [] {
      var n := |q| - 1;
      var init := q[..n];
      if Valid(pull, q[n]) {
        assert LastOf(q, pull, n);
        forall i | 0 <= i < n ensures Taken(q, pull, dontPull, i) { }
        if dontPull == Some(q[n]) && t in init {
          var i :| 0 <= i < |init| && init[i] == t;
          assert q[i] == t;
        }
      } else {
        PulledIff(init, pull, dontPull, t);
        forall i: nat | i < n ensures Taken(q, pull, dontPull, i) <==> Taken(init, pull, dontPull, i) {
          TakenBefore(q, pull, dontPull, i);
        }
        assert Taken(q, pull, dontPull, n) <==> q[n].id in pull;
        if t in Pulled(init, pull, dontPull) {
          var i :| 0 <= i < n && init[i] == t && Taken(init, pull, dontPull, i);
          assert q[i] == t;
        }
        if i :| 0 <= i < |q| && q[i] == t && Taken(q, pull, dontPull, i) && i < n {
          assert init[i] == t;
        }
      }
    }
  }

  /** A valid entry is removed only with, or ahead of, a valid entry of a pulled transaction. */
  lemma {:induction false} PulledValid(seen: map<Id, Nonce>, q: seq<Token>, pull: map<Id, Nonce>,
      dontPull: Option<Token>, t: Token)
    requires forall x :: x in pull ==> x in seen && seen[x] == pull[x]
    requires t in Pulled(q, pull, dontPull) && Valid(seen, t)
    ensures t in q
    ensures t.id in pull || exists b :: b in pull && Precedes(seen, q, t.id, b)
    ensures dontPull == Some(t) && DistinctTokens(q) ==>
      exists b :: b in pull && b != t.id && Precedes(seen, q, t.id, b)
  {
    var last := q[|q| - 1];
    var init := q[..|q| - 1];
    assert q == init + [last];
    if last.id in pull && pull[last.id] == last.nonce {
      var i :| 0 <= i < |q| && q[i] == t;
      if i < |q| - 1 {
        assert Precedes(seen, q, t.id, last.id);
      }
    } else {
      assert last.id in pull ==> last != t;
      PulledValid(seen, init, pull, dontPull, t);
      forall b | Precedes(seen, init, t.id, b) ensures Precedes(seen, q, t.id, b) {
        var i, j :| 0 <= i < j < |init| && Valid(seen, init[i]) && Valid(seen, init[j]) && init[i].id == t.id &&
          init[j].id == b;
        assert q[i] == init[i] && q[j] == init[j];
      }
    }
  }
}
