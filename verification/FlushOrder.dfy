/**
 The order in which a flush advances transactions that depend on each other: the successor
 graph built from the document queues, and the walk over its components.
 */
module FlushOrder {
  import opened TxnGraph
  import opened SortedIds
  import opened TarjanSpec
  import opened Tarjan
  import opened Tokens

  type Queues = map<DocKey, seq<Token>>

  /** The chain links `x` to `y` somewhere before position `n`. */
  ghost predicate Linked(c: seq<Id>, n: nat, x: Id, y: Id) {
    exists k :: 0 <= k < n && k + 1 < |c| && c[k] == x && c[k + 1] == y
  }

  ghost predicate Entered(c: seq<Id>, n: nat, x: Id) {
    n > 0 && exists k :: 0 <= k <= n && k < |c| && c[k] == x
  }

  ghost predicate IsSuccessor(m: map<Id, seq<Id>>, x: Id, y: Id) {
    x in m && y in m[x]
  }

  /** `m` holds the successors of `base` and those of the chain `c` up to position `n`. */
  ghost predicate Added(base: map<Id, seq<Id>>, c: seq<Id>, n: nat, m: map<Id, seq<Id>>) {
    && (forall x :: x in m <==> x in base || Entered(c, n, x))
    && (forall x, y :: IsSuccessor(m, x, y) <==> IsSuccessor(base, x, y) || Linked(c, n, x, y))
  }

  ghost predicate LeadsTo(m: map<Id, seq<Id>>, goal: Id) {
    exists x :: IsSuccessor(m, x, goal)
  }

  /** Adding one more link of the chain. */
  lemma AddLink(base: map<Id, seq<Id>>, c: seq<Id>, n: nat, m: map<Id, seq<Id>>, m': map<Id, seq<Id>>)
    requires Added(base, c, n, m) && n + 1 < |c|
    requires m'.Keys == m.Keys + {c[n], c[n + 1]}
    requires forall x, y :: IsSuccessor(m', x, y) <==> IsSuccessor(m, x, y) || (x == c[n] && y == c[n + 1])
    ensures Added(base, c, n + 1, m')
  {
    forall x ensures x in m' <==> x in base || Entered(c, n + 1, x) {
      if x == c[n] || x == c[n + 1] {
        assert Entered(c, n + 1, x);
      }
      if Entered(c, n + 1, x) {
        var k :| 0 <= k <= n + 1 && k < |c| && c[k] == x;
        if k <= n && n > 0 { assert Entered(c, n, x); }
      }
    }
    forall x, y ensures IsSuccessor(m', x, y) <==> IsSuccessor(base, x, y) || Linked(c, n + 1, x, y) {
      if Linked(c, n + 1, x, y) {
        var k :| 0 <= k < n + 1 && k + 1 < |c| && c[k] == x && c[k + 1] == y;
        if k < n { assert Linked(c, n, x, y); }
      }
    }
  }

  /** The last entry of the chain has no successor. */
  lemma AddLast(base: map<Id, seq<Id>>, c: seq<Id>, n: nat, m: map<Id, seq<Id>>, m': map<Id, seq<Id>>)
    requires Added(base, c, n, m) && n + 1 == |c|
    requires m'.Keys == m.Keys + {c[n]}
    requires forall x, y :: IsSuccessor(m', x, y) <==> IsSuccessor(m, x, y)
    ensures Added(base, c, n + 1, m')
  {
    forall x ensures x in m' <==> x in base || Entered(c, n + 1, x) {
      if x == c[n] {
        assert Entered(c, n + 1, x);
      }
      if Entered(c, n + 1, x) {
        var k :| 0 <= k <= n + 1 && k < |c| && c[k] == x;
        if k <= n && n > 0 { assert Entered(c, n, x); }
      }
    }
  }

  /** One more successor leads to the goal only if it is the goal. */
  lemma LeadsToAfter(m: map<Id, seq<Id>>, m': map<Id, seq<Id>>, u: Id, v: Id, goal: Id)
    requires forall x, y :: IsSuccessor(m', x, y) <==> IsSuccessor(m, x, y) || (x == u && y == v)
    ensures LeadsTo(m', goal) <==> LeadsTo(m, goal) || v == goal
  {
    assert IsSuccessor(m', u, v);
    if LeadsTo(m, goal) {
      var x :| IsSuccessor(m, x, goal);
      assert IsSuccessor(m', x, goal);
    }
  }

  lemma SameLeadsTo(m: map<Id, seq<Id>>, m': map<Id, seq<Id>>, goal: Id)
    requires forall x, y :: IsSuccessor(m', x, y) <==> IsSuccessor(m, x, y)
    ensures LeadsTo(m', goal) <==> LeadsTo(m, goal)
  {
  }

  lemma LeadsFrom(m: map<Id, seq<Id>>, x: Id, goal: Id)
    requires IsSuccessor(m, x, goal)
    ensures LeadsTo(m, goal)
  {
  }

  lemma AddedNothing(base: map<Id, seq<Id>>, c: seq<Id>)
    ensures Added(base, c, 0, base)
  {
  }

  lemma ChainNil(seen: map<Id, Nonce>)
    ensures Chain(seen, []) == []
  {
  }

  /** Adds the links of one queue. `ready` turns false when a new one leads to the goal. */
  method AddQueue(seen: map<Id, Nonce>, dqueue: seq<Token>, goal: Id, base: map<Id, seq<Id>>, wasReady: bool)
    returns (successors: map<Id, seq<Id>>, ready: bool)
    requires !wasReady <==> LeadsTo(base, goal)
    ensures Added(base, Chain(seen, dqueue), |Chain(seen, dqueue)|, successors)
    ensures !ready <==> LeadsTo(successors, goal)
  {
    hide Added, LeadsTo, Chain;
    ghost var c := Chain(seen, dqueue);
    AddedNothing(base, c);
    ChainNil(seen);
    successors, ready := base, wasReady;
    var i := 0;
    assert dqueue[..0] == [];
    while i < |dqueue|
      invariant 0 <= i <= |dqueue|
      invariant |Chain(seen, dqueue[..i])| <= |c| && Added(base, c, |Chain(seen, dqueue[..i])|, successors)
      invariant !ready <==> LeadsTo(successors, goal)
    {
      var pred := dqueue[i];
      ChainStep(seen, dqueue, i);
      if !Valid(seen, pred) {
        i := i + 1;
        continue;
      }
      ChainAt(seen, dqueue, i);
      ghost var n := |Chain(seen, dqueue[..i])|;
      ghost var before := successors;
      var predsuccids := if pred.id in successors then successors[pred.id] else [];
      if pred.id !in successors {
        successors := successors[pred.id := []];
      }
      var j := i + 1;
      while j < |dqueue| && !Valid(seen, dqueue[j])
        invariant i < j <= |dqueue|
        invariant Chain(seen, dqueue[..j]) == Chain(seen, dqueue[..i + 1])
      {
        ChainStep(seen, dqueue, j);
        j := j + 1;
      }
      if j < |dqueue| {
        var succid := dqueue[j].id;
        ChainAt(seen, dqueue, j);
        if succid !in successors {
          successors := successors[succid := []];
        }
        if succid !in predsuccids {
          successors := successors[pred.id := predsuccids + [succid]];
          if succid == goal {
            ready := false;
          }
        }
        assert IsSuccessor(successors, pred.id, succid);
        LeadsToAfter(before, successors, pred.id, succid, goal);
        if IsSuccessor(before, pred.id, goal) { LeadsFrom(before, pred.id, goal); }
        AddLink(base, c, n, before, successors);
        i := j;
      } else {
        assert dqueue[..j] == dqueue;
        SameLeadsTo(before, successors, goal);
        AddLast(base, c, n, before, successors);
        ChainStep(seen, dqueue, i);
        i := i + 1;
      }
    }
    assert dqueue[..i] == dqueue;
  }

  ghost predicate InQueues(seen: map<Id, Nonce>, queues: Queues, x: Id) {
    exists d :: d in queues && x in Chain(seen, queues[d])
  }

  /** Some queue holds a valid entry of `y` right behind one of `x`, leftovers aside. */
  ghost predicate Adjacent(seen: map<Id, Nonce>, queues: Queues, x: Id, y: Id) {
    exists d :: d in queues && Linked(Chain(seen, queues[d]), |Chain(seen, queues[d])|, x, y)
  }

  /** The successor graph of the queues. */
  ghost predicate IsQueueGraph(seen: map<Id, Nonce>, queues: Queues, m: map<Id, seq<Id>>) {
    && (forall x :: x in m <==> InQueues(seen, queues, x))
    && (forall x, y :: IsSuccessor(m, x, y) <==> Adjacent(seen, queues, x, y))
  }

  lemma {:induction false} OneMoreQueue(seen: map<Id, Nonce>, done: Queues, d: DocKey, q: seq<Token>,
      m: map<Id, seq<Id>>, m': map<Id, seq<Id>>)
    requires IsQueueGraph(seen, done, m) && d !in done
    requires Added(m, Chain(seen, q), |Chain(seen, q)|, m')
    ensures IsQueueGraph(seen, done[d := q], m')
  {
    var c := Chain(seen, q);
    var all := done[d := q];
    forall x ensures x in m' <==> InQueues(seen, all, x) {
      assert Entered(c, |c|, x) <==> x in c;
      if x in m {
        var e :| e in done && x in Chain(seen, done[e]);
        assert all[e] == done[e];
      }
      if x in c { assert all[d] == q; }
      if InQueues(seen, all, x) {
        var e :| e in all && x in Chain(seen, all[e]);
        if e != d { assert InQueues(seen, done, x); }
      }
    }
    forall x, y ensures IsSuccessor(m', x, y) <==> Adjacent(seen, all, x, y) {
      if Adjacent(seen, done, x, y) {
        var e :| e in done && Linked(Chain(seen, done[e]), |Chain(seen, done[e])|, x, y);
        assert all[e] == done[e];
      }
      if Linked(c, |c|, x, y) { assert all[d] == q; }
      if Adjacent(seen, all, x, y) {
        var e :| e in all && Linked(Chain(seen, all[e]), |Chain(seen, all[e])|, x, y);
        if e != d { assert Adjacent(seen, done, x, y); }
      }
    }
  }

  lemma NoQueues(seen: map<Id, Nonce>)
    ensures IsQueueGraph(seen, map[], map[])
    ensures forall goal :: !LeadsTo(map[], goal)
  {
  }

  /** Builds the successor lists from all queues, in whatever order the map yields them. */
  method BuildSuccessors(seen: map<Id, Nonce>, queues: Queues, goal: Id)
      returns (successors: map<Id, seq<Id>>, ready: bool)
    ensures IsQueueGraph(seen, queues, successors)
    ensures !ready <==> LeadsTo(successors, goal)
  {
    hide IsQueueGraph, Added, LeadsTo, Chain;
    successors, ready := map[], true;
    ghost var done: Queues := map[];
    var left := queues.Keys;
    NoQueues(seen);
    while left != {}
      invariant left <= queues.Keys && done == queues - left
      invariant IsQueueGraph(seen, done, successors)
      invariant !ready <==> LeadsTo(successors, goal)
      decreases left
    {
      var dkey :| dkey in left;
      ghost var before := successors;
      successors, ready := AddQueue(seen, queues[dkey], goal, successors, ready);
      OneMoreQueue(seen, done, dkey, queues[dkey], before, successors);
      left := left - {dkey};
      done := done[dkey := queues[dkey]];
    }
    assert done == queues;
  }

  // ---------------------------------------------------------------------------------------
  // What the graph means

  lemma {:induction false} GraphIsClosed(seen: map<Id, Nonce>, queues: Queues, m: map<Id, seq<Id>>)
    requires IsQueueGraph(seen, queues, m)
    ensures ClosedLists(m)
  {
    forall x, y | x in m && y in m[x] ensures y in m {
      assert IsSuccessor(m, x, y);
      var d :| d in queues && Linked(Chain(seen, queues[d]), |Chain(seen, queues[d])|, x, y);
      assert y in Chain(seen, queues[d]);
      assert InQueues(seen, queues, y);
    }
  }

  lemma {:induction false} ChainReach(seen: map<Id, Nonce>, queues: Queues, m: map<Id, seq<Id>>, d: DocKey, k: nat,
      l: nat)
    requires IsQueueGraph(seen, queues, m) && d in queues && k < l < |Chain(seen, queues[d])|
    ensures Reach(Edges(m), Chain(seen, queues[d])[k], Chain(seen, queues[d])[l])
    decreases l - k
  {
    var c := Chain(seen, queues[d]);
    var g := Edges(m);
    assert Linked(c, |c|, c[k], c[k + 1]);
    assert Adjacent(seen, queues, c[k], c[k + 1]);
    assert IsSuccessor(m, c[k], c[k + 1]);
    ReachEdge(g, c[k], c[k + 1]);
    if k + 1 < l {
      ChainReach(seen, queues, m, d, k + 1, l);
      ReachTrans(g, c[k], c[k + 1], c[l]);
    }
  }

  /** A valid predecessor in a queue reaches what comes behind it. */
  lemma {:induction false} PrecedesReach(seen: map<Id, Nonce>, queues: Queues, m: map<Id, seq<Id>>, d: DocKey, a: Id,
      b: Id)
    requires IsQueueGraph(seen, queues, m) && d in queues && Precedes(seen, queues[d], a, b)
    ensures a in m && b in m && Reach(Edges(m), a, b)
  {
    ChainKeepsOrder(seen, queues[d], a, b);
    var c := Chain(seen, queues[d]);
    var k, l :| 0 <= k < l < |c| && c[k] == a && c[l] == b;
    ChainReach(seen, queues, m, d, k, l);
    assert InQueues(seen, queues, a) && InQueues(seen, queues, b);
  }

  /** The goal has a successor edge into it exactly when some queue holds a valid entry ahead of it. */
  lemma {:induction false} LeadsToIffPreceded(seen: map<Id, Nonce>, queues: Queues, m: map<Id, seq<Id>>, goal: Id)
    requires IsQueueGraph(seen, queues, m)
    ensures LeadsTo(m, goal) <==> exists d, a :: d in queues && Precedes(seen, queues[d], a, goal)
  {
    if LeadsTo(m, goal) {
      var x :| IsSuccessor(m, x, goal);
      var d :| d in queues && Linked(Chain(seen, queues[d]), |Chain(seen, queues[d])|, x, goal);
      ChainShowsOrder(seen, queues[d], x, goal);
    }
    if d, a :| d in queues && Precedes(seen, queues[d], a, goal) {
      ChainKeepsOrder(seen, queues[d], a, goal);
      var c := Chain(seen, queues[d]);
      var k, l :| 0 <= k < l < |c| && c[k] == a && c[l] == goal;
      assert Linked(c, |c|, c[l - 1], goal);
      assert Adjacent(seen, queues, c[l - 1], goal);
      assert IsSuccessor(m, c[l - 1], goal);
    }
  }
}
