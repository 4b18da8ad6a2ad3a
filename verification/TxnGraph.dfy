/** Finite directed graphs of transaction ids, and reachability in them. */
module TxnGraph {

  /** A transaction id. The source compares its 12-byte strings; only that order matters. */
  type Id = nat

  type Graph = map<Id, set<Id>>

  /** Every successor is itself a node. */
  ghost predicate Closed(g: Graph) {
    forall x, y :: x in g && y in g[x] ==> y in g
  }

  ghost predicate EdgeAt(g: Graph, p: seq<Id>, i: nat)
    requires i + 1 < |p|
  {
    p[i] in g && p[i + 1] in g[p[i]]
  }

  ghost predicate IsPath(g: Graph, p: seq<Id>) {
    && |p| >= 1
    && forall i :: 0 <= i < |p| - 1 ==> EdgeAt(g, p, i)
  }

  ghost predicate PathFromTo(g: Graph, p: seq<Id>, x: Id, y: Id) {
    IsPath(g, p) && p[0] == x && p[|p| - 1] == y
  }

  ghost predicate Reach(g: Graph, x: Id, y: Id) {
    exists p :: PathFromTo(g, p, x, y)
  }

  lemma ReachRefl(g: Graph, x: Id)
    ensures Reach(g, x, x)
  {
    assert PathFromTo(g, [x], x, x);
  }

  lemma ReachEdge(g: Graph, x: Id, y: Id)
    requires x in g && y in g[x]
    ensures Reach(g, x, y)
  {
    assert EdgeAt(g, [x, y], 0);
    assert PathFromTo(g, [x, y], x, y);
  }

  lemma ReachTrans(g: Graph, x: Id, y: Id, z: Id)
    requires Reach(g, x, y) && Reach(g, y, z)
    ensures Reach(g, x, z)
  {
    var p :| PathFromTo(g, p, x, y);
    var q :| PathFromTo(g, q, y, z);
    var r := p + q[1..];
    assert IsPath(g, r) by {
      forall i | 0 <= i < |r| - 1 ensures EdgeAt(g, r, i) {
        assert if i < |p| - 1 then EdgeAt(g, p, i) else EdgeAt(g, q, i - |p| + 1);
      }
    }
    assert r[|r| - 1] == z;
    assert PathFromTo(g, r, x, z);
  }

  /** `s` is closed under taking successors. */
  ghost predicate Invariant(g: Graph, s: set<Id>) {
    forall x, y :: x in s && x in g && y in g[x] ==> y in s
  }

  /** Nothing outside a successor-closed set is reachable from inside it. */
  lemma ReachInvariant(g: Graph, s: set<Id>, x: Id, y: Id)
    requires Invariant(g, s) && x in s && Reach(g, x, y)
    ensures y in s
  {
    var p :| PathFromTo(g, p, x, y);
    var i := 0;
    while i < |p| - 1
      invariant 0 <= i < |p| && p[i] in s
    {
      assert EdgeAt(g, p, i);
      i := i + 1;
    }
  }
}
