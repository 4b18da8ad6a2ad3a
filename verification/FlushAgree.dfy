/**
 When two flushes, from queues they have read at different times, force the transactions of a
 cycle in the same order.
 */
module FlushAgree {
  import opened TxnGraph
  import opened SortedIds
  import opened TarjanSpec
  import opened Tarjan
  import opened TarjanOrder
  import opened Tokens
  import opened FlushOrder

  /** Neighbours of which both are in `c` stay neighbours. */
  lemma {:induction false} LinkKept(q: seq<Id>, c: set<Id>, x: Id, y: Id)
    requires Linked(q, |q|, x, y) && x in c && y in c
    ensures Linked(In(q, c), |In(q, c)|, x, y)
  {
    var k :| 0 <= k < |q| && k + 1 < |q| && q[k] == x && q[k + 1] == y;
    assert q == q[..k] + [x, y] + q[k + 2..];
    InSplit(q[..k] + [x, y], q[k + 2..], c);
    InSplit(q[..k], [x, y], c);
    InPair(x, y, c);
    var n, r := |In(q[..k], c)|, In(q, c);
    assert r[n] == x && r[n + 1] == y;
  }

  lemma InPair(x: Id, y: Id, c: set<Id>)
    requires x in c && y in c
    ensures In([x, y], c) == [x, y]
  {
    assert [x, y] == [x] + [y] && [x] == [] + [x];
    InOne([x], y, c);
    InOne([], x, c);
  }

  /** Neighbours in the restricted chain have nothing of `c` between them. */
  lemma {:induction false} LinkFrom(q: seq<Id>, c: set<Id>, n: nat) returns (i: nat, j: nat)
    requires n + 1 < |In(q, c)|
    ensures i < j < |q| && q[i] == In(q, c)[n] && q[j] == In(q, c)[n + 1]
    ensures forall l :: i < l < j ==> q[l] !in c
  {
    var init, last := q[..|q| - 1], q[|q| - 1];
    assert q == init + [last];
    InOne(init, last, c);
    if n + 1 < |In(init, c)| {
      i, j := LinkFrom(init, c, n);
    } else {
      i := LastIn(init, c);
      j := |q| - 1;
    }
  }

  lemma {:induction false} LastIn(q: seq<Id>, c: set<Id>) returns (i: nat)
    requires In(q, c) != []
    ensures i < |q| && q[i] == In(q, c)[|In(q, c)| - 1] && forall l :: i < l < |q| ==> q[l] !in c
  {
    var init, last := q[..|q| - 1], q[|q| - 1];
    assert q == init + [last];
    InOne(init, last, c);
    if last in c { i := |q| - 1; } else { i := LastIn(init, c); }
  }

  /** The valid entries of `s` in the queue of `d`, in order. */
  ghost function Members(seen: map<Id, Nonce>, queues: Queues, d: DocKey, s: set<Id>): seq<Id> {
    if d in queues then In(Chain(seen, queues[d]), s) else []
  }

  /** Some queue holds a valid entry of `y` next behind one of `x`, members of `s` alone. */
  ghost predicate LinkedInside(seen: map<Id, Nonce>, queues: Queues, s: set<Id>, x: Id, y: Id) {
    exists d :: Linked(Members(seen, queues, d, s), |Members(seen, queues, d, s)|, x, y)
  }

  /** Inside a component of the graph, only the order of its members' valid entries counts. */
  lemma {:induction false} InnerEdge(seen: map<Id, Nonce>, queues: Queues, m: map<Id, seq<Id>>, s: set<Id>, x: Id,
      y: Id)
    requires IsQueueGraph(seen, queues, m) && s <= m.Keys && Convex(Edges(m), s) && x in s && y in s
    ensures y in Inner(Edges(m), s)[x] <==> LinkedInside(seen, queues, s, x, y)
  {
    var g := Edges(m);
    assert y in g[x] <==> IsSuccessor(m, x, y);
    if y in g[x] {
      var d :| d in queues && Linked(Chain(seen, queues[d]), |Chain(seen, queues[d])|, x, y);
      LinkKept(Chain(seen, queues[d]), s, x, y);
      assert Members(seen, queues, d, s) == In(Chain(seen, queues[d]), s);
    }
    if LinkedInside(seen, queues, s, x, y) {
      var d :| Linked(Members(seen, queues, d, s), |Members(seen, queues, d, s)|, x, y);
      InnerLink(seen, queues, m, s, x, y, d);
    }
  }

  lemma {:induction false} InnerLink(seen: map<Id, Nonce>, queues: Queues, m: map<Id, seq<Id>>, s: set<Id>, x: Id,
      y: Id, d: DocKey)
    requires IsQueueGraph(seen, queues, m) && s <= m.Keys && Convex(Edges(m), s) && x in s && y in s
    requires Linked(Members(seen, queues, d, s), |Members(seen, queues, d, s)|, x, y)
    ensures IsSuccessor(m, x, y)
  {
    var c := Chain(seen, queues[d]);
    var n :| 0 <= n < |In(c, s)| && n + 1 < |In(c, s)| && In(c, s)[n] == x && In(c, s)[n + 1] == y;
    var i, j := LinkFrom(c, s, n);
    hide In, Convex, Edges, Chain, IsQueueGraph;
    if i + 1 < j {
      BetweenIsMember(seen, queues, m, s, d, i, i + 1, j);
      assert false;
    } else {
      Neighbours(seen, queues, m, d, i);
    }
  }

  lemma Neighbours(seen: map<Id, Nonce>, queues: Queues, m: map<Id, seq<Id>>, d: DocKey, i: nat)
    requires IsQueueGraph(seen, queues, m) && d in queues && i + 1 < |Chain(seen, queues[d])|
    ensures IsSuccessor(m, Chain(seen, queues[d])[i], Chain(seen, queues[d])[i + 1])
  {
    hide Chain;
    var c := Chain(seen, queues[d]);
    assert Linked(c, |c|, c[i], c[i + 1]);
    assert Adjacent(seen, queues, c[i], c[i + 1]);
  }

  /** What stands between two members in a queue is one itself. */
  lemma {:induction false} BetweenIsMember(seen: map<Id, Nonce>, queues: Queues, m: map<Id, seq<Id>>, s: set<Id>,
      d: DocKey, i: nat, l: nat, j: nat)
    requires IsQueueGraph(seen, queues, m) && Convex(Edges(m), s) && d in queues && i < l < j < |Chain(seen, queues[d])|
    requires Chain(seen, queues[d])[i] in s && Chain(seen, queues[d])[j] in s
    ensures Chain(seen, queues[d])[l] in s
  {
    hide Chain, IsQueueGraph, Edges, Reach;
    ChainReach(seen, queues, m, d, i, l);
    ChainReach(seen, queues, m, d, l, j);
  }

  /** Two snapshots in which the members of a component stand in the same order in every queue. */
  ghost predicate SameInside(seen: map<Id, Nonce>, queues: Queues, seen': map<Id, Nonce>, queues': Queues, s: set<Id>) {
    forall d :: Members(seen, queues, d, s) == Members(seen', queues', d, s)
  }

  lemma SameLinks(seen: map<Id, Nonce>, queues: Queues, seen': map<Id, Nonce>, queues': Queues, s: set<Id>, x: Id,
      y: Id)
    requires SameInside(seen, queues, seen', queues', s) && LinkedInside(seen, queues, s, x, y)
    ensures LinkedInside(seen', queues', s, x, y)
  {
    hide Members, Linked;
    var d :| Linked(Members(seen, queues, d, s), |Members(seen, queues, d, s)|, x, y);
    assert Members(seen, queues, d, s) == Members(seen', queues', d, s);
  }

  lemma SameBack(seen: map<Id, Nonce>, queues: Queues, seen': map<Id, Nonce>, queues': Queues, s: set<Id>)
    requires SameInside(seen, queues, seen', queues', s)
    ensures SameInside(seen', queues', seen, queues, s)
  {
    hide Members;
    forall d ensures Members(seen', queues', d, s) == Members(seen, queues, d, s) {
      assert Members(seen, queues, d, s) == Members(seen', queues', d, s);
    }
  }

  lemma {:induction false} SameInnerEdge(seen: map<Id, Nonce>, queues: Queues, m: map<Id, seq<Id>>,
      seen': map<Id, Nonce>, queues': Queues, m': map<Id, seq<Id>>, s: set<Id>, x: Id, y: Id)
    requires IsQueueGraph(seen, queues, m) && IsQueueGraph(seen', queues', m') &&
      SameInside(seen, queues, seen', queues', s)
    requires s <= m.Keys && s <= m'.Keys && Convex(Edges(m), s) && Convex(Edges(m'), s) && x in s && y in s
    ensures y in Inner(Edges(m), s)[x] <==> y in Inner(Edges(m'), s)[x]
  {
    hide IsQueueGraph, Convex, Edges, LinkedInside, SameInside;
    SameBack(seen, queues, seen', queues', s);
    InnerEdge(seen, queues, m, s, x, y);
    InnerEdge(seen', queues', m', s, x, y);
    if LinkedInside(seen, queues, s, x, y) { SameLinks(seen, queues, seen', queues', s, x, y); }
    if LinkedInside(seen', queues', s, x, y) { SameLinks(seen', queues', seen, queues, s, x, y); }
  }

  lemma {:induction false} SameInner(seen: map<Id, Nonce>, queues: Queues, m: map<Id, seq<Id>>,
      seen': map<Id, Nonce>, queues': Queues, m': map<Id, seq<Id>>, s: set<Id>)
    requires IsQueueGraph(seen, queues, m) && IsQueueGraph(seen', queues', m') &&
      SameInside(seen, queues, seen', queues', s)
    requires s <= m.Keys && s <= m'.Keys && Convex(Edges(m), s) && Convex(Edges(m'), s)
    ensures Inner(Edges(m), s) == Inner(Edges(m'), s)
  {
    hide IsQueueGraph, Convex, Edges, LinkedInside, SameInside;
    forall x, y | x in s && y in s ensures y in Inner(Edges(m), s)[x] <==> y in Inner(Edges(m'), s)[x] {
      SameInnerEdge(seen, queues, m, seen', queues', m', s, x, y);
    }
    SameGraph(Inner(Edges(m), s), Inner(Edges(m'), s), s);
  }

  lemma SameGraph(g: Graph, g': Graph, s: set<Id>)
    requires g.Keys == s && g'.Keys == s && forall x :: x in s ==> g[x] <= s && g'[x] <= s
    requires forall x, y :: x in s && y in s ==> (y in g[x] <==> y in g'[x])
    ensures g == g'
  {
    forall x | x in s ensures g[x] == g'[x] { }
  }

  /**
   Two flushes that find the members of a cycle in the same order in every queue force them in the
   same order if and only if their sorts enter the cycle at the same member.
   */
  lemma {:induction false} FlushesAgreeIff(seen: map<Id, Nonce>, queues: Queues, m: map<Id, seq<Id>>, k: nat,
      seen': map<Id, Nonce>, queues': Queues, m': map<Id, seq<Id>>, k': nat)
    requires IsQueueGraph(seen, queues, m) && IsQueueGraph(seen', queues', m')
    requires ClosedLists(m) && ClosedLists(m') && k < |Components(Edges(m))| && k' < |Components(Edges(m'))|
    requires Elems(Components(Edges(m))[k]) == Elems(Components(Edges(m'))[k'])
    requires SameInside(seen, queues, seen', queues', Elems(Components(Edges(m))[k]))
    ensures
      var g, g' := Edges(m), Edges(m'); var s := Elems(Components(g)[k]);
      && In(Visits(g), s) != [] && In(Visits(g'), s) != []
      && (Components(g)[k] == Components(g')[k'] <==> Entry(g, s) == Entry(g', s))
  {
    var g, g' := Edges(m), Edges(m');
    ComponentShape(g, k);
    ComponentShape(g', k');
    var s := Elems(Components(g)[k]);
    hide IsQueueGraph, Components, SameInside, Edges, Convex, Strong;
    SameInner(seen, queues, m, seen', queues', m', s);
    OrdersAgreeIff(g, k, g', k');
  }

  /** They do if nobody else has a valid entry right ahead of one of theirs, in either snapshot. */
  lemma {:induction false} UnledFlushesAgree(seen: map<Id, Nonce>, queues: Queues, m: map<Id, seq<Id>>, k: nat,
      seen': map<Id, Nonce>, queues': Queues, m': map<Id, seq<Id>>, k': nat)
    requires IsQueueGraph(seen, queues, m) && IsQueueGraph(seen', queues', m')
    requires ClosedLists(m) && ClosedLists(m') && k < |Components(Edges(m))| && k' < |Components(Edges(m'))|
    requires Elems(Components(Edges(m))[k]) == Elems(Components(Edges(m'))[k'])
    requires SameInside(seen, queues, seen', queues', Elems(Components(Edges(m))[k]))
    requires forall x, y :: Adjacent(seen, queues, x, y) && y in Components(Edges(m))[k] ==>
      x in Components(Edges(m))[k]
    requires forall x, y :: Adjacent(seen', queues', x, y) && y in Components(Edges(m'))[k'] ==>
      x in Components(Edges(m'))[k']
    ensures Components(Edges(m))[k] == Components(Edges(m'))[k']
  {
    var g, g' := Edges(m), Edges(m');
    var s := Elems(Components(g)[k]);
    hide IsQueueGraph, Components, SameInside, Edges, Adjacent, Entry;
    NobodyAhead(seen, queues, m, s);
    NobodyAhead(seen', queues', m', s);
    FlushesAgreeIff(seen, queues, m, k, seen', queues', m', k');
    UnledEntry(g, k);
    UnledEntry(g', k');
  }

  lemma NobodyAhead(seen: map<Id, Nonce>, queues: Queues, m: map<Id, seq<Id>>, s: set<Id>)
    requires IsQueueGraph(seen, queues, m)
    requires forall x, y :: Adjacent(seen, queues, x, y) && y in s ==> x in s
    ensures Unled(Edges(m), s)
  {
    hide Adjacent;
    forall x, y | x in m && x !in s && y in Edges(m)[x] ensures y !in s { assert IsSuccessor(m, x, y); }
  }
}
