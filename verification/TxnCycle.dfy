/** The successor graphs of the histories that follow, and the order their components come out in. */
module TxnCycle {
  import opened TxnGraph
  import opened SortedIds
  import opened TarjanSpec
  import opened Tarjan
  import opened Tokens
  import opened FlushOrder
  import opened FlushWalk
  import opened TxnFlusher

  /** A visit of a node with one successor. */
  lemma ConnectOne(g: Graph, env: Env, id: Id, succ: Id)
    requires Sized(g, env) && id in g && id !in env.index && g[id] == {succ}
    ensures
      var n := |env.index|; var e := Env(env.index[id := n], env.stack + [id], env.output);
      Sized(g, e) && succ in g && var s := Step(g, e, succ, n);
      |env.stack| <= |s.0.stack| &&
      Connect(g, env, id) == (if s.1 == n then Pop(s.0, |env.stack|) else s.0, s.1)
  {
    hide Ascending, Step, Connect, Visit, Pop;
    AscendingUnique(Ascending(g[id]), [succ]);
    ConnectUnfold(g, env, id);
    var n := |env.index|;
    var e := Env(env.index[id := n], env.stack + [id], env.output);
    VisitCons(g, e, [succ], n);
    var s := Step(g, e, succ, n);
    assert [succ][1..] == [];
    VisitNil(g, s.0, s.1);
  }

  /** A visit of a node without successors. */
  lemma ConnectNone(g: Graph, env: Env, id: Id)
    requires Sized(g, env) && id in g && id !in env.index && g[id] == {}
    ensures
      var n := |env.index|; var e := Env(env.index[id := n], env.stack + [id], env.output);
      Connect(g, env, id) == (Pop(e, |env.stack|), n)
  {
    hide Ascending, Connect, Visit, Pop;
    AscendingUnique(Ascending(g[id]), []);
    ConnectUnfold(g, env, id);
    var n := |env.index|;
    VisitNil(g, Env(env.index[id := n], env.stack + [id], env.output), n);
  }

  lemma OneReversed(x: Id)
    ensures Reversed([x]) == [x]
  {
    assert [x][1..] == [];
    assert Reversed([x]) == Reversed([]) + [x];
  }

  /** The last one or two nodes become a component. */
  lemma PopOne(env: Env, stack: seq<Id>, x: Id)
    requires env.stack == stack + [x]
    ensures Pop(env, |stack|) == Env(env.index, stack, env.output + [[x]])
  {
    OneReversed(x);
    assert env.stack[|stack|..] == [x] && env.stack[..|stack|] == stack;
  }

  lemma PopTwo(env: Env, stack: seq<Id>, x: Id, y: Id)
    requires env.stack == stack + [x] + [y]
    ensures Pop(env, |stack|) == Env(env.index, stack, env.output + [[y, x]])
  {
    OneReversed(y);
    assert env.stack[|stack|..] == [x, y] && env.stack[..|stack|] == stack && [x, y][1..] == [y];
    assert Reversed([x, y]) == Reversed([y]) + [x];
    assert [y] + [x] == [y, x];
  }

  /** Two nodes that are each other's only successors: the second one visited comes out first. */
  lemma ConnectPair(g: Graph, env: Env, x: Id, y: Id)
    requires Sized(g, env) && x in g && y in g && g[x] == {y} && g[y] == {x} && x != y
    requires x !in env.index && y !in env.index
    ensures
      var n := |env.index|;
      Connect(g, env, x) == (Env(env.index[x := n][y := n + 1], env.stack, env.output + [[y, x]]), n)
  {
    hide Ascending, Connect, Step, Visit, Pop;
    var n := |env.index|;
    var e1 := Env(env.index[x := n], env.stack + [x], env.output);
    var e2 := Env(e1.index[y := n + 1], e1.stack + [y], env.output);
    ConnectOne(g, env, x, y);
    assert |e1.index| == n + 1;
    ConnectOne(g, e1, y, x);
    assert e2.stack[|env.stack|] == x && e2.index[x] == n;
    StepSeen(g, e2, x, n + 1);
    StepNew(g, e1, y, n);
    PopTwo(e2, env.stack, x, y);
  }

  /** A node whose only successor is already in a component. */
  lemma ConnectBehind(g: Graph, env: Env, x: Id, y: Id)
    requires Sized(g, env) && x in g && g[x] == {y} && x !in env.index && y in env.index && y !in env.stack
    ensures
      var n := |env.index|;
      Connect(g, env, x) == (Env(env.index[x := n], env.stack, env.output + [[x]]), n)
  {
    hide Ascending, Connect, Step, Visit, Pop;
    var n := |env.index|;
    var e := Env(env.index[x := n], env.stack + [x], env.output);
    ConnectOne(g, env, x, y);
    assert y != x && y !in e.stack;
    StepSeen(g, e, y, n);
    PopOne(e, env.stack, x);
  }

  /** A node that leads to such a pair. */
  lemma ConnectLeading(g: Graph, env: Env, x: Id, y: Id, z: Id)
    requires Sized(g, env) && x in g && y in g && z in g && g[x] == {y} && g[y] == {z} && g[z] == {y}
    requires x != y && x != z && y != z && x !in env.index && y !in env.index && z !in env.index
    ensures
      var n := |env.index|;
      Connect(g, env, x) ==
        (Env(env.index[x := n][y := n + 1][z := n + 2], env.stack, env.output + [[z, y], [x]]), n)
  {
    hide Ascending, Connect, Step, Visit, Pop;
    var n := |env.index|;
    var e := Env(env.index[x := n], env.stack + [x], env.output);
    ConnectOne(g, env, x, y);
    assert |e.index| == n + 1;
    ConnectPair(g, e, y, z);
    StepNew(g, e, y, n);
    var e' := Env(e.index[y := n + 1][z := n + 2], e.stack, e.output + [[z, y]]);
    PopOne(e', env.stack, x);
    assert env.output + [[z, y]] + [[x]] == env.output + [[z, y], [x]];
  }

  /** The next root: already visited, or not. */
  lemma NextRoot(g: Graph, env: Env, ids: seq<Id>)
    requires Sized(g, env) && ids != [] && forall w :: w in ids ==> w in g
    ensures ids[0] in env.index ==> Roots(g, env, ids) == Roots(g, env, ids[1..])
    ensures ids[0] !in env.index ==>
      Sized(g, Connect(g, env, ids[0]).0) && Roots(g, env, ids) == Roots(g, Connect(g, env, ids[0]).0, ids[1..])
  {
    hide Connect;
  }

  lemma NoRoots(g: Graph, env: Env)
    requires Sized(g, env)
    ensures Roots(g, env, []) == env
  {
  }

  lemma EmptyStart(g: Graph)
    requires Closed(g)
    ensures Sized(g, Env(map[], [], [])) && Components(g) == Roots(g, Env(map[], [], []), Ascending(g.Keys)).output
  {
  }

  lemma SortedKeys(s: set<Id>, r: seq<Id>)
    requires StrictlyAscending(r) && forall x :: x in r <==> x in s
    ensures Ascending(s) == r
  {
    AscendingUnique(Ascending(s), r);
  }

  // ---------------------------------------------------------------------------------------

  /** Two transactions, each ahead of the other in some queue. */
  const CYCLE: map<Id, seq<Id>> := map[1 := [2], 2 := [1]]

  lemma CycleEdges()
    ensures ClosedLists(CYCLE) && Edges(CYCLE) == map[1 := {2}, 2 := {1}]
  {
    assert Elems([2]) == {2} && Elems([1]) == {1};
  }

  /** The visit starts at the smaller id, so the larger one comes out first. */
  lemma CycleOrder()
    ensures ClosedLists(CYCLE) && Closed(Edges(CYCLE)) && Components(Edges(CYCLE)) == [[2, 1]]
  {
    hide Ascending, Connect, Step, Roots, Components, Sized, Edges;
    var g: Graph := map[1 := {2}, 2 := {1}];
    CycleEdges();
    SortedKeys(g.Keys, [1, 2]);
    var e0, e1 := Env(map[], [], []), Env(map[][1 := 0][2 := 1], [], [] + [[2, 1]]);
    assert [1, 2][1..] == [2] && [2][1..] == [];
    EmptyStart(g);
    ConnectPair(g, e0, 1, 2);
    NextRoot(g, e0, [1, 2]);
    NextRoot(g, e1, [2]);
    NoRoots(g, e1);
  }

  /** One is ahead of the other. */
  const AHEAD: map<Id, seq<Id>> := map[1 := [], 2 := [1]]

  lemma AheadEdges()
    ensures ClosedLists(AHEAD) && Edges(AHEAD) == map[1 := {}, 2 := {1}]
  {
    assert Elems([1]) == {1} && Elems([]) == {};
  }

  lemma AheadOrder()
    ensures ClosedLists(AHEAD) && Closed(Edges(AHEAD)) && Components(Edges(AHEAD)) == [[1], [2]]
  {
    hide Ascending, Connect, Step, Roots, Components, Sized, Pop, Edges;
    var g: Graph := map[1 := {}, 2 := {1}];
    AheadEdges();
    SortedKeys(g.Keys, [1, 2]);
    var e0, e1 := Env(map[], [], []), Env(map[][1 := 0], [], [] + [[1]]);
    var e2 := Env(e1.index[2 := 1], [], e1.output + [[2]]);
    assert [1, 2][1..] == [2] && [2][1..] == [];
    EmptyStart(g);
    ConnectNone(g, e0, 1);
    PopOne(Env(map[][1 := 0], [] + [1], []), [], 1);
    NextRoot(g, e0, [1, 2]);
    ConnectBehind(g, e1, 2, 1);
    NextRoot(g, e1, [2]);
    NoRoots(g, e2);
  }

  /** The cycle with another transaction ahead of its larger member. */
  const LED: map<Id, seq<Id>> := map[0 := [2], 1 := [2], 2 := [1]]

  lemma LedEdges()
    ensures ClosedLists(LED) && Edges(LED) == map[0 := {2}, 1 := {2}, 2 := {1}]
  {
    assert Elems([2]) == {2} && Elems([1]) == {1};
  }

  /** Now the visit enters the cycle at the larger id, and the smaller one comes out first. */
  lemma LedOrder()
    ensures ClosedLists(LED) && Closed(Edges(LED)) && Components(Edges(LED)) == [[1, 2], [0]]
  {
    hide Ascending, Connect, Step, Roots, Components, Sized, Edges;
    var g: Graph := map[0 := {2}, 1 := {2}, 2 := {1}];
    LedEdges();
    SortedKeys(g.Keys, [0, 1, 2]);
    var e0, e1 := Env(map[], [], []), Env(map[][0 := 0][2 := 1][1 := 2], [], [] + [[1, 2], [0]]);
    assert [0, 1, 2][1..] == [1, 2] && [1, 2][1..] == [2] && [2][1..] == [];
    EmptyStart(g);
    ConnectLeading(g, e0, 0, 2, 1);
    NextRoot(g, e0, [0, 1, 2]);
    NextRoot(g, e1, [1, 2]);
    NextRoot(g, e1, [2]);
    NoRoots(g, e1);
  }

  // ---------------------------------------------------------------------------------------
  // The queues they come from, and the calls of a flush

  const LEADER := Token(0, 4)
  const FIRST := Token(1, 5)
  const SECOND := Token(2, 6)

  const BOTH := [FIRST, SECOND]
  const CROSS := [SECOND, FIRST]

  const SEEN: map<Id, Nonce> := map[1 := 5, 2 := 6]
  const ALL: map<Id, Nonce> := map[0 := 4, 1 := 5, 2 := 6]

  lemma ChainOne(seen: map<Id, Nonce>, x: Token)
    requires Valid(seen, x)
    ensures Chain(seen, [x]) == [x.id]
  {
    assert [x][..0] == [];
    assert Chain(seen, []) == [];
  }

  lemma ChainTwo(seen: map<Id, Nonce>, x: Token, y: Token)
    requires Valid(seen, x) && Valid(seen, y)
    ensures Chain(seen, [x, y]) == [x.id, y.id]
  {
    ChainOne(seen, x);
    assert [x, y][..1] == [x];
    assert [x.id] + [y.id] == [x.id, y.id];
  }

  lemma ChainThree(seen: map<Id, Nonce>, x: Token, y: Token, z: Token)
    requires Valid(seen, x) && Valid(seen, y) && Valid(seen, z)
    ensures Chain(seen, [x, y, z]) == [x.id, y.id, z.id]
  {
    ChainTwo(seen, x, y);
    assert [x, y, z][..2] == [x, y];
    assert [x.id, y.id] + [z.id] == [x.id, y.id, z.id];
  }

  /** The links of short chains. */
  lemma Links(a: Id, b: Id, c: Id)
    ensures forall x, y :: !Linked([a], 1, x, y)
    ensures forall x, y :: Linked([a, b], 2, x, y) <==> x == a && y == b
    ensures forall x, y :: Linked([a, b, c], 3, x, y) <==> (x == a && y == b) || (x == b && y == c)
  {
    forall x, y ensures Linked([a, b], 2, x, y) <==> x == a && y == b {
      if x == a && y == b { assert [a, b][0] == x && [a, b][0 + 1] == y; }
    }
    forall x, y ensures Linked([a, b, c], 3, x, y) <==> (x == a && y == b) || (x == b && y == c) {
      if x == a && y == b { assert [a, b, c][0] == x && [a, b, c][0 + 1] == y; }
      if x == b && y == c { assert [a, b, c][1] == x && [a, b, c][1 + 1] == y; }
    }
  }

  /** The graph of two queues, from their chains. */
  lemma TwoQueues(seen: map<Id, Nonce>, queues: Queues, m: map<Id, seq<Id>>, c1: seq<Id>, c2: seq<Id>)
    requires queues.Keys == {1, 2} && Chain(seen, queues[1]) == c1 && Chain(seen, queues[2]) == c2
    requires forall x :: x in m <==> x in c1 || x in c2
    requires forall x, y :: IsSuccessor(m, x, y) <==> Linked(c1, |c1|, x, y) || Linked(c2, |c2|, x, y)
    ensures IsQueueGraph(seen, queues, m)
  {
    hide Chain, IsSuccessor, Linked;
    assert 1 in queues && 2 in queues;
    forall x ensures x in m <==> InQueues(seen, queues, x) { }
    forall x, y ensures IsSuccessor(m, x, y) <==> Adjacent(seen, queues, x, y) { }
  }

  lemma CycleQueues()
    ensures IsQueueGraph(SEEN, map[1 := BOTH, 2 := CROSS], CYCLE)
    ensures LeadsTo(CYCLE, 1) && LeadsTo(CYCLE, 2)
  {
    ChainTwo(SEEN, FIRST, SECOND);
    ChainTwo(SEEN, SECOND, FIRST);
    Links(1, 2, 0);
    Links(2, 1, 0);
    hide Chain, Linked;
    TwoQueues(SEEN, map[1 := BOTH, 2 := CROSS], CYCLE, [1, 2], [2, 1]);
    assert IsSuccessor(CYCLE, 2, 1) && IsSuccessor(CYCLE, 1, 2);
  }

  lemma AheadQueues()
    ensures IsQueueGraph(SEEN, map[1 := [FIRST], 2 := CROSS], AHEAD) && LeadsTo(AHEAD, 1)
  {
    ChainOne(SEEN, FIRST);
    ChainTwo(SEEN, SECOND, FIRST);
    Links(1, 0, 0);
    Links(2, 1, 0);
    hide Chain, Linked;
    TwoQueues(SEEN, map[1 := [FIRST], 2 := CROSS], AHEAD, [1], [2, 1]);
    assert IsSuccessor(AHEAD, 2, 1);
  }

  lemma LedQueues()
    ensures IsQueueGraph(ALL, map[1 := BOTH, 2 := [LEADER, SECOND, FIRST]], LED) && LeadsTo(LED, 1)
  {
    ChainTwo(ALL, FIRST, SECOND);
    ChainThree(ALL, LEADER, SECOND, FIRST);
    Links(1, 2, 0);
    Links(0, 2, 1);
    hide Chain, Linked;
    TwoQueues(ALL, map[1 := BOTH, 2 := [LEADER, SECOND, FIRST]], LED, [1, 2], [0, 2, 1]);
    assert IsSuccessor(LED, 2, 1);
  }

  /** The walk over one component of several members, and over lone ones. */
  lemma WalkOne(seen: map<Id, Nonce>, sorted: seq<seq<Id>>, n: nat, pull: map<Id, Nonce>, x: Id)
    requires AllSeen(seen, sorted) && 0 < n <= |sorted| && sorted[n - 1] == [x]
    ensures x in seen
    ensures Walk(seen, sorted, n, pull) ==
      [Call(x, Some(pull[x := seen[x]]))] + Walk(seen, sorted, n - 1, pull[x := seen[x]])
  {
    assert x in sorted[n - 1];
    var pull' := pull[x := seen[x]];
    WithLone(pull, [x], seen);
    assert Calls([x], pull') == [Call(x, Some(pull'))] + Calls([], pull') && [x][1..] == [];
  }

  lemma WalkTwo(seen: map<Id, Nonce>, sorted: seq<seq<Id>>, pull: map<Id, Nonce>, x: Id, y: Id)
    requires AllSeen(seen, sorted) && 0 < |sorted| && sorted[0] == [x, y]
    ensures x in seen && y in seen
    ensures Walk(seen, sorted, 1, pull) == [Call(x, Some(pull)), Call(y, Some(pull))]
  {
    assert x in sorted[0] && y in sorted[0];
    assert [x, y][1..] == [y] && [y][1..] == [];
    assert Calls([y], pull) == [Call(y, Some(pull))] + Calls([], pull);
    assert Calls([x, y], pull) == [Call(x, Some(pull))] + Calls([y], pull);
  }

  /** The larger transaction of a cycle is forced first, and pulls nothing. */
  lemma CycleCalls(goal: Id)
    requires goal == 1 || goal == 2
    ensures IsQueueGraph(SEEN, map[1 := BOTH, 2 := CROSS], CYCLE)
    ensures CallsFor(SEEN, map[1 := BOTH, 2 := CROSS], CYCLE, goal) == [Call(2, Some(map[])), Call(1, Some(map[]))]
  {
    hide IsQueueGraph, LeadsTo, Components, Edges, Walk;
    CycleQueues();
    CycleOrder();
    ComponentsSeen(SEEN, map[1 := BOTH, 2 := CROSS], CYCLE);
    WalkTwo(SEEN, [[2, 1]], map[], 2, 1);
  }

  /** Where only one is known to be ahead, the other may pull both. */
  lemma AheadCalls()
    ensures IsQueueGraph(SEEN, map[1 := [FIRST], 2 := CROSS], AHEAD)
    ensures CallsFor(SEEN, map[1 := [FIRST], 2 := CROSS], AHEAD, 1)
         == [Call(2, Some(map[2 := 6])), Call(1, Some(map[2 := 6, 1 := 5]))]
  {
    hide IsQueueGraph, LeadsTo, Components, Edges, Walk;
    AheadQueues();
    AheadOrder();
    ComponentsSeen(SEEN, map[1 := [FIRST], 2 := CROSS], AHEAD);
    var sorted := [[1], [2]];
    WalkOne(SEEN, sorted, 2, map[], 2);
    WalkOne(SEEN, sorted, 1, map[2 := 6], 1);
    WalkNone(SEEN, sorted);
    assert map[][2 := 6] == map[2 := 6] && map[2 := 6][1 := 5] == map[2 := 6, 1 := 5];
  }

  /** With the leader in sight, the smaller one is forced first. */
  lemma LedCalls()
    ensures IsQueueGraph(ALL, map[1 := BOTH, 2 := [LEADER, SECOND, FIRST]], LED)
    ensures CallsFor(ALL, map[1 := BOTH, 2 := [LEADER, SECOND, FIRST]], LED, 1)
         == [Call(0, Some(map[0 := 4])), Call(1, Some(map[0 := 4])), Call(2, Some(map[0 := 4]))]
  {
    hide IsQueueGraph, LeadsTo, Components, Edges, Walk;
    LedQueues();
    LedOrder();
    ComponentsSeen(ALL, map[1 := BOTH, 2 := [LEADER, SECOND, FIRST]], LED);
    var sorted := [[1, 2], [0]];
    WalkOne(ALL, sorted, 2, map[], 0);
    WalkTwo(ALL, sorted, map[0 := 4], 1, 2);
    assert map[][0 := 4] == map[0 := 4];
  }
}
