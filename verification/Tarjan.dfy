/**
 Tarjan's strongly-connected components, as used to order transactions.

 The algorithm is first written as a pair of functions over the visiting state; the class at
 the end performs it in place and is proved to compute exactly that. Nodes and successors are
 always visited in ascending order, so the functions depend on the edge set only.
 */
module TarjanSpec {
  import opened TxnGraph
  import opened SortedIds

  /** `index` numbers visited nodes in visiting order; `stack` holds those not yet output. */
  datatype Env = Env(index: map<Id, nat>, stack: seq<Id>, output: seq<seq<Id>>)

  function Reversed(s: seq<Id>): (r: seq<Id>)
    ensures |r| == |s|
    ensures forall i :: 0 <= i < |s| ==> r[i] == s[|s| - 1 - i]
  {
    if s == [] then [] else Reversed(s[1..]) + [s[0]]
  }

  lemma ReversedStep(s: seq<Id>, i: nat)
    requires i < |s|
    ensures Reversed(s[i..]) == Reversed(s[i + 1..]) + [s[i]]
    ensures i + 1 == |s| ==> Reversed(s[i + 1..]) == []
  {
    assert s[i..][1..] == s[i + 1..];
  }

  /** Makes the top of the stack, from position `base` up, the next component. */
  ghost function Pop(env: Env, base: nat): Env
    requires base <= |env.stack|
  {
    Env(env.index, env.stack[..base], env.output + [Reversed(env.stack[base..])])
  }

  ghost predicate Sized(g: Graph, env: Env) {
    Closed(g) && env.index.Keys <= g.Keys
  }

  ghost predicate Extends(env: Env, env': Env) {
    && env.index.Keys <= env'.index.Keys
    && (forall x :: x in env.index ==> env'.index[x] == env.index[x])
    && env.stack <= env'.stack
    && env.output <= env'.output
  }

  /** Visits `id` and all it reaches; returns the new state and the low link of `id`. */
  ghost function Connect(g: Graph, env: Env, id: Id): (r: (Env, nat))
    requires Sized(g, env) && id in g && id !in env.index
    ensures Sized(g, r.0) && Extends(env, r.0)
    ensures id in r.0.index && r.0.index[id] == |env.index| && r.1 <= |env.index|
    decreases g.Keys - env.index.Keys, 0
  {
    var n := |env.index|;
    var entered := Env(env.index[id := n], env.stack + [id], env.output);
    assert g.Keys - entered.index.Keys < g.Keys - env.index.Keys by {
      assert id in g.Keys - env.index.Keys && id !in g.Keys - entered.index.Keys;
    }
    var v := Visit(g, entered, Ascending(g[id]), n);
    assert env.stack <= v.0.stack;
    (if v.1 == n then Pop(v.0, |env.stack|) else v.0, v.1)
  }

  /** One successor of a node whose low link so far is `low`. */
  ghost function Step(g: Graph, env: Env, w: Id, low: nat): (r: (Env, nat))
    requires Sized(g, env) && w in g
    ensures Sized(g, r.0) && Extends(env, r.0)
    ensures w in r.0.index && r.1 <= low
    ensures w in r.0.stack ==> r.1 <= r.0.index[w]
    decreases g.Keys - env.index.Keys, 1
  {
    if w !in env.index then
      var c := Connect(g, env, w);
      (c.0, if c.1 < low then c.1 else low)
    else if w in env.stack && env.index[w] < low then
      (env, env.index[w])
    else
      (env, low)
  }

  ghost function Visit(g: Graph, env: Env, succs: seq<Id>, low: nat): (r: (Env, nat))
    requires Sized(g, env) && forall w :: w in succs ==> w in g
    ensures Sized(g, r.0) && Extends(env, r.0) && r.1 <= low
    decreases g.Keys - env.index.Keys, |succs| + 2
  {
    if succs == [] then (env, low) else
      var s := Step(g, env, succs[0], low);
      assert g.Keys - s.0.index.Keys <= g.Keys - env.index.Keys;
      Visit(g, s.0, succs[1..], s.1)
  }

  ghost function Elems(s: seq<Id>): (r: set<Id>)
    ensures forall x :: x in r <==> x in s
  {
    set x | x in s
  }

  /** Starts a visit at every node of `ids` that has not been seen. */
  ghost function Roots(g: Graph, env: Env, ids: seq<Id>): (r: Env)
    requires Sized(g, env) && forall w :: w in ids ==> w in g
    ensures Sized(g, r) && Extends(env, r)
    ensures forall w :: w in ids ==> w in r.index
    decreases |ids|
  {
    if ids == [] then env else
      var next := if ids[0] in env.index then env else Connect(g, env, ids[0]).0;
      Roots(g, next, ids[1..])
  }

  ghost function Components(g: Graph): seq<seq<Id>>
    requires Closed(g)
  {
    Roots(g, Env(map[], [], []), Ascending(g.Keys)).output
  }

  // ---------------------------------------------------------------------------------------
  // What the visiting state always satisfies

  ghost predicate UpTo(output: seq<seq<Id>>, k: nat, x: Id) {
    exists l :: 0 <= l < k && l < |output| && x in output[l]
  }

  ghost predicate InOutput(output: seq<seq<Id>>, x: Id) {
    UpTo(output, |output|, x)
  }

  ghost predicate Distinct(s: seq<Id>) {
    forall i, j :: 0 <= i < j < |s| ==> s[i] != s[j]
  }

  /** No node occurs twice in the output. */
  ghost predicate Disjoint(output: seq<seq<Id>>) {
    && (forall k :: 0 <= k < |output| ==> output[k] != [] && Distinct(output[k]))
    && (forall k, x :: 0 <= k < |output| && x in output[k] ==> !UpTo(output, k, x))
  }

  ghost predicate Mutual(g: Graph, c: seq<Id>) {
    forall x, y :: x in c && y in c ==> Reach(g, x, y)
  }

  /** Edges from `c`, the component at position `k`, lead to components up to that one. */
  ghost predicate Backward(g: Graph, output: seq<seq<Id>>, k: nat, c: seq<Id>) {
    forall x, y :: x in c && x in g && y in g[x] ==> UpTo(output, k + 1, y)
  }

  /** Components are strongly connected, and edges lead back to the same or an earlier one. */
  ghost predicate Ordered(g: Graph, output: seq<seq<Id>>) {
    forall k :: 0 <= k < |output| ==> Mutual(g, output[k]) && Backward(g, output, k, output[k])
  }

  ghost predicate Numbered(env: Env) {
    && (forall x :: x in env.index ==> env.index[x] < |env.index|)
    && (forall x, y :: x in env.index && y in env.index && env.index[x] == env.index[y] ==> x == y)
  }

  /** Visited nodes are on the stack, in visiting order, or else in the output. */
  ghost predicate Placed(env: Env) {
    && (forall x :: x in env.stack ==> x in env.index && !InOutput(env.output, x))
    && (forall x :: InOutput(env.output, x) ==> x in env.index)
    && (forall x :: x in env.index ==> x in env.stack || InOutput(env.output, x))
    && (forall i, j :: 0 <= i < j < |env.stack| ==>
      env.stack[i] in env.index && env.stack[j] in env.index && env.index[env.stack[i]] < env.index[env.stack[j]])
  }

  ghost predicate OnStack(env: Env, x: Id) {
    x in env.stack && x in env.index
  }

  /** Earlier stack nodes reach later ones. */
  ghost predicate Forward(g: Graph, env: Env) {
    forall x, y {:trigger Reach(g, x, y)} :: OnStack(env, x) && OnStack(env, y) && env.index[x] <= env.index[y] ==>
      Reach(g, x, y)
  }

  /** Some open node numbered at most as `y` is reachable from `y`. */
  ghost predicate Anchored(g: Graph, env: Env, open: set<Id>, y: Id)
    requires y in env.index
  {
    exists x :: x in open && OnStack(env, x) && env.index[x] <= env.index[y] && Reach(g, y, x)
  }

  ghost predicate AllAnchored(g: Graph, env: Env, open: set<Id>) {
    forall y {:trigger Anchored(g, env, open, y)} :: OnStack(env, y) ==> Anchored(g, env, open, y)
  }

  /** The successors of a node whose visit has ended have been visited. */
  ghost predicate SuccessorsSeen(g: Graph, env: Env, open: set<Id>) {
    forall x, y :: x in env.index && x !in open && x in g && y in g[x] ==> y in env.index
  }

  /** `open` is the set of nodes whose visit has started and not ended. */
  ghost predicate Inv(g: Graph, env: Env, open: set<Id>) {
    && Sized(g, env) && Numbered(env) && Placed(env)
    && Disjoint(env.output) && Ordered(g, env.output)
    && (forall x :: x in open ==> OnStack(env, x))
    && SuccessorsSeen(g, env, open)
    && Forward(g, env)
    && AllAnchored(g, env, open)
  }

  /** Edges from `x` to stack nodes numbered below `n` go to nodes numbered at least `low`. */
  ghost predicate Above(g: Graph, env: Env, n: nat, low: nat, x: Id) {
    x in g && forall y :: y in g[x] && OnStack(env, y) && env.index[y] < n ==> low <= env.index[y]
  }

  ghost predicate AllAbove(g: Graph, env: Env, from: nat, n: nat, low: nat) {
    forall x :: OnStack(env, x) && env.index[x] >= from ==> Above(g, env, n, low, x)
  }

  /** `low` is the number of a stack node reachable from `id`. */
  ghost predicate Witnessed(g: Graph, env: Env, id: Id, low: nat) {
    exists y :: OnStack(env, y) && env.index[y] == low && Reach(g, id, y)
  }

  ghost predicate AllReach(g: Graph, open: set<Id>, id: Id) {
    forall x :: x in open ==> Reach(g, x, id)
  }

  /** What the visit of a node numbered `n` leaves behind. */
  ghost predicate ConnectPost(g: Graph, n: nat, id: Id, env': Env, low: nat) {
    && (id in env'.stack ==> Witnessed(g, env', id, low))
    && (id !in env'.stack ==> low == n)
    && AllAbove(g, env', n, n, low)
  }

  /** The processed successors of a node numbered `n` with low link `low`. */
  ghost predicate Done(env: Env, n: nat, done: set<Id>, low: nat) {
    forall y :: y in done ==> y in env.index && (y in env.stack && env.index[y] < n ==> low <= env.index[y])
  }

  ghost predicate Current(g: Graph, env: Env, id: Id, n: nat, base: nat, open: set<Id>) {
    && id !in open && AllReach(g, open, id) && id in g
    && base < |env.stack| && env.stack[base] == id && id in env.index && env.index[id] == n
    && (forall x :: x in open && x in env.index ==> env.index[x] < n)
  }

  /** What holds during the visit of `id`, with the successors `done` behind it. */
  ghost predicate VisitInv(g: Graph, env: Env, id: Id, n: nat, base: nat, open: set<Id>, done: set<Id>, low: nat) {
    && Inv(g, env, open + {id})
    && Current(g, env, id, n, base, open)
    && low <= n && Witnessed(g, env, id, low)
    && Done(env, n, done, low)
    && AllAbove(g, env, n + 1, n, low)
  }

  // ---------------------------------------------------------------------------------------
  // Each step keeps it

  lemma {:induction false} EnterInv(g: Graph, env: Env, id: Id, open: set<Id>)
    requires Inv(g, env, open) && AllReach(g, open, id) && id in g && id !in env.index
    ensures VisitInv(g, Env(env.index[id := |env.index|], env.stack + [id], env.output), id, |env.index|, |env.stack|,
      open, {}, |env.index|)
  {
    var e := Env(env.index[id := |env.index|], env.stack + [id], env.output);
    hide Sized, Numbered, Placed, Disjoint, Ordered, SuccessorsSeen, Forward, AllAnchored, Witnessed, Done, AllAbove,
        AllReach, OnStack, Current;
    EnterNumbered(g, env, id, open, e);
    EnterPlaced(env, id, e);
    EnterForward(g, env, id, open, e);
    EnterAnchored(g, env, id, open, e);
    EnterSeen(g, env, id, open, e);
  }

  lemma {:induction false} EnterNumbered(g: Graph, env: Env, id: Id, open: set<Id>, e: Env)
    requires Sized(g, env) && Numbered(env) && id in g && id !in env.index && AllReach(g, open, id)
    requires forall x :: x in open ==> OnStack(env, x)
    requires e == Env(env.index[id := |env.index|], env.stack + [id], env.output)
    ensures Sized(g, e) && Numbered(e) && Current(g, e, id, |env.index|, |env.stack|, open)
    ensures forall x :: x in open + {id} ==> OnStack(e, x)
    ensures Witnessed(g, e, id, |env.index|) && AllAbove(g, e, |env.index| + 1, |env.index|, |env.index|)
    ensures Done(e, |env.index|, {}, |env.index|)
  {
    hide Closed, Reach, AllReach;
    assert |e.index| == |env.index| + 1 by {
      assert e.index.Keys == env.index.Keys + {id};
    }
    ReachRefl(g, id);
    assert OnStack(e, id);
  }

  lemma {:induction false} EnterSeen(g: Graph, env: Env, id: Id, open: set<Id>, e: Env)
    requires SuccessorsSeen(g, env, open)
    requires e == Env(env.index[id := |env.index|], env.stack + [id], env.output)
    ensures SuccessorsSeen(g, e, open + {id})
  {
  }

  lemma EnterPlaced(env: Env, id: Id, e: Env)
    requires Placed(env) && Numbered(env) && id !in env.index
    requires e == Env(env.index[id := |env.index|], env.stack + [id], env.output)
    ensures Placed(e)
  {
    hide InOutput;
  }

  lemma {:induction false} EnterAnchored(g: Graph, env: Env, id: Id, open: set<Id>, e: Env)
    requires AllAnchored(g, env, open) && Numbered(env) && id !in env.index
    requires e == Env(env.index[id := |env.index|], env.stack + [id], env.output)
    ensures AllAnchored(g, e, open + {id})
  {
    ReachRefl(g, id);
    assert OnStack(e, id);
    forall y | OnStack(e, y) ensures Anchored(g, e, open + {id}, y) {
      if y in env.index {
        assert OnStack(env, y) && Anchored(g, env, open, y);
        var x :| x in open && OnStack(env, x) && env.index[x] <= env.index[y] && Reach(g, y, x);
        assert x in open + {id} && OnStack(e, x);
      }
    }
  }

  lemma {:induction false} EnterForward(g: Graph, env: Env, id: Id, open: set<Id>, e: Env)
    requires AllReach(g, open, id) && Forward(g, env) && AllAnchored(g, env, open) && Numbered(env)
    requires id !in env.index && Placed(env)
    requires e == Env(env.index[id := |env.index|], env.stack + [id], env.output)
    ensures Forward(g, e)
  {
    ReachRefl(g, id);
    forall x, y | OnStack(e, x) && OnStack(e, y) && e.index[x] <= e.index[y] ensures Reach(g, x, y) {
      if x in env.stack {
        assert OnStack(env, x) && Anchored(g, env, open, x);
        var z :| z in open && OnStack(env, z) && env.index[z] <= env.index[x] && Reach(g, x, z);
        ReachTrans(g, x, z, id);
        if y in env.stack { assert OnStack(env, y); }
      }
    }
  }

  lemma {:induction false} StepCorrect(g: Graph, env: Env, id: Id, n: nat, base: nat, open: set<Id>, done: set<Id>,
      w: Id, low: nat)
    requires VisitInv(g, env, id, n, base, open, done, low) && w in g[id]
    ensures VisitInv(g, Step(g, env, w, low).0, id, n, base, open, done + {w}, Step(g, env, w, low).1)
    decreases g.Keys - env.index.Keys, 1
  {
    hide *;
    NextIsReached(g, env, id, n, base, open, done, w, low);
    if w !in env.index {
      ConnectCorrect(g, env, w, open + {id});
      AfterConnect(g, env, id, n, base, open, done, w, low);
    } else {
      AfterSeen(g, env, id, n, base, open, done, w, low);
    }
  }

  lemma {:induction false} NextIsReached(g: Graph, env: Env, id: Id, n: nat, base: nat, open: set<Id>, done: set<Id>,
      w: Id, low: nat)
    requires VisitInv(g, env, id, n, base, open, done, low) && w in g[id]
    ensures Inv(g, env, open + {id}) && AllReach(g, open + {id}, w) && w in g
  {
    hide Inv, Witnessed, Done, AllAbove;
    ReachEdge(g, id, w);
    forall x | x in open + {id} ensures Reach(g, x, w) {
      if x in open { ReachTrans(g, x, id, w); }
    }
    assert Inv(g, env, open + {id});
    NextIsNode(g, env, open + {id}, id, w);
  }

  lemma NextIsNode(g: Graph, env: Env, open: set<Id>, id: Id, w: Id)
    requires Inv(g, env, open) && id in g && w in g[id]
    ensures w in g
  {
  }

  /** A successor that was already visited. */
  lemma {:induction false} AfterSeen(g: Graph, env: Env, id: Id, n: nat, base: nat, open: set<Id>, done: set<Id>, w: Id,
      low: nat)
    requires VisitInv(g, env, id, n, base, open, done, low) && w in g[id] && w in env.index && w in g
    ensures VisitInv(g, Step(g, env, w, low).0, id, n, base, open, done + {w}, Step(g, env, w, low).1)
  {
    hide Numbered, Placed, Disjoint, Ordered, SuccessorsSeen, Forward, AllAnchored, Witnessed, AllAbove, AllReach,
        Closed, Current, Extends, Connect;
    var low' := Step(g, env, w, low).1;
    SeenWitness(g, env, id, n, base, open, w, low, low');
    LowerAbove(g, env, n + 1, n, low, low');
  }

  lemma {:induction false} SeenWitness(g: Graph, env: Env, id: Id, n: nat, base: nat, open: set<Id>, w: Id, low: nat,
      low': nat)
    requires Current(g, env, id, n, base, open) && w in g[id] && Witnessed(g, env, id, low)
    requires low' == low || (OnStack(env, w) && low' == env.index[w])
    ensures Witnessed(g, env, id, low')
  {
    ReachEdge(g, id, w);
  }

  lemma {:induction false} LowerAbove(g: Graph, env: Env, from: nat, n: nat, low: nat, low': nat)
    requires AllAbove(g, env, from, n, low) && low' <= low
    ensures AllAbove(g, env, from, n, low')
  {
    forall x | OnStack(env, x) && env.index[x] >= from ensures Above(g, env, n, low', x) {
      assert Above(g, env, n, low, x);
    }
  }

  lemma {:induction false} AfterConnect(g: Graph, env: Env, id: Id, n: nat, base: nat, open: set<Id>, done: set<Id>,
      w: Id, low: nat)
    requires VisitInv(g, env, id, n, base, open, done, low) && w in g[id] && w !in env.index
    requires Inv(g, Connect(g, env, w).0, open + {id})
    requires ConnectPost(g, |env.index|, w, Connect(g, env, w).0, Connect(g, env, w).1)
    ensures VisitInv(g, Step(g, env, w, low).0, id, n, base, open, done + {w}, Step(g, env, w, low).1)
  {
    hide Numbered, Placed, Disjoint, Ordered, SuccessorsSeen, Forward, AllAnchored, Witnessed, Done, AllAbove,
        AllReach, OnStack, Closed, Current, Extends, Connect;
    var (env', lw) := Connect(g, env, w);
    var low' := Step(g, env, w, low).1;
    assert Step(g, env, w, low).0 == env';
    CurrentKept(g, env, env', id, n, base, open);
    KeptBelow(env, env', |env.index|);
    AfterWitness(g, env, env', id, w, n, low, lw);
    AfterAbove(g, env, env', n, low, lw, low');
    AfterDone(env, env', n, done, w, low, low');
  }

  lemma CurrentKept(g: Graph, env: Env, env': Env, id: Id, n: nat, base: nat, open: set<Id>)
    requires Current(g, env, id, n, base, open) && Extends(env, env') && Numbered(env)
    requires forall x :: x in open + {id} ==> OnStack(env, x)
    ensures Current(g, env', id, n, base, open) && n < |env.index| && id in g
  {
    hide AllReach;
    forall x | x in open && x in env'.index ensures env'.index[x] < n {
      assert x in open + {id};
    }
  }

  lemma {:induction false} AfterDone(env: Env, env': Env, n: nat, done: set<Id>, w: Id, low: nat, low': nat)
    requires Done(env, n, done, low) && low' <= low && Extends(env, env') && n < |env.index|
    requires w in env'.index && env'.index[w] == |env.index|
    requires forall x :: OnStack(env', x) && env'.index[x] < |env.index| ==> OnStack(env, x)
    ensures Done(env', n, done + {w}, low')
  {
    forall y | y in done ensures y in env'.index && (y in env'.stack && env'.index[y] < n ==> low' <= env'.index[y]) {
      assert y in env.index;
      if y in env'.stack { assert OnStack(env', y); }
    }
  }

  /** The nodes of an extended stack numbered below the old size are the old ones. */
  lemma {:induction false} KeptBelow(env: Env, env': Env, m: nat)
    requires Numbered(env) && Placed(env) && Numbered(env') && Placed(env') && Extends(env, env') && m == |env.index|
    ensures forall x :: OnStack(env, x) ==> OnStack(env', x) && env'.index[x] == env.index[x] < m
    ensures forall x :: OnStack(env', x) && env'.index[x] < m ==> OnStack(env, x)
  {
    forall x | OnStack(env, x) ensures OnStack(env', x) && env'.index[x] == env.index[x] < m {
    }
    forall x | OnStack(env', x) && env'.index[x] < m ensures OnStack(env, x) {
      SmallNumbersTaken(env, env', x);
      StillStacked(env, env', x);
    }
  }

  lemma {:induction false} StillStacked(env: Env, env': Env, x: Id)
    requires Placed(env) && Placed(env') && env.output <= env'.output
    requires x in env.index && x in env'.stack
    ensures x in env.stack
  {
    if x !in env.stack {
      assert InOutput(env.output, x);
      MoreOutput(env.output, env'.output, x);
      assert false;
    }
  }

  lemma {:induction false} MoreOutput(output: seq<seq<Id>>, output': seq<seq<Id>>, x: Id)
    requires output <= output' && InOutput(output, x)
    ensures InOutput(output', x)
  {
    var l :| 0 <= l < |output| && x in output[l];
    assert output'[l] == output[l];
  }

  /** Numbers below `|env.index|` belong to nodes of `env`. */
  lemma {:induction false} SmallNumbersTaken(env: Env, env': Env, x: Id)
    requires Numbered(env) && Numbered(env') && Extends(env, env')
    requires x in env'.index && env'.index[x] < |env.index|
    ensures x in env.index
  {
    var numbers := set y | y in env.index :: env.index[y];
    SameSize(env.index.Keys, env.index);
    BelowSize(numbers + {env'.index[x]}, |env.index|);
    if env'.index[x] !in numbers {
      assert false;
    }
  }

  /** There are at most `n` numbers below `n`. */
  lemma {:induction false} BelowSize(s: set<nat>, n: nat)
    requires forall i :: i in s ==> i < n
    ensures |s| <= n
  {
    if n > 0 {
      BelowSize(s - {n - 1}, n - 1);
      assert |s| <= |s - {n - 1}| + 1 by {
        if n - 1 in s { assert s == (s - {n - 1}) + {n - 1}; } else { assert s - {n - 1} == s; }
      }
    }
  }

  lemma {:induction false} SameSize(s: set<Id>, m: map<Id, nat>)
    requires s <= m.Keys && forall x, y :: x in s && y in s && m[x] == m[y] ==> x == y
    ensures |set y | y in s :: m[y]| == |s|
    decreases |s|
  {
    var image := set y | y in s :: m[y];
    if s != {} {
      var x :| x in s;
      SameSize(s - {x}, m);
      assert image == (set y | y in s - {x} :: m[y]) + {m[x]};
      assert m[x] !in (set y | y in s - {x} :: m[y]);
    } else {
      assert image == {};
    }
  }

  lemma {:induction false} AfterWitness(g: Graph, env: Env, env': Env, id: Id, w: Id, n: nat, low: nat, lw: nat)
    requires Witnessed(g, env, id, low) && id in g && w in g[id]
    requires forall x :: OnStack(env, x) ==> OnStack(env', x) && env'.index[x] == env.index[x] < |env.index|
    requires w in env'.stack ==> Witnessed(g, env', w, lw)
    requires w !in env'.stack ==> lw == |env.index|
    ensures Witnessed(g, env', id, if lw < low then lw else low)
  {
    ReachEdge(g, id, w);
    var y :| OnStack(env, y) && env.index[y] == low && Reach(g, id, y);
    assert OnStack(env', y);
    if lw < low {
      var z :| OnStack(env', z) && env'.index[z] == lw && Reach(g, w, z);
      ReachTrans(g, id, w, z);
    }
  }

  lemma {:induction false} AfterAbove(g: Graph, env: Env, env': Env, n: nat, low: nat, lw: nat, low': nat)
    requires AllAbove(g, env, n + 1, n, low) && AllAbove(g, env', |env.index|, |env.index|, lw)
    requires low' <= low && low' <= lw && n < |env.index|
    requires forall x :: OnStack(env, x) ==> OnStack(env', x) && env'.index[x] == env.index[x] < |env.index|
    requires forall x :: OnStack(env', x) && env'.index[x] < |env.index| ==> OnStack(env, x)
    ensures AllAbove(g, env', n + 1, n, low')
  {
    forall x | OnStack(env', x) && env'.index[x] >= n + 1 ensures Above(g, env', n, low', x) {
      if env'.index[x] < |env.index| {
        assert Above(g, env, n, low, x);
      } else {
        assert Above(g, env', |env.index|, lw, x);
      }
    }
  }

  lemma VisitBasics(g: Graph, env: Env, id: Id, n: nat, base: nat, open: set<Id>, done: set<Id>, low: nat)
    requires VisitInv(g, env, id, n, base, open, done, low)
    ensures Sized(g, env) && id in g && id in env.stack && base < |env.stack| && env.stack[base] == id
  {
  }

  lemma SuccessorsAreNodes(g: Graph, env: Env, id: Id)
    requires Sized(g, env) && id in g
    ensures forall w :: w in g[id] ==> w in g
  {
  }

  lemma VisitNil(g: Graph, env: Env, low: nat)
    requires Sized(g, env)
    ensures Visit(g, env, [], low) == (env, low)
  {
  }

  lemma VisitCons(g: Graph, env: Env, succs: seq<Id>, low: nat)
    requires Sized(g, env) && (forall w :: w in succs ==> w in g) && succs != []
    ensures var s := Step(g, env, succs[0], low);
      && Sized(g, s.0) && g.Keys - s.0.index.Keys <= g.Keys - env.index.Keys
      && Visit(g, env, succs, low) == Visit(g, s.0, succs[1..], s.1)
  {
  }

  lemma {:induction false} VisitCorrect(g: Graph, env: Env, id: Id, n: nat, base: nat, open: set<Id>, done: set<Id>,
      succs: seq<Id>, low: nat)
    requires VisitInv(g, env, id, n, base, open, done, low) && forall w :: w in succs ==> w in g[id]
    ensures VisitInv(g, Visit(g, env, succs, low).0, id, n, base, open, done + Elems(succs),
      Visit(g, env, succs, low).1)
    decreases g.Keys - env.index.Keys, |succs| + 2
  {
    hide *;
    VisitBasics(g, env, id, n, base, open, done, low);
    assert forall w :: w in g[id] ==> w in g by { SuccessorsAreNodes(g, env, id); }
    if succs == [] {
      assert done + Elems(succs) == done;
      VisitNil(g, env, low);
    } else {
      var w := succs[0];
      var s := Step(g, env, w, low);
      VisitCons(g, env, succs, low);
      StepCorrect(g, env, id, n, base, open, done, w, low);
      VisitCorrect(g, s.0, id, n, base, open, done + {w}, succs[1..], s.1);
      assert done + {w} + Elems(succs[1..]) == done + Elems(succs);
    }
  }

  /** A node whose low link is below its own number stays on the stack, reaching an older open node. */
  lemma {:induction false} CloseAnchored(g: Graph, env: Env, id: Id, n: nat, open: set<Id>, low: nat)
    requires AllAnchored(g, env, open + {id}) && Witnessed(g, env, id, low) && low < n
    requires id in env.index && env.index[id] == n
    ensures AllAnchored(g, env, open)
  {
    var z :| OnStack(env, z) && env.index[z] == low && Reach(g, id, z);
    assert Anchored(g, env, open + {id}, z);
    var v :| v in open + {id} && OnStack(env, v) && env.index[v] <= env.index[z] && Reach(g, z, v);
    ReachTrans(g, id, z, v);
    forall y | OnStack(env, y) ensures Anchored(g, env, open, y) {
      assert Anchored(g, env, open + {id}, y);
      var x :| x in open + {id} && OnStack(env, x) && env.index[x] <= env.index[y] && Reach(g, y, x);
      if x == id { ReachTrans(g, y, id, v); }
    }
  }

  lemma {:induction false} CloseInv(g: Graph, env: Env, id: Id, n: nat, base: nat, open: set<Id>, low: nat)
    requires id in g && VisitInv(g, env, id, n, base, open, g[id], low) && low < n
    ensures Inv(g, env, open) && AllAbove(g, env, n, n, low)
  {
    hide AllAnchored, Witnessed, Forward, Placed, Ordered, Disjoint;
    CloseAnchored(g, env, id, n, open, low);
    IdAbove(g, env, id, n, low);
  }

  lemma {:induction false} IdAbove(g: Graph, env: Env, id: Id, n: nat, low: nat)
    requires id in g && Done(env, n, g[id], low) && AllAbove(g, env, n + 1, n, low)
    requires Numbered(env) && id in env.index && env.index[id] == n
    ensures AllAbove(g, env, n, n, low)
  {
    forall x | OnStack(env, x) && env.index[x] >= n ensures Above(g, env, n, low, x) {
    }
  }

  ghost function OutputSet(output: seq<seq<Id>>): set<Id> {
    set k, x | 0 <= k < |output| && x in output[k] :: x
  }

  ghost function From(env: Env, n: nat): set<Id> {
    set x | x in env.stack && x in env.index && env.index[x] >= n
  }

  /** No edge leads from the part of the stack above a root back below it. */
  lemma {:induction false} NoEscape(g: Graph, env: Env, id: Id, n: nat, open: set<Id>)
    requires Placed(env) && SuccessorsSeen(g, env, open + {id}) && Ordered(g, env.output)
    requires id in g && Done(env, n, g[id], n) && AllAbove(g, env, n, n, n)
    requires forall x :: x in open && x in env.index ==> env.index[x] < n
    ensures Invariant(g, From(env, n) + OutputSet(env.output))
  {
    var all := From(env, n) + OutputSet(env.output);
    forall x, y | x in all && x in g && y in g[x] ensures y in all {
      if x in From(env, n) {
        assert Above(g, env, n, n, x);
        assert y in env.index;
        if y !in env.stack {
          assert InOutput(env.output, y);
        }
      } else {
        var k :| 0 <= k < |env.output| && x in env.output[k];
        assert Backward(g, env.output, k, env.output[k]);
        assert UpTo(env.output, k + 1, y);
      }
    }
  }

  /** The part of the stack from a root up is strongly connected. */
  lemma {:induction false} PoppedIsMutual(g: Graph, env: Env, id: Id, n: nat, open: set<Id>)
    requires Placed(env) && Forward(g, env) && AllAnchored(g, env, open + {id})
    requires Invariant(g, From(env, n) + OutputSet(env.output))
    requires OnStack(env, id) && env.index[id] == n
    requires forall x :: x in open && x in env.index ==> env.index[x] < n
    ensures forall x, y :: x in From(env, n) && y in From(env, n) ==> Reach(g, x, y)
  {
    forall x | x in From(env, n) ensures Reach(g, id, x) && Reach(g, x, id) {
      assert OnStack(env, x) && Anchored(g, env, open + {id}, x);
      var z :| z in open + {id} && OnStack(env, z) && env.index[z] <= env.index[x] && Reach(g, x, z);
      ReachInvariant(g, From(env, n) + OutputSet(env.output), x, z);
      if z in OutputSet(env.output) {
        assert InOutput(env.output, z);
      }
    }
    forall x, y | x in From(env, n) && y in From(env, n) ensures Reach(g, x, y) {
      ReachTrans(g, x, id, y);
    }
  }

  /** Where the stack is cut, its numbers pass `n`. */
  lemma {:induction false} CutAt(env: Env, id: Id, n: nat, base: nat)
    requires Placed(env) && base < |env.stack| && env.stack[base] == id && id in env.index && env.index[id] == n
    ensures forall x :: x in env.stack[..base] ==> OnStack(env, x) && env.index[x] < n
    ensures forall x :: x in Reversed(env.stack[base..]) <==> x in From(env, n)
    ensures forall x :: x in env.stack <==> x in env.stack[..base] || x in From(env, n)
    ensures Distinct(Reversed(env.stack[base..])) && Reversed(env.stack[base..]) != []
  {
    var c := env.stack[base..];
    SameElements(c);
    assert env.stack == env.stack[..base] + c;
    forall x | x in c ensures x in From(env, n) {
      var i :| 0 <= i < |c| && c[i] == x;
      assert env.stack[base + i] == x;
    }
    forall i, j | 0 <= i < j < |c| ensures c[i] != c[j] {
      assert c[i] == env.stack[base + i] && c[j] == env.stack[base + j];
    }
    hide Placed;
  }

  lemma {:induction false} SameElements(c: seq<Id>)
    ensures forall x :: x in Reversed(c) <==> x in c
  {
    forall x | x in c ensures x in Reversed(c) {
      var i :| 0 <= i < |c| && c[i] == x;
      assert Reversed(c)[|c| - 1 - i] == x;
    }
  }

  lemma {:induction false} PopInv(g: Graph, env: Env, id: Id, n: nat, base: nat, open: set<Id>)
    requires id in g && VisitInv(g, env, id, n, base, open, g[id], n)
    ensures Inv(g, Pop(env, base), open) && AllAbove(g, Pop(env, base), n, n, n) && id !in Pop(env, base).stack
  {
    var e := Pop(env, base);
    var r := Reversed(env.stack[base..]);
    CutAt(env, id, n, base);
    IdAbove(g, env, id, n, n);
    NoEscape(g, env, id, n, open);
    PoppedIsMutual(g, env, id, n, open);
    PoppedOutput(env.output, r);
    PoppedOrder(g, env.output, r, From(env, n));
    assert Placed(e) by { PoppedPlaced(env, id, n, base); }
    forall x | x in open ensures OnStack(e, x) {
      assert OnStack(env, x);
    }
    PoppedAnchored(g, env, e, id, n, open);
  }

  lemma {:induction false} PoppedAnchored(g: Graph, env: Env, e: Env, id: Id, n: nat, open: set<Id>)
    requires AllAnchored(g, env, open + {id}) && Forward(g, env) && e.index == env.index
    requires forall x :: x in e.stack ==> OnStack(env, x) && env.index[x] < n
    requires forall x :: x in open ==> OnStack(e, x)
    requires id in env.index && env.index[id] == n
    ensures AllAnchored(g, e, open) && Forward(g, e)
  {
    forall y | OnStack(e, y) ensures Anchored(g, e, open, y) {
      assert Anchored(g, env, open + {id}, y);
      var x :| x in open + {id} && OnStack(env, x) && env.index[x] <= env.index[y] && Reach(g, y, x);
      assert OnStack(e, x);
    }
  }

  lemma {:induction false} PoppedPlaced(env: Env, id: Id, n: nat, base: nat)
    requires Placed(env) && base < |env.stack| && env.stack[base] == id && id in env.index && env.index[id] == n
    ensures Placed(Pop(env, base))
  {
    var e := Pop(env, base);
    var r := Reversed(env.stack[base..]);
    CutAt(env, id, n, base);
    PoppedOutput(env.output, r);
    forall x | x in e.stack ensures x in e.index && !InOutput(e.output, x) {
      assert OnStack(env, x) && env.index[x] < n;
    }
    forall i, j | 0 <= i < j < |e.stack|
      ensures e.stack[i] in e.index && e.stack[j] in e.index && e.index[e.stack[i]] < e.index[e.stack[j]]
    {
      assert e.stack[i] == env.stack[i] && e.stack[j] == env.stack[j];
    }
  }

  lemma {:induction false} PoppedOutput(output: seq<seq<Id>>, r: seq<Id>)
    ensures forall x :: InOutput(output + [r], x) <==> InOutput(output, x) || x in r
    ensures forall k: nat, x :: k <= |output| ==> (UpTo(output + [r], k, x) <==> UpTo(output, k, x))
    ensures Disjoint(output) && r != [] && Distinct(r) && (forall x :: x in r ==> !InOutput(output, x)) ==>
      Disjoint(output + [r])
  {
    var out := output + [r];
    forall k: nat, x | k <= |output| ensures UpTo(out, k, x) <==> UpTo(output, k, x) {
      if UpTo(output, k, x) {
        var l :| 0 <= l < k && l < |output| && x in output[l];
        assert out[l] == output[l];
      }
    }
    forall x ensures InOutput(out, x) <==> InOutput(output, x) || x in r {
      if x in r { assert out[|output|] == r; }
      if InOutput(output, x) {
        assert UpTo(out, |output|, x);
      }
    }
  }

  lemma {:induction false} PoppedOrder(g: Graph, output: seq<seq<Id>>, r: seq<Id>, c: set<Id>)
    requires Ordered(g, output) && Invariant(g, c + OutputSet(output))
    requires forall x :: x in r <==> x in c
    requires forall x, y :: x in c && y in c ==> Reach(g, x, y)
    ensures Ordered(g, output + [r])
  {
    var out := output + [r];
    PoppedOutput(output, r);
    forall k | 0 <= k < |out| ensures Mutual(g, out[k]) && Backward(g, out, k, out[k]) {
      if k < |output| {
        assert out[k] == output[k];
        forall x, y | x in out[k] && x in g && y in g[x] ensures UpTo(out, k + 1, y) {
          assert UpTo(output, k + 1, y);
        }
      } else {
        forall x, y | x in r && x in g && y in g[x] ensures UpTo(out, k + 1, y) {
          assert y in c + OutputSet(output);
          if y in c {
            assert y in out[k];
          } else {
            var l :| 0 <= l < |output| && y in output[l];
            assert out[l] == output[l];
          }
        }
      }
    }
  }

  lemma {:induction false} ConnectCorrect(g: Graph, env: Env, id: Id, open: set<Id>)
    requires Inv(g, env, open) && AllReach(g, open, id) && id in g && id !in env.index
    ensures Inv(g, Connect(g, env, id).0, open)
    ensures ConnectPost(g, |env.index|, id, Connect(g, env, id).0, Connect(g, env, id).1)
    decreases g.Keys - env.index.Keys, 0
  {
    hide *;
    var n := |env.index|;
    var base := |env.stack|;
    var entered := Env(env.index[id := n], env.stack + [id], env.output);
    assert g.Keys - entered.index.Keys < g.Keys - env.index.Keys by {
      assert id in g.Keys - env.index.Keys && id !in g.Keys - entered.index.Keys;
    }
    EnterInv(g, env, id, open);
    InvBasics(g, env, open);
    ConnectUnfold(g, env, id);
    var succs := Ascending(g[id]);
    VisitCorrect(g, entered, id, n, base, open, {}, succs, n);
    var v := Visit(g, entered, succs, n);
    assert {} + Elems(succs) == g[id];
    if v.1 == n {
      PopInv(g, v.0, id, n, base, open);
      PostPopped(g, n, id, Pop(v.0, base));
    } else {
      VisitWitness(g, v.0, id, n, base, open, v.1);
      CloseInv(g, v.0, id, n, base, open, v.1);
      PostClosed(g, n, id, v.0, v.1);
    }
  }

  lemma InvBasics(g: Graph, env: Env, open: set<Id>)
    requires Inv(g, env, open)
    ensures Sized(g, env)
  {
    hide Sized;
  }

  lemma ConnectUnfold(g: Graph, env: Env, id: Id)
    requires Sized(g, env) && id in g && id !in env.index
    ensures var e := Env(env.index[id := |env.index|], env.stack + [id], env.output);
      && Sized(g, e) && (forall w :: w in Ascending(g[id]) ==> w in g && w in g[id])
      && (forall w :: w in g[id] ==> w in Ascending(g[id]))
      && var v := Visit(g, e, Ascending(g[id]), |env.index|);
      && |env.stack| <= |v.0.stack| && v.1 <= |env.index|
      && Connect(g, env, id) == (if v.1 == |env.index| then Pop(v.0, |env.stack|) else v.0, v.1)
  {
  }

  lemma PostPopped(g: Graph, n: nat, id: Id, env: Env)
    requires AllAbove(g, env, n, n, n) && id !in env.stack
    ensures ConnectPost(g, n, id, env, n)
  {
    hide AllAbove, Witnessed;
  }

  lemma PostClosed(g: Graph, n: nat, id: Id, env: Env, low: nat)
    requires AllAbove(g, env, n, n, low) && Witnessed(g, env, id, low) && id in env.stack
    ensures ConnectPost(g, n, id, env, low)
  {
    hide AllAbove, Witnessed;
  }

  lemma VisitWitness(g: Graph, env: Env, id: Id, n: nat, base: nat, open: set<Id>, low: nat)
    requires id in g && VisitInv(g, env, id, n, base, open, g[id], low)
    ensures Witnessed(g, env, id, low) && id in env.stack
  {
    hide Inv, Witnessed;
  }

  lemma {:induction false} RootsCorrect(g: Graph, env: Env, ids: seq<Id>)
    requires Inv(g, env, {}) && forall w :: w in ids ==> w in g
    ensures Inv(g, Roots(g, env, ids), {})
    decreases |ids|
  {
    if ids != [] {
      if ids[0] !in env.index { ConnectCorrect(g, env, ids[0], {}); }
      RootsCorrect(g, if ids[0] in env.index then env else Connect(g, env, ids[0]).0, ids[1..]);
    }
  }

  // ---------------------------------------------------------------------------------------
  // What the output is

  lemma NothingAnchored(g: Graph, env: Env, y: Id)
    requires y in env.index
    ensures !Anchored(g, env, {}, y)
  {
  }

  lemma {:induction false} StackEmptied(g: Graph, env: Env)
    requires Inv(g, env, {})
    ensures env.stack == []
  {
    if env.stack != [] {
      assert OnStack(env, env.stack[0]);
      NothingAnchored(g, env, env.stack[0]);
    }
  }

  lemma NothingInv(g: Graph)
    requires Closed(g)
    ensures Inv(g, Env(map[], [], []), {})
  {
  }

  /** The components partition the nodes, are strongly connected, and edges lead backwards. */
  lemma {:induction false} ComponentsPartition(g: Graph)
    requires Closed(g)
    ensures Disjoint(Components(g)) && Ordered(g, Components(g))
    ensures forall x :: x in g <==> InOutput(Components(g), x)
  {
    hide Ordered, Disjoint, Forward, AllAnchored, Numbered, SuccessorsSeen;
    var env := Env(map[], [], []);
    var last := Roots(g, env, Ascending(g.Keys));
    NothingInv(g);
    RootsCorrect(g, env, Ascending(g.Keys));
    StackEmptied(g, last);
    forall x | x in g ensures InOutput(Components(g), x) {
      assert x in Ascending(g.Keys);
    }
  }

  ghost function UpToSet(output: seq<seq<Id>>, k: nat): set<Id> {
    OutputSet(if k <= |output| then output[..k] else output)
  }

  lemma {:induction false} UpToSetIs(output: seq<seq<Id>>, k: nat)
    ensures forall x :: x in UpToSet(output, k) <==> UpTo(output, k, x)
  {
    var o := if k <= |output| then output[..k] else output;
    forall x | UpTo(output, k, x) ensures x in UpToSet(output, k) {
      var l :| 0 <= l < k && l < |output| && x in output[l];
      assert o[l] == output[l];
    }
    forall x | x in UpToSet(output, k) ensures UpTo(output, k, x) {
      var l :| 0 <= l < |o| && x in o[l];
      assert o[l] == output[l];
    }
  }

  /** What a node of component `k` reaches lies in components up to `k`. */
  lemma {:induction false} ReachesBackward(g: Graph, output: seq<seq<Id>>, k: nat, x: Id, y: Id)
    requires Ordered(g, output) && k < |output| && x in output[k] && Reach(g, x, y)
    ensures UpTo(output, k + 1, y)
  {
    UpToSetIs(output, k + 1);
    var s := UpToSet(output, k + 1);
    forall u, v | u in s && u in g && v in g[u] ensures v in s {
      var l :| 0 <= l < k + 1 && l < |output| && u in output[l];
      assert Backward(g, output, l, output[l]);
      assert UpTo(output, l + 1, v);
      var m :| 0 <= m < l + 1 && m < |output| && v in output[m];
      assert UpTo(output, k + 1, v);
    }
    assert x in s by { assert UpTo(output, k + 1, x); }
    ReachInvariant(g, s, x, y);
  }

  /** Components come out in reverse topological order. */
  lemma {:induction false} ReverseTopological(g: Graph, k: nat, l: nat, x: Id, y: Id)
    requires Closed(g) && k < |Components(g)| && l < |Components(g)|
    requires x in Components(g)[k] && y in Components(g)[l] && Reach(g, x, y)
    ensures l <= k
  {
    ComponentsPartition(g);
    ReachesBackward(g, Components(g), k, x, y);
    if l > k {
      var m :| 0 <= m < k + 1 && m < |Components(g)| && y in Components(g)[m];
      assert UpTo(Components(g), l, y);
      assert false;
    }
  }

  /** Two nodes share a component exactly when each reaches the other. */
  lemma {:induction false} SameComponentIffMutual(g: Graph, k: nat, l: nat, x: Id, y: Id)
    requires Closed(g) && k < |Components(g)| && l < |Components(g)|
    requires x in Components(g)[k] && y in Components(g)[l]
    ensures k == l <==> Reach(g, x, y) && Reach(g, y, x)
  {
    if Reach(g, x, y) && Reach(g, y, x) {
      ReverseTopological(g, k, l, x, y);
      ReverseTopological(g, l, k, y, x);
    }
    if k == l {
      ComponentsPartition(g);
      assert Mutual(g, Components(g)[k]);
    }
  }
}

/** Sorting of transaction ids. */
module SortedIds {
  import opened TxnGraph

  ghost predicate StrictlyAscending(s: seq<Id>) {
    forall i, j :: 0 <= i < j < |s| ==> s[i] < s[j]
  }

  lemma MinIsThere(s: set<Id>)
    requires s != {}
    ensures exists m :: m in s && forall x :: x in s ==> m <= x
    decreases |s|
  {
    var k :| k in s;
    var rest := s - {k};
    if rest == {} {
      assert s == {k};
    } else {
      MinIsThere(rest);
      var m :| m in rest && forall x :: x in rest ==> m <= x;
      assert forall x :: x in s <==> x in rest || x == k;
      assert forall x :: x in s ==> (if k < m then k else m) <= x;
    }
  }

  /** The elements of `s` in ascending order. */
  ghost function Ascending(s: set<Id>): (r: seq<Id>)
    ensures StrictlyAscending(r)
    ensures forall x :: x in r <==> x in s
  {
    if s == {} then [] else
      MinIsThere(s);
      var m :| m in s && forall x :: x in s ==> m <= x;
      [m] + Ascending(s - {m})
  }
}

/** The sort of `tarjan.go`: the functions of `TarjanSpec` performed in place. */
module Tarjan {
  import opened TxnGraph
  import opened SortedIds
  import opened TarjanSpec

  /** The edge set of a successor map, whatever the order and repetition in its lists. */
  ghost function Edges(successors: map<Id, seq<Id>>): (g: Graph)
    ensures g.Keys == successors.Keys
    ensures forall x, y :: x in g ==> (y in g[x] <==> y in successors[x])
  {
    map x | x in successors :: Elems(successors[x])
  }

  ghost predicate ClosedLists(successors: map<Id, seq<Id>>) {
    forall x, y :: x in successors && y in successors[x] ==> y in successors
  }

  ghost predicate WeaklyAscending(s: seq<Id>) {
    forall i, j :: 0 <= i < j < |s| ==> s[i] <= s[j]
  }

  lemma ConsAscending(x: Id, t: seq<Id>)
    requires forall y :: y in t ==> x <= y
    ensures WeaklyAscending(t) ==> WeaklyAscending([x] + t)
    ensures StrictlyAscending(t) && x !in t ==> StrictlyAscending([x] + t)
    ensures forall y :: y in [x] + t <==> y == x || y in t
  {
    var s := [x] + t;
    if WeaklyAscending(t) {
      forall i, j | 0 <= i < j < |s| ensures s[i] <= s[j] {
        assert s[j] == t[j - 1];
        if i > 0 { assert s[i] == t[i - 1]; } else { assert t[j - 1] in t; }
      }
    }
    if StrictlyAscending(t) && x !in t {
      forall i, j | 0 <= i < j < |s| ensures s[i] < s[j] {
        assert s[j] == t[j - 1];
        if i > 0 { assert s[i] == t[i - 1]; } else { assert t[j - 1] in t; }
      }
    }
  }

  lemma TailOfAscending(s: seq<Id>)
    requires s != []
    ensures WeaklyAscending(s) ==> WeaklyAscending(s[1..]) && forall y :: y in s[1..] ==> s[0] <= y
    ensures StrictlyAscending(s) ==> StrictlyAscending(s[1..]) && forall y :: y in s[1..] ==> s[0] < y
    ensures forall y :: y in s <==> y == s[0] || y in s[1..]
    ensures s == [s[0]] + s[1..]
  {
    assert s == [s[0]] + s[1..];
  }

  function Insert(x: Id, s: seq<Id>): (r: seq<Id>)
    requires WeaklyAscending(s)
    ensures WeaklyAscending(r) && multiset(r) == multiset(s) + multiset{x}
    ensures forall y :: y in r <==> y == x || y in s
  {
    if s == [] then [x]
    else
      TailOfAscending(s);
      if x <= s[0] then
        ConsAscending(x, s);
        [x] + s
      else
        var t := Insert(x, s[1..]);
        ConsAscending(s[0], t);
        [s[0]] + t
  }

  /** Go's `sort.Sort` and `sort.Strings` on ids. */
  function Sort(s: seq<Id>): (r: seq<Id>)
    ensures WeaklyAscending(r) && multiset(r) == multiset(s)
    ensures forall x :: x in r <==> x in s
  {
    if s == [] then [] else
      assert s == [s[0]] + s[1..];
      Insert(s[0], Sort(s[1..]))
  }

  /** An ascending list with each repeated element kept once. */
  ghost function Dedup(s: seq<Id>): (r: seq<Id>)
    requires WeaklyAscending(s)
    ensures StrictlyAscending(r)
    ensures forall x :: x in r <==> x in s
    ensures s != [] ==> r != [] && r[0] == s[0]
  {
    if |s| <= 1 then s
    else if s[0] == s[1] then Dedup(s[1..])
    else
      var t := Dedup(s[1..]);
      assert s[1..][0] == s[1];
      [s[0]] + t
  }

  lemma TailMembers(a: seq<Id>)
    requires StrictlyAscending(a) && a != []
    ensures forall x :: x in a[1..] <==> x in a && x != a[0]
  {
    assert a == [a[0]] + a[1..];
  }

  lemma {:induction false} AscendingUnique(a: seq<Id>, b: seq<Id>)
    requires StrictlyAscending(a) && StrictlyAscending(b)
    requires forall x :: x in a <==> x in b
    ensures a == b
  {
    assert a != [] ==> a[0] in b;
    assert b != [] ==> b[0] in a;
    if a != [] {
      assert a[0] == b[0] by {
        assert a[0] in b && b[0] in a;
      }
      TailMembers(a);
      TailMembers(b);
      AscendingUnique(a[1..], b[1..]);
    }
  }

  /** Visiting the same successor twice in a row is visiting it once. */
  lemma StepTwice(g: Graph, env: Env, w: Id, low: nat)
    requires Sized(g, env) && w in g
    ensures var s := Step(g, env, w, low); Step(g, s.0, w, s.1) == s
  {
  }

  lemma {:induction false} DedupStep(g: Graph, env: Env, s: seq<Id>, low: nat)
    requires WeaklyAscending(s) && s != []
    requires Sized(g, env) && forall w :: w in s ==> w in g
    ensures var t := Step(g, env, s[0], low);
      Visit(g, env, Dedup(s), low) == Visit(g, t.0, Dedup(s[1..]), t.1)
  {
    var t := Step(g, env, s[0], low);
    var d := Dedup(s[1..]);
    VisitCons(g, env, Dedup(s), low);
    if |s| > 1 && s[0] == s[1] {
      assert d[0] == s[0];
      VisitCons(g, t.0, d, t.1);
      StepTwice(g, env, s[0], low);
    } else {
      assert Dedup(s)[1..] == d;
    }
  }

  lemma SmallerKeys(a: set<Id>, b: set<Id>, x: Id)
    requires a <= b && x in b && x !in a
    ensures |a| < |b|
  {
    assert b == a + (b - a) && x in b - a;
    assert |b| == |a| + |b - a|;
  }

  lemma StepNew(g: Graph, env: Env, w: Id, low: nat)
    requires Sized(g, env) && w in g && w !in env.index
    ensures var c := Connect(g, env, w); Step(g, env, w, low) == (c.0, if c.1 < low then c.1 else low)
    ensures var c := Connect(g, env, w); Extends(env, c.0) && Sized(g, c.0)
  {
  }

  lemma StepSeen(g: Graph, env: Env, w: Id, low: nat)
    requires Sized(g, env) && w in g && w in env.index
    ensures Step(g, env, w, low) == (env, if w in env.stack && env.index[w] < low then env.index[w] else low)
  {
  }

  lemma ExtendsRefl(a: Env)
    ensures Extends(a, a)
  {
  }

  lemma ExtendsAt(a: Env, b: Env, i: nat)
    requires Extends(a, b) && i < |a.stack|
    ensures i < |b.stack| && b.stack[i] == a.stack[i]
    ensures forall x :: x in a.index ==> x in b.index && b.index[x] == a.index[x]
  {
  }

  lemma ExtendsSmaller(g: Graph, a: Env, b: Env)
    requires Extends(a, b)
    ensures g.Keys - b.index.Keys <= g.Keys - a.index.Keys
  {
  }

  lemma SmallerSet(all: set<Id>, a: set<Id>, b: set<Id>, id: Id)
    requires b == a + {id} && id in all && id !in a
    ensures all - b < all - a
  {
    assert id in all - a && id !in all - b;
  }

  lemma StepExtends(g: Graph, a: Env, b: Env, w: Id, low: nat)
    requires Sized(g, b) && w in g && Extends(a, b)
    ensures Extends(a, Step(g, b, w, low).0) && Sized(g, Step(g, b, w, low).0)
  {
    hide Step, Sized;
  }

  /** What is left of a visit when the sorted list `s` has been processed up to `k`. */
  ghost function VisitFrom(g: Graph, env: Env, s: seq<Id>, k: nat, low: nat): (Env, nat)
    requires Sized(g, env) && WeaklyAscending(s) && k <= |s| && forall w :: w in s ==> w in g
  {
    Visit(g, env, Dedup(s[k..]), low)
  }

  lemma VisitFromStart(g: Graph, env: Env, s: seq<Id>, x: set<Id>, low: nat)
    requires Sized(g, env) && WeaklyAscending(s) && (forall w :: w in s ==> w in g) && (forall w :: w in x <==> w in s)
    ensures VisitFrom(g, env, s, 0, low) == Visit(g, env, Ascending(x), low)
  {
    hide Visit, Sized;
    assert s[0..] == s;
    AscendingUnique(Dedup(s), Ascending(x));
  }

  lemma VisitFromStep(g: Graph, env: Env, s: seq<Id>, k: nat, low: nat)
    requires Sized(g, env) && WeaklyAscending(s) && k < |s| && forall w :: w in s ==> w in g
    ensures var t := Step(g, env, s[k], low);
      VisitFrom(g, env, s, k, low) == VisitFrom(g, t.0, s, k + 1, t.1)
  {
    hide Visit, Sized, Step, Dedup;
    DedupStep(g, env, s[k..], low);
    assert s[k..][1..] == s[k + 1..];
  }

  lemma VisitFromEnd(g: Graph, env: Env, s: seq<Id>, low: nat)
    requires Sized(g, env) && WeaklyAscending(s) && forall w :: w in s ==> w in g
    ensures VisitFrom(g, env, s, |s|, low) == (env, low)
  {
    assert s[|s|..] == [];
  }

  lemma EdgesSorted(successors: map<Id, seq<Id>>, id: Id)
    requires id in successors
    ensures Edges(successors[id := Sort(successors[id])]) == Edges(successors)
    ensures ClosedLists(successors) ==> ClosedLists(successors[id := Sort(successors[id])])
  {
    var g, g' := Edges(successors), Edges(successors[id := Sort(successors[id])]);
    forall x | x in g ensures g[x] == g'[x] {
    }
  }

  datatype TarjanNode = TarjanNode(lowlink: nat, stacked: bool)

  /** The stacked flags agree with the stack. */
  ghost predicate Flagged(nodes: seq<TarjanNode>, stack: seq<Id>, index: map<Id, nat>) {
    && (forall x :: x in index ==> index[x] < |nodes| && (nodes[index[x]].stacked <==> x in stack))
    && (forall x :: x in stack ==> x in index)
  }

  ghost predicate Injective(index: map<Id, nat>) {
    forall x, y :: x in index && y in index && index[x] == index[y] ==> x == y
  }

  /** The fields agree, and every node fits the preallocated capacity. */
  ghost predicate Rep(successors: map<Id, seq<Id>>, nodes: seq<TarjanNode>, stack: seq<Id>, index: map<Id, nat>) {
    && ClosedLists(successors)
    && index.Keys <= successors.Keys
    && |nodes| == |index| <= |successors|
    && Injective(index)
    && Distinct(stack)
    && Flagged(nodes, stack, index)
  }

  lemma DistinctPush(s: seq<Id>, x: Id)
    requires Distinct(s) && x !in s
    ensures Distinct(s + [x])
  {
  }

  lemma FlaggedPush(nodes: seq<TarjanNode>, stack: seq<Id>, index: map<Id, nat>, id: Id)
    requires Flagged(nodes, stack, index) && Injective(index) && id !in index
    ensures Flagged(nodes + [TarjanNode(|nodes|, true)], stack + [id], index[id := |nodes|])
    ensures Injective(index[id := |nodes|])
  {
    var index' := index[id := |nodes|];
    var nodes' := nodes + [TarjanNode(|nodes|, true)];
    forall x | x in index' ensures index'[x] < |nodes'| && (nodes'[index'[x]].stacked <==> x in stack + [id]) {
      if x != id { assert nodes'[index'[x]] == nodes[index[x]]; }
    }
  }

  lemma RepPush(successors: map<Id, seq<Id>>, nodes: seq<TarjanNode>, stack: seq<Id>, index: map<Id, nat>, id: Id)
    requires Rep(successors, nodes, stack, index) && id in successors && id !in index
    ensures Rep(successors[id := Sort(successors[id])], nodes + [TarjanNode(|nodes|, true)], stack + [id],
      index[id := |nodes|])
    ensures |index| == |nodes|
  {
    assert id !in stack;
    EdgesSorted(successors, id);
    DistinctPush(stack, id);
    FlaggedPush(nodes, stack, index, id);
    hide ClosedLists, Distinct, Sort, Flagged, Injective;
    assert index[id := |nodes|].Keys == index.Keys + {id};
    SmallerKeys(index.Keys, successors.Keys, id);
    assert successors[id := Sort(successors[id])].Keys == successors.Keys;
  }

  lemma RepLow(successors: map<Id, seq<Id>>, nodes: seq<TarjanNode>, stack: seq<Id>, index: map<Id, nat>, i: nat,
      low: nat)
    requires Rep(successors, nodes, stack, index) && i < |nodes|
    ensures Rep(successors, nodes[i := nodes[i].(lowlink := low)], stack, index)
  {
    hide ClosedLists, Distinct;
  }

  lemma RepNode(successors: map<Id, seq<Id>>, nodes: seq<TarjanNode>, stack: seq<Id>, index: map<Id, nat>, x: Id)
    requires Rep(successors, nodes, stack, index) && x in index
    ensures index[x] < |nodes| && (nodes[index[x]].stacked <==> x in stack)
  {
    hide ClosedLists, Distinct;
  }

  /** Cutting the stack at `i` and clearing the flags above it. */
  lemma RepPop(successors: map<Id, seq<Id>>, nodes: seq<TarjanNode>, nodes': seq<TarjanNode>, stack: seq<Id>,
      index: map<Id, nat>, i: nat)
    requires Rep(successors, nodes, stack, index) && i <= |stack| && |nodes'| == |nodes|
    requires forall x :: x in index && index[x] < |nodes| ==>
      nodes'[index[x]].stacked == (nodes[index[x]].stacked && x !in stack[i..])
    ensures Rep(successors, nodes', stack[..i], index)
  {
    hide ClosedLists;
    assert stack == stack[..i] + stack[i..];
    forall x | x in stack[..i] ensures x !in stack[i..] {
      var j :| 0 <= j < i && stack[j] == x;
    }
  }

  /** Every stacked node is numbered, and no two by the same number. */
  lemma RepAt(successors: map<Id, seq<Id>>, nodes: seq<TarjanNode>, stack: seq<Id>, index: map<Id, nat>, base: nat)
    requires Rep(successors, nodes, stack, index) && base < |stack|
    ensures Injective(index) && forall x :: x in stack ==> x in index && index[x] < |nodes|
    ensures forall i :: 0 <= i < |stack| && index[stack[i]] == index[stack[base]] ==> i == base
  {
    hide ClosedLists;
  }

  class TarjanData {
    var successors: map<Id, seq<Id>>
    var output: seq<seq<Id>>
    var nodes: seq<TarjanNode>
    var stack: seq<Id>
    var index: map<Id, nat>

    ghost function State(): Env
      reads this
    {
      Env(index, stack, output)
    }

    ghost predicate Valid()
      reads this
    {
      Rep(successors, nodes, stack, index)
    }

    constructor (successors: map<Id, seq<Id>>)
      requires ClosedLists(successors)
      ensures Valid() && State() == Env(map[], [], []) && this.successors == successors
    {
      this.successors := successors;
      output, nodes, stack, index := [], [], [], map[];
    }

    /** Pops the stack down to the node numbered `n`, outputting what it pops. */
    method PopComponent(n: nat, ghost base: nat)
      requires Valid() && base < |stack| && stack[base] in index && index[stack[base]] == n
      modifies this
      ensures Valid() && State() == Pop(old(State()), base)
      ensures successors == old(successors) && |nodes| == |old(nodes)|
      ensures forall i :: 0 <= i < |nodes| ==> nodes[i].lowlink == old(nodes)[i].lowlink
    {
      hide Rep, Reversed;
      RepAt(successors, nodes, stack, index, base);
      var scc: seq<Id> := [];
      var i := |stack| - 1;
      ReversedStep(stack, i);
      while true
        invariant base <= i < |stack|
        invariant scc == Reversed(stack[i + 1..])
        invariant |nodes| == |old(nodes)|
        invariant forall j :: 0 <= j < |nodes| ==> nodes[j].lowlink == old(nodes)[j].lowlink
        invariant forall x :: x in index && index[x] < |nodes| ==>
          nodes[index[x]].stacked == (old(nodes)[index[x]].stacked && x !in stack[i + 1..])
        invariant stack == old(stack) && index == old(index) && output == old(output) && successors == old(successors)
        decreases i
      {
        var stackid := stack[i];
        assert stackid in stack;
        var stackindex := index[stackid];
        nodes := nodes[stackindex := nodes[stackindex].(stacked := false)];
        assert stack[i..] == [stackid] + stack[i + 1..];
        ReversedStep(stack, i);
        scc := scc + [stackid];
        if stackindex == n {
          break;
        }
        i := i - 1;
      }
      assert stack[i] == stack[base];
      RepPop(successors, old(nodes), nodes, stack, index, i);
      stack := stack[..i];
      output := output + [scc];
    }

    /** One turn of the loop over the successors of the node numbered `n`. */
    method VisitSuccessor(n: nat, succid: Id)
      requires Valid() && n < |nodes| && succid in successors
      requires Sized(Edges(successors), State())
      modifies this
      ensures Valid() && Edges(successors) == old(Edges(successors)) && n < |nodes|
      ensures (State(), nodes[n].lowlink) == Step(old(Edges(successors)), old(State()), succid, old(nodes[n].lowlink))
      ensures forall i :: 0 <= i < n ==> nodes[i].lowlink == old(nodes)[i].lowlink
      decreases successors.Keys - index.Keys, 1
    {
      hide Rep, Step, Connect, Edges, Sized;
      ghost var g := Edges(successors);
      if succid !in index {
        StepNew(g, State(), succid, nodes[n].lowlink);
        var low := StrongConnect(succid);
        if low < nodes[n].lowlink {
          RepLow(successors, nodes, stack, index, n, low);
          nodes := nodes[n := nodes[n].(lowlink := low)];
        }
      } else {
        StepSeen(g, State(), succid, nodes[n].lowlink);
        RepNode(successors, nodes, stack, index, succid);
        if nodes[index[succid]].stacked {
          if index[succid] < nodes[n].lowlink {
            RepLow(successors, nodes, stack, index, n, index[succid]);
            nodes := nodes[n := nodes[n].(lowlink := index[succid])];
          }
        }
      }
    }

    /** The loop over the sorted successors of the node numbered `n`. */
    method VisitSuccessors(n: nat, succids: seq<Id>)
      requires Valid() && n < |nodes| && WeaklyAscending(succids)
      requires Sized(Edges(successors), State()) && forall w :: w in succids ==> w in successors
      modifies this
      ensures Valid() && Edges(successors) == old(Edges(successors)) && n < |nodes|
      ensures Extends(old(State()), State())
      ensures (State(), nodes[n].lowlink) ==
        VisitFrom(old(Edges(successors)), old(State()), succids, 0, old(nodes[n].lowlink))
      ensures forall i :: 0 <= i < n ==> nodes[i].lowlink == old(nodes)[i].lowlink
      decreases successors.Keys - index.Keys, 2
    {
      hide Step, VisitFrom, Edges, Extends, Sized, Rep, WeaklyAscending;
      ghost var g := Edges(successors);
      ExtendsRefl(State());
      var k := 0;
      while k < |succids|
        invariant 0 <= k <= |succids| && Valid() && Edges(successors) == g
        invariant Sized(g, State()) && Extends(old(State()), State()) && n < |nodes|
        invariant VisitFrom(g, State(), succids, k, nodes[n].lowlink) ==
          VisitFrom(g, old(State()), succids, 0, old(nodes[n].lowlink))
        invariant forall i :: 0 <= i < n ==> nodes[i].lowlink == old(nodes)[i].lowlink
      {
        VisitFromStep(g, State(), succids, k, nodes[n].lowlink);
        ExtendsSmaller(g, old(State()), State());
        StepExtends(g, old(State()), State(), succids[k], nodes[n].lowlink);
        VisitSuccessor(n, succids[k]);
        k := k + 1;
      }
      VisitFromEnd(g, State(), succids, nodes[n].lowlink);
    }

    /** Returns the low link of the node it numbers. Low links of older nodes are untouched. */
    method StrongConnect(id: Id) returns (lowlink: nat)
      requires Valid() && id in successors && id !in index
      requires Sized(Edges(successors), State())
      modifies this
      ensures Valid() && Edges(successors) == old(Edges(successors))
      ensures (State(), lowlink) == Connect(old(Edges(successors)), old(State()), id)
      ensures |old(nodes)| < |nodes| && nodes[|old(nodes)|].lowlink == lowlink
      ensures forall i :: 0 <= i < |old(nodes)| ==> nodes[i].lowlink == old(nodes)[i].lowlink
      decreases successors.Keys - index.Keys, 0
    {
      hide Connect, Step, Visit, VisitFrom, Edges, Ascending, Sort, Extends, Sized, Rep, WeaklyAscending, Pop;
      ghost var g := Edges(successors);
      var n := |nodes|;
      ghost var base := |stack|;
      ghost var entered := Env(index[id := n], stack + [id], output);
      RepPush(successors, nodes, stack, index, id);
      ConnectUnfold(g, State(), id);
      EdgesSorted(successors, id);
      SmallerSet(g.Keys, index.Keys, entered.index.Keys, id);
      index := index[id := n];
      stack := stack + [id];
      nodes := nodes + [TarjanNode(n, true)];
      successors := successors[id := Sort(successors[id])];
      var succids := successors[id];
      VisitFromStart(g, entered, succids, g[id], n);
      VisitSuccessors(n, succids);
      ExtendsAt(entered, State(), base);
      lowlink := nodes[n].lowlink;
      if lowlink == n {
        PopComponent(n, base);
      }
    }
  }

  /** All nodes, in ascending order. */
  method SortedNodes(successors: map<Id, seq<Id>>) returns (sorted: seq<Id>)
    ensures sorted == Ascending(successors.Keys)
  {
    hide Ascending, Sort, Distinct;
    var all: seq<Id> := [];
    var ids := successors.Keys;
    DistinctEmpty();
    while ids != {}
      invariant ids <= successors.Keys && forall x :: x in all <==> x in successors.Keys - ids
      invariant Distinct(all)
      decreases ids
    {
      var id :| id in ids;
      DistinctPush(all, id);
      all := all + [id];
      ids := ids - {id};
    }
    sorted := Sort(all);
    SortedDistinct(all);
    AscendingUnique(sorted, Ascending(successors.Keys));
  }

  /** The components of the graph, in reverse topological order. */
  method TarjanSort(successors: map<Id, seq<Id>>) returns (output: seq<seq<Id>>)
    requires ClosedLists(successors)
    ensures output == Components(Edges(successors))
  {
    hide Sized, RootsFrom, Components, Ascending, Connect, Rep, Edges;
    ghost var g := Edges(successors);
    var data := new TarjanData(successors);
    EdgesClosed(successors);
    var sorted := SortedNodes(successors);
    NothingVisited(g, data.State());
    RootsStart(g);
    var k := 0;
    while k < |sorted|
      invariant 0 <= k <= |sorted| && data.Valid() && Edges(data.successors) == g && fresh(data)
      invariant Sized(g, data.State()) && forall w :: w in sorted ==> w in g
      invariant RootsFrom(g, data.State(), sorted, k) == RootsFrom(g, Env(map[], [], []), sorted, 0)
    {
      RootsStep(g, data.State(), sorted, k);
      if sorted[k] !in data.index {
        var low := data.StrongConnect(sorted[k]);
      }
      k := k + 1;
    }
    RootsEnd(g, data.State(), sorted);
    output := data.output;
  }

  lemma EdgesClosed(successors: map<Id, seq<Id>>)
    requires ClosedLists(successors)
    ensures Closed(Edges(successors))
  {
  }

  lemma DistinctEmpty()
    ensures Distinct([])
  {
  }

  lemma NothingVisited(g: Graph, env: Env)
    requires Closed(g) && env.index == map[]
    ensures Sized(g, env)
  {
  }

  ghost function RootsFrom(g: Graph, env: Env, ids: seq<Id>, k: nat): Env
    requires Sized(g, env) && k <= |ids| && forall w :: w in ids ==> w in g
  {
    Roots(g, env, ids[k..])
  }

  lemma RootsStart(g: Graph)
    requires Closed(g)
    ensures RootsFrom(g, Env(map[], [], []), Ascending(g.Keys), 0).output == Components(g)
  {
    assert Ascending(g.Keys)[0..] == Ascending(g.Keys);
  }

  lemma RootsStep(g: Graph, env: Env, ids: seq<Id>, k: nat)
    requires Sized(g, env) && k < |ids| && forall w :: w in ids ==> w in g
    ensures var next := if ids[k] in env.index then env else Connect(g, env, ids[k]).0;
      Sized(g, next) && RootsFrom(g, env, ids, k) == RootsFrom(g, next, ids, k + 1)
  {
    hide Sized, Connect;
    assert ids[k..][1..] == ids[k + 1..];
  }

  lemma RootsEnd(g: Graph, env: Env, ids: seq<Id>)
    requires Sized(g, env) && forall w :: w in ids ==> w in g
    ensures RootsFrom(g, env, ids, |ids|) == env
  {
    assert ids[|ids|..] == [];
  }

  lemma {:induction false} InsertStrict(x: Id, s: seq<Id>)
    requires StrictlyAscending(s) && x !in s
    ensures StrictlyAscending(Insert(x, s))
  {
    if s != [] {
      TailOfAscending(s);
      if x > s[0] {
        InsertStrict(x, s[1..]);
        ConsAscending(s[0], Insert(x, s[1..]));
      } else {
        ConsAscending(x, s);
      }
    }
  }

  lemma {:induction false} SortedDistinct(s: seq<Id>)
    requires Distinct(s)
    ensures StrictlyAscending(Sort(s))
  {
    if s != [] {
      SortedDistinct(s[1..]);
      InsertStrict(s[0], Sort(s[1..]));
    }
  }
}
