/** The walk of a flush over the components, and what it lets each transaction pull. */
module FlushWalk {
  import opened TxnGraph
  import opened TarjanSpec
  import opened Tarjan
  import opened Tokens
  import opened FlushOrder

  /** One call of `advance`, with the transactions whose entries it may pull (none for a nil map). */
  datatype Call = Call(id: Id, pull: Option<map<Id, Nonce>>)

  function Calls(ids: seq<Id>, pull: map<Id, Nonce>): (r: seq<Call>)
    ensures |r| == |ids| && forall i :: 0 <= i < |r| ==> r[i] == Call(ids[i], Some(pull))
  {
    if ids == [] then [] else [Call(ids[0], Some(pull))] + Calls(ids[1..], pull)
  }

  ghost predicate AllSeen(seen: map<Id, Nonce>, sorted: seq<seq<Id>>) {
    forall k, x :: 0 <= k < |sorted| && x in sorted[k] ==> x in seen
  }

  function WithAll(pull: map<Id, Nonce>, ids: seq<Id>, seen: map<Id, Nonce>): (r: map<Id, Nonce>)
    requires forall x :: x in ids ==> x in seen
    ensures forall x :: x in r <==> x in pull || x in ids
    ensures forall x :: x in pull && x !in ids ==> r[x] == pull[x]
    ensures forall x :: x in ids ==> r[x] == seen[x]
  {
    map x | x in pull.Keys + (set y | y in ids) :: if x in ids then seen[x] else pull[x]
  }

  /** What the members of a component may pull: a lone transaction also itself. */
  function PullFor(seen: map<Id, Nonce>, scc: seq<Id>, pull: map<Id, Nonce>): map<Id, Nonce>
    requires forall x :: x in scc ==> x in seen
  {
    if |scc| == 1 then WithAll(pull, scc, seen) else pull
  }

  /** The calls made for the components below `n`, last one first. */
  ghost function Walk(seen: map<Id, Nonce>, sorted: seq<seq<Id>>, n: nat, pull: map<Id, Nonce>): seq<Call>
    requires AllSeen(seen, sorted) && n <= |sorted|
  {
    if n == 0 then [] else
      var scc := sorted[n - 1];
      Calls(scc, PullFor(seen, scc, pull)) + Walk(seen, sorted, n - 1, WithAll(pull, scc, seen))
  }

  /** The inner loop: one call for each member of a component. */
  method AdvanceAll(scc: seq<Id>, pull: map<Id, Nonce>) returns (calls: seq<Call>)
    ensures calls == Calls(scc, pull)
  {
    calls := [];
    var k := 0;
    while k < |scc|
      invariant 0 <= k <= |scc| && calls == Calls(scc, pull)[..k]
    {
      calls := calls + [Call(scc[k], Some(pull))];
      k := k + 1;
    }
  }

  lemma WithLone(pull: map<Id, Nonce>, scc: seq<Id>, seen: map<Id, Nonce>)
    requires |scc| == 1 && scc[0] in seen
    ensures pull[scc[0] := seen[scc[0]]] == WithAll(pull, scc, seen)
    ensures WithAll(WithAll(pull, scc, seen), scc, seen) == WithAll(pull, scc, seen)
  {
    assert scc == [scc[0]];
  }

  lemma WithNone(pull: map<Id, Nonce>, seen: map<Id, Nonce>)
    ensures WithAll(pull, [], seen) == pull
  {
  }

  lemma WalkNone(seen: map<Id, Nonce>, sorted: seq<seq<Id>>)
    requires AllSeen(seen, sorted)
    ensures forall pull :: Walk(seen, sorted, 0, pull) == []
  {
  }

  lemma WalkNext(seen: map<Id, Nonce>, sorted: seq<seq<Id>>, n: nat, pull: map<Id, Nonce>)
    requires AllSeen(seen, sorted) && 0 < n <= |sorted|
    ensures var scc := sorted[n - 1];
      Walk(seen, sorted, n, pull) ==
        Calls(scc, PullFor(seen, scc, pull)) + Walk(seen, sorted, n - 1, WithAll(pull, scc, seen))
  {
  }

  lemma PullForIs(seen: map<Id, Nonce>, scc: seq<Id>, pull: map<Id, Nonce>)
    requires forall x :: x in scc ==> x in seen
    ensures PullFor(seen, scc, pull) == if |scc| == 1 then WithAll(pull, scc, seen) else pull
  {
  }

  /** The loop over the sorted components. */
  method Flush(seen: map<Id, Nonce>, sorted: seq<seq<Id>>) returns (calls: seq<Call>)
    requires AllSeen(seen, sorted)
    ensures calls == Walk(seen, sorted, |sorted|, map[])
  {
    hide WithAll, Calls, Walk, PullFor;
    var pull: map<Id, Nonce> := map[];
    calls := [];
    var i := |sorted| - 1;
    WalkNone(seen, sorted);
    while i >= 0
      invariant -1 <= i < |sorted|
      invariant calls + Walk(seen, sorted, i + 1, pull) == Walk(seen, sorted, |sorted|, map[])
    {
      var scc := sorted[i];
      ghost var pull0, calls0 := pull, calls;
      WalkNext(seen, sorted, i + 1, pull);
      PullForIs(seen, scc, pull);
      if |scc| == 1 {
        WithLone(pull, scc, seen);
        pull := pull[scc[0] := seen[scc[0]]];
      }
      var some := AdvanceAll(scc, pull);
      calls := calls + some;
      if |scc| > 1 {
        pull := WithAll(pull, scc, seen);
      }
      if scc == [] { WithNone(pull, seen); }
      assert calls + Walk(seen, sorted, i, pull) == calls0 + (some + Walk(seen, sorted, i, pull));
      i := i - 1;
    }
  }

  /** What `run` does once the queues are known. */
  method Run(seen: map<Id, Nonce>, queues: Queues, goal: Id) returns (calls: seq<Call>, successors: map<Id, seq<Id>>)
    ensures IsQueueGraph(seen, queues, successors)
    ensures if LeadsTo(successors, goal) then IsFlush(seen, queues, successors, calls) else calls == [Call(goal, None)]
  {
    var ready;
    successors, ready := BuildSuccessors(seen, queues, goal);
    GraphIsClosed(seen, queues, successors);
    ComponentsSeen(seen, queues, successors);
    calls := [Call(goal, None)];
    if ready { return; }
    var sorted := TarjanSort(successors);
    calls := Flush(seen, sorted);
  }

  lemma {:induction false} ComponentsSeen(seen: map<Id, Nonce>, queues: Queues, m: map<Id, seq<Id>>)
    requires IsQueueGraph(seen, queues, m) && ClosedLists(m)
    ensures AllSeen(seen, Components(Edges(m)))
  {
    var g := Edges(m);
    ComponentsPartition(g);
    forall k, x | 0 <= k < |Components(g)| && x in Components(g)[k] ensures x in seen {
      assert InOutput(Components(g), x);
      assert InQueues(seen, queues, x);
    }
  }

  // ---------------------------------------------------------------------------------------

  ghost predicate InFrom(sorted: seq<seq<Id>>, n: nat, x: Id) {
    exists l :: n <= l < |sorted| && x in sorted[l]
  }

  /** What is known of call `p`: the component `k` it belongs to, what came before, what it may pull. */
  ghost predicate CallOk(seen: map<Id, Nonce>, sorted: seq<seq<Id>>, calls: seq<Call>, p: nat, k: nat)
    requires p < |calls| && k < |sorted|
  {
    && calls[p].id in sorted[k] && calls[p].pull.Some?
    && (forall x :: InFrom(sorted, k + 1, x) ==> Called(calls[..p], x))
    && (forall x :: x in calls[p].pull.value <==> InFrom(sorted, k + 1, x) || (|sorted[k]| == 1 && x in sorted[k]))
    && (forall x :: x in calls[p].pull.value ==> x in seen && calls[p].pull.value[x] == seen[x])
  }

  ghost predicate PullIs(seen: map<Id, Nonce>, sorted: seq<seq<Id>>, n: nat, pull: map<Id, Nonce>) {
    && (forall x :: x in pull <==> InFrom(sorted, n, x))
    && (forall x :: x in pull ==> x in seen && pull[x] == seen[x])
  }

  ghost predicate Called(calls: seq<Call>, x: Id) {
    exists q :: 0 <= q < |calls| && calls[q].id == x
  }

  lemma OneMoreFrom(sorted: seq<seq<Id>>, n: nat, x: Id)
    requires 0 < n <= |sorted|
    ensures InFrom(sorted, n - 1, x) <==> InFrom(sorted, n, x) || x in sorted[n - 1]
  {
    if InFrom(sorted, n - 1, x) {
      var l :| n - 1 <= l < |sorted| && x in sorted[l];
    }
  }

  lemma CalledLater(calls: seq<Call>, more: seq<Call>, x: Id)
    requires Called(calls, x) && calls <= more
    ensures Called(more, x)
  {
    var q :| 0 <= q < |calls| && calls[q].id == x;
    assert more[q].id == x;
  }

  lemma CalledHere(before: seq<Call>, ids: seq<Id>, pull: map<Id, Nonce>, x: Id)
    requires x in ids
    ensures Called(before + Calls(ids, pull), x)
  {
    var j :| 0 <= j < |ids| && ids[j] == x;
    assert (before + Calls(ids, pull))[|before| + j].id == x;
  }

  /** After a component's calls, all members from it on have been called. */
  lemma CalledFrom(sorted: seq<seq<Id>>, m: nat, before: seq<Call>, pull: map<Id, Nonce>, after: seq<Call>)
    requires m < |sorted| && forall x :: InFrom(sorted, m + 1, x) ==> Called(before, x)
    requires after == before + Calls(sorted[m], pull)
    ensures forall x :: InFrom(sorted, m, x) ==> Called(after, x)
  {
    hide InFrom, Called, Calls;
    forall x | InFrom(sorted, m, x) ensures Called(after, x) {
      OneMoreFrom(sorted, m + 1, x);
      if x in sorted[m] { CalledHere(before, sorted[m], pull, x); } else { CalledLater(before, after, x); }
    }
  }

  /** The pull map grows by the component. */
  lemma PullGrows(seen: map<Id, Nonce>, sorted: seq<seq<Id>>, n: nat, pull: map<Id, Nonce>)
    requires AllSeen(seen, sorted) && 0 < n <= |sorted| && PullIs(seen, sorted, n, pull)
    ensures PullIs(seen, sorted, n - 1, WithAll(pull, sorted[n - 1], seen))
  {
    hide InFrom;
    forall x ensures InFrom(sorted, n - 1, x) <==> InFrom(sorted, n, x) || x in sorted[n - 1] {
      OneMoreFrom(sorted, n, x);
    }
  }

  lemma CallHere(seen: map<Id, Nonce>, sorted: seq<seq<Id>>, n: nat, pull: map<Id, Nonce>, before: seq<Call>,
      calls: seq<Call>, p: nat)
    requires AllSeen(seen, sorted) && 0 < n <= |sorted| && PullIs(seen, sorted, n, pull)
    requires forall x :: InFrom(sorted, n, x) ==> Called(before, x)
    requires before + Calls(sorted[n - 1], PullFor(seen, sorted[n - 1], pull)) <= calls
    requires |before| <= p < |before| + |sorted[n - 1]|
    ensures p < |calls| && CallOk(seen, sorted, calls, p, n - 1)
  {
    hide InFrom, Called, Calls;
    var scc := sorted[n - 1];
    assert calls[p] == (before + Calls(scc, PullFor(seen, scc, pull)))[p];
    forall x | InFrom(sorted, n, x) ensures Called(calls[..p], x) { CalledLater(before, calls[..p], x); }
  }

  lemma {:induction false} WalkCalls(seen: map<Id, Nonce>, sorted: seq<seq<Id>>, n: nat, pull: map<Id, Nonce>,
      before: seq<Call>, p: nat) returns (k: nat)
    requires AllSeen(seen, sorted) && n <= |sorted| && PullIs(seen, sorted, n, pull)
    requires forall x :: InFrom(sorted, n, x) ==> Called(before, x)
    requires |before| <= p < |before + Walk(seen, sorted, n, pull)|
    ensures k < |sorted| && CallOk(seen, sorted, before + Walk(seen, sorted, n, pull), p, k)
    decreases n
  {
    hide InFrom, Called, Calls, PullIs, CallOk, PullFor, WithAll;
    if n == 0 {
      assert false;
    }
    var scc := sorted[n - 1];
    var pulled := PullFor(seen, scc, pull);
    var here, rest := Calls(scc, pulled), Walk(seen, sorted, n - 1, WithAll(pull, scc, seen));
    var calls := before + Walk(seen, sorted, n, pull);
    assert calls == before + here + rest;
    if p < |before| + |here| {
      k := n - 1;
      CallHere(seen, sorted, n, pull, before, calls, p);
    } else {
      CalledFrom(sorted, n - 1, before, pulled, before + here);
      PullGrows(seen, sorted, n, pull);
      k := WalkCalls(seen, sorted, n - 1, WithAll(pull, scc, seen), before + here, p);
    }
  }

  /** The calls of a whole flush over the queues. */
  ghost predicate IsFlush(seen: map<Id, Nonce>, queues: Queues, m: map<Id, seq<Id>>, calls: seq<Call>) {
    && IsQueueGraph(seen, queues, m) && ClosedLists(m) && AllSeen(seen, Components(Edges(m)))
    && calls == Walk(seen, Components(Edges(m)), |Components(Edges(m))|, map[])
  }

  lemma {:induction false} FlushCall(seen: map<Id, Nonce>, queues: Queues, m: map<Id, seq<Id>>, calls: seq<Call>,
      p: nat) returns (k: nat)
    requires IsFlush(seen, queues, m, calls) && p < |calls|
    ensures k < |Components(Edges(m))| && CallOk(seen, Components(Edges(m)), calls, p, k)
  {
    hide IsQueueGraph, Components, Edges, Walk, CallOk;
    var sorted := Components(Edges(m));
    assert [] + calls == calls;
    k := WalkCalls(seen, sorted, |sorted|, map[], [], p);
  }

  lemma {:induction false} NodeComponent(m: map<Id, seq<Id>>, x: Id) returns (k: nat)
    requires ClosedLists(m) && x in m
    ensures k < |Components(Edges(m))| && x in Components(Edges(m))[k]
  {
    ComponentsPartition(Edges(m));
    assert InOutput(Components(Edges(m)), x);
    k :| 0 <= k < |Components(Edges(m))| && x in Components(Edges(m))[k];
  }

  /** A valid entry ahead of another in some queue, in another component, is advanced before it. */
  lemma {:induction false} PredecessorsFirst(seen: map<Id, Nonce>, queues: Queues, m: map<Id, seq<Id>>,
      calls: seq<Call>, d: DocKey, a: Id, p: nat)
    requires IsFlush(seen, queues, m, calls) && p < |calls|
    requires d in queues && Precedes(seen, queues[d], a, calls[p].id)
    requires !Reach(Edges(m), calls[p].id, a)
    ensures Called(calls[..p], a)
  {
    hide IsQueueGraph, Components, Edges, Walk, Reach, Precedes, Disjoint, Ordered, Pulled, AllSeen;
    var k := FlushCall(seen, queues, m, calls, p);
    PrecedesReach(seen, queues, m, d, a, calls[p].id);
    var l := NodeComponent(m, a);
    ReverseTopological(Edges(m), l, k, a, calls[p].id);
    if l == k {
      SameComponentIffMutual(Edges(m), l, k, a, calls[p].id);
    }
    assert InFrom(Components(Edges(m)), k + 1, a);
  }

  /** The current queue keeps the order its valid entries had when the graph was built. */
  ghost predicate KeepsOrder(seen: map<Id, Nonce>, q: seq<Token>, cur: seq<Token>) {
    forall a, b :: Precedes(seen, cur, a, b) ==> Precedes(seen, q, a, b)
  }

  /** What call `p` may pull is closed under valid predecessors, except for the caller itself. */
  lemma {:induction false} PullClosed(seen: map<Id, Nonce>, queues: Queues, m: map<Id, seq<Id>>, calls: seq<Call>,
      d: DocKey, p: nat, a: Id, b: Id)
    requires IsFlush(seen, queues, m, calls) && p < |calls| && calls[p].pull.Some?
    requires d in queues && Precedes(seen, queues[d], a, b) && b in calls[p].pull.value
    ensures a in calls[p].pull.value
    ensures a == calls[p].id ==> b == a
  {
    hide IsQueueGraph, Components, Edges, Walk, Reach, Precedes, Disjoint, Ordered, Pulled, AllSeen;
    var sorted := Components(Edges(m));
    var k := FlushCall(seen, queues, m, calls, p);
    PrecedesReach(seen, queues, m, d, a, b);
    var la := NodeComponent(m, a);
    var lb := NodeComponent(m, b);
    ComponentsPartition(Edges(m));
    ReverseTopological(Edges(m), la, lb, a, b);
    PlacedOnce(sorted, b, lb);
    PlacedOnce(sorted, calls[p].id, k);
    assert lb >= k;
    if lb > k {
      assert InFrom(sorted, k + 1, a);
    }
    if la == lb == k {
      assert |sorted[k]| == 1;
    }
  }

  lemma {:induction false} PlacedOnce(sorted: seq<seq<Id>>, x: Id, k: nat)
    requires Disjoint(sorted) && k < |sorted| && x in sorted[k]
    ensures forall l :: 0 <= l < |sorted| && x in sorted[l] ==> l == k
  {
    forall l | 0 <= l < |sorted| && x in sorted[l] ensures l == k {
      assert l < k ==> UpTo(sorted, k, x);
      assert k < l ==> UpTo(sorted, l, x);
    }
  }

  /** A flush never pulls a valid entry of a transaction it has not come to yet. */
  lemma {:induction false} PullsOnlyAdvanced(seen: map<Id, Nonce>, queues: Queues, m: map<Id, seq<Id>>,
      calls: seq<Call>, p: nat, d: DocKey, cur: seq<Token>, dontPull: Option<Token>, t: Token)
    requires IsFlush(seen, queues, m, calls) && p < |calls| && calls[p].pull.Some?
    requires d in queues && KeepsOrder(seen, queues[d], cur)
    requires t in Pulled(cur, calls[p].pull.value, dontPull) && Valid(seen, t)
    ensures t.id == calls[p].id || Called(calls[..p], t.id)
  {
    hide IsQueueGraph, Components, Edges, Walk, Reach, Precedes, Disjoint, Ordered, Pulled, AllSeen;
    var pull := calls[p].pull.value;
    var k := FlushCall(seen, queues, m, calls, p);
    PulledValid(seen, cur, pull, dontPull, t);
    if t.id !in pull {
      var b: Id :| b in pull && Precedes(seen, cur, t.id, b);
      PullClosed(seen, queues, m, calls, d, p, t.id, b);
    }
    if !InFrom(Components(Edges(m)), k + 1, t.id) {
      var scc: seq<Id> := Components(Edges(m))[k];
      assert |scc| == 1 && t.id in scc && calls[p].id in scc;
    }
  }

  /** A transaction's own entry stays in the queue until its pull operation. */
  lemma {:induction false} OwnEntryStays(seen: map<Id, Nonce>, queues: Queues, m: map<Id, seq<Id>>, calls: seq<Call>,
      p: nat, d: DocKey, cur: seq<Token>, tt: Token)
    requires IsFlush(seen, queues, m, calls) && p < |calls| && calls[p].pull.Some?
    requires d in queues && KeepsOrder(seen, queues[d], cur) && DistinctTokens(cur)
    requires Valid(seen, tt) && tt.id == calls[p].id
    ensures tt !in Pulled(cur, calls[p].pull.value, Some(tt))
  {
    hide IsQueueGraph, Components, Edges, Walk, Reach, Precedes, Disjoint, Ordered, Pulled, AllSeen;
    var pull := calls[p].pull.value;
    var k := FlushCall(seen, queues, m, calls, p);
    if tt in Pulled(cur, pull, Some(tt)) {
      PulledValid(seen, cur, pull, Some(tt), tt);
      var b: Id :| b in pull && b != tt.id && Precedes(seen, cur, tt.id, b);
      PullClosed(seen, queues, m, calls, d, p, tt.id, b);
    }
  }

  lemma {:induction false} PulledIn(q: seq<Token>, pull: map<Id, Nonce>, dontPull: Option<Token>, t: Token)
    requires t in Pulled(q, pull, dontPull)
    ensures t in q
  {
    var last := q[|q| - 1];
    assert q == q[..|q| - 1] + [last];
    if !(last.id in pull && pull[last.id] == last.nonce) && !(last.id in pull && t == last) {
      PulledIn(q[..|q| - 1], pull, dontPull, t);
    }
  }

  /** Entries added to a queue after the flush has looked at it are left alone. */
  lemma {:induction false} PulledSeen(seen: map<Id, Nonce>, kept: seq<Token>, tail: seq<Token>, pull: map<Id, Nonce>,
      dontPull: Option<Token>, t: Token)
    requires forall x :: x in pull ==> x in seen && Token(x, pull[x]) !in tail
    requires forall x :: x in kept ==> x.id in seen
    requires t in Pulled(kept + tail, pull, dontPull)
    ensures t.id in seen
  {
    if tail == [] {
      assert kept + tail == kept;
      PulledIn(kept, pull, dontPull, t);
    } else {
      var last := tail[|tail| - 1];
      assert (kept + tail)[..|kept + tail| - 1] == kept + tail[..|tail| - 1];
      assert last == Token(last.id, last.nonce) && last in tail;
      if !(last.id in pull && t == last) { PulledSeen(seen, kept, tail[..|tail| - 1], pull, dontPull, t); }
    }
  }

  /**
   A flush pulls carefully: what goes is an entry whose transaction has another nonce, one of a
   transaction advanced before, or the caller's own. `kept` is what is left of the queue the graph
   was built from, `tail` what has been added since.
   */
  lemma {:induction false} FlushPullsCarefully(seen: map<Id, Nonce>, queues: Queues, m: map<Id, seq<Id>>,
      calls: seq<Call>, p: nat, d: DocKey, kept: seq<Token>, tail: seq<Token>, dontPull: Option<Token>, t: Token)
    requires IsFlush(seen, queues, m, calls) && p < |calls| && calls[p].pull.Some?
    requires d in queues && KeepsOrder(seen, queues[d], kept + tail) && forall x :: x in kept ==> x.id in seen
    requires forall x :: x in calls[p].pull.value ==> Token(x, calls[p].pull.value[x]) !in tail
    requires t in Pulled(kept + tail, calls[p].pull.value, dontPull)
    ensures t.id in seen && (seen[t.id] != t.nonce || t.id == calls[p].id || Called(calls[..p], t.id))
  {
    hide IsFlush, KeepsOrder, Called, Pulled;
    PullIsSeen(seen, queues, m, calls, p);
    PulledSeen(seen, kept, tail, calls[p].pull.value, dontPull, t);
    if seen[t.id] == t.nonce { PullsOnlyAdvanced(seen, queues, m, calls, p, d, kept + tail, dontPull, t); }
  }

  lemma {:induction false} PullIsSeen(seen: map<Id, Nonce>, queues: Queues, m: map<Id, seq<Id>>, calls: seq<Call>,
      p: nat)
    requires IsFlush(seen, queues, m, calls) && p < |calls| && calls[p].pull.Some?
    ensures forall x :: x in calls[p].pull.value ==> x in seen
  {
    hide IsQueueGraph, Components, Edges, Walk;
    var k := FlushCall(seen, queues, m, calls, p);
  }

  /** In a component of several transactions no member pulls its own entry. */
  lemma {:induction false} SharedComponentKeepsEntries(seen: map<Id, Nonce>, queues: Queues, m: map<Id, seq<Id>>,
      calls: seq<Call>, p: nat, d: DocKey, cur: seq<Token>, dontPull: Option<Token>, t: Token, x: Id)
    requires IsFlush(seen, queues, m, calls) && p < |calls| && calls[p].pull.Some?
    requires d in queues && KeepsOrder(seen, queues[d], cur)
    requires x != calls[p].id && Reach(Edges(m), x, calls[p].id) && Reach(Edges(m), calls[p].id, x) && x in m
    requires Valid(seen, t) && t in Pulled(cur, calls[p].pull.value, dontPull)
    ensures t.id != calls[p].id && t.id != x
  {
    hide IsQueueGraph, Components, Edges, Walk, Reach, Precedes, Disjoint, Ordered, Pulled, AllSeen;
    var sorted := Components(Edges(m));
    var pull := calls[p].pull.value;
    var k := FlushCall(seen, queues, m, calls, p);
    var l := NodeComponent(m, x);
    SameComponentIffMutual(Edges(m), l, k, x, calls[p].id);
    ComponentsPartition(Edges(m));
    PlacedOnce(sorted, x, k);
    PlacedOnce(sorted, calls[p].id, k);
    assert |sorted[k]| != 1;
    PulledValid(seen, cur, pull, dontPull, t);
    if t.id !in pull {
      var b: Id :| b in pull && Precedes(seen, cur, t.id, b);
      PullClosed(seen, queues, m, calls, d, p, t.id, b);
    }
  }

  /** When the goal is ready, what it pulls is valid for no other transaction. */
  lemma {:induction false} ReadyPullsOwn(seen: map<Id, Nonce>, queues: Queues, m: map<Id, seq<Id>>, goal: Id,
      d: DocKey, cur: seq<Token>, dontPull: Option<Token>, t: Token)
    requires IsQueueGraph(seen, queues, m) && !LeadsTo(m, goal) && goal in seen
    requires d in queues && KeepsOrder(seen, queues[d], cur)
    requires t in Pulled(cur, map[goal := seen[goal]], dontPull) && Valid(seen, t)
    ensures t.id == goal
  {
    PulledValid(seen, cur, map[goal := seen[goal]], dontPull, t);
    LeadsToIffPreceded(seen, queues, m, goal);
  }

  // ---------------------------------------------------------------------------------------

  lemma {:induction false} WalkCovers(seen: map<Id, Nonce>, sorted: seq<seq<Id>>, n: nat, pull: map<Id, Nonce>, l: nat,
      x: Id)
    requires AllSeen(seen, sorted) && l < n <= |sorted| && x in sorted[l]
    ensures Called(Walk(seen, sorted, n, pull), x)
    decreases n
  {
    var scc := sorted[n - 1];
    var here: seq<Call> := Calls(scc, PullFor(seen, scc, pull));
    var rest: seq<Call> := Walk(seen, sorted, n - 1, WithAll(pull, scc, seen));
    if l == n - 1 {
      var j :| 0 <= j < |scc| && scc[j] == x;
      var all: seq<Call> := here + rest;
      assert all[j].id == x;
    } else {
      WalkCovers(seen, sorted, n - 1, WithAll(pull, scc, seen), l, x);
      var q :| 0 <= q < |rest| && rest[q].id == x;
      var all: seq<Call> := here + rest;
      assert all[|here| + q].id == x;
    }
  }

  lemma {:induction false} WalkStaysIn(seen: map<Id, Nonce>, sorted: seq<seq<Id>>, n: nat, pull: map<Id, Nonce>, p: nat)
    requires AllSeen(seen, sorted) && n <= |sorted| && p < |Walk(seen, sorted, n, pull)|
    ensures UpTo(sorted, n, Walk(seen, sorted, n, pull)[p].id)
    decreases n
  {
    var scc := sorted[n - 1];
    var here := Calls(scc, PullFor(seen, scc, pull));
    if p >= |here| {
      WalkStaysIn(seen, sorted, n - 1, WithAll(pull, scc, seen), p - |here|);
    }
  }

  lemma {:induction false} WalkOnce(seen: map<Id, Nonce>, sorted: seq<seq<Id>>, n: nat, pull: map<Id, Nonce>, p: nat,
      q: nat)
    requires AllSeen(seen, sorted) && n <= |sorted| && Disjoint(sorted)
    requires p < q < |Walk(seen, sorted, n, pull)|
    ensures Walk(seen, sorted, n, pull)[p].id != Walk(seen, sorted, n, pull)[q].id
    decreases n
  {
    var scc := sorted[n - 1];
    var here := Calls(scc, PullFor(seen, scc, pull));
    var pull' := WithAll(pull, scc, seen);
    if q < |here| {
      assert Distinct(scc);
    } else if p < |here| {
      WalkStaysIn(seen, sorted, n - 1, pull', q - |here|);
      assert scc[p] in scc;
    } else {
      WalkOnce(seen, sorted, n - 1, pull', p - |here|, q - |here|);
    }
  }

  /** A flush advances every transaction that has a valid entry in some queue, once. */
  lemma {:induction false} FlushAdvancesEachOnce(seen: map<Id, Nonce>, queues: Queues, m: map<Id, seq<Id>>,
      calls: seq<Call>)
    requires IsFlush(seen, queues, m, calls)
    ensures forall x :: InQueues(seen, queues, x) <==> Called(calls, x)
    ensures forall p, q :: 0 <= p < q < |calls| ==> calls[p].id != calls[q].id
  {
    var sorted := Components(Edges(m));
    ComponentsPartition(Edges(m));
    forall x | InQueues(seen, queues, x) ensures Called(calls, x) {
      var l := NodeComponent(m, x);
      WalkCovers(seen, sorted, |sorted|, map[], l, x);
    }
    forall x | Called(calls, x) ensures InQueues(seen, queues, x) {
      var p :| 0 <= p < |calls| && calls[p].id == x;
      WalkStaysIn(seen, sorted, |sorted|, map[], p);
      assert x in Edges(m).Keys;
    }
    forall p, q | 0 <= p < q < |calls| ensures calls[p].id != calls[q].id {
      WalkOnce(seen, sorted, |sorted|, map[], p, q);
    }
  }
}
