/**
 The order in which the members of a component come out of the sort: against the order of the
 visits, and what of a graph decides it.
 */
module TarjanOrder {
  import opened TxnGraph
  import opened SortedIds
  import opened TarjanSpec
  import opened Tarjan

  // ---------------------------------------------------------------------------------------
  // The order of the visits

  /** A depth-first tour from `x` within `s`, successors in ascending order, after the nodes of `done`. */
  ghost function Tour(g: Graph, s: set<Id>, done: seq<Id>, x: Id): (r: seq<Id>)
    requires s <= g.Keys
    ensures done <= r && (x in s ==> x in r) && forall y :: y in r ==> y in done || y in s
    decreases s - Elems(done), 0
  {
    if x in done || x !in s then done else
      assert x in s - Elems(done) && x !in s - Elems(done + [x]);
      Tours(g, s, done + [x], Ascending(g[x]))
  }

  ghost function Tours(g: Graph, s: set<Id>, done: seq<Id>, xs: seq<Id>): (r: seq<Id>)
    requires s <= g.Keys
    ensures done <= r && forall x :: x in xs && x in s ==> x in r
    ensures forall y :: y in r ==> y in done || y in s
    decreases s - Elems(done), |xs| + 1
  {
    if xs == [] then done else
      var next := Tour(g, s, done, xs[0]);
      assert s - Elems(next) <= s - Elems(done);
      Tours(g, s, next, xs[1..])
  }

  /** All nodes in the order they are visited. */
  ghost function Visits(g: Graph): seq<Id> {
    Tours(g, g.Keys, [], Ascending(g.Keys))
  }

  /** The numbers of the visiting state follow the tour `tr`; the stack ascends in them, each component descends. */
  ghost predicate Follows(env: Env, tr: seq<Id>) {
    && |tr| == |env.index|
    && (forall i :: 0 <= i < |tr| ==> tr[i] in env.index && env.index[tr[i]] == i)
    && (forall x :: x in env.index <==> x in tr)
    && (forall x :: x in env.stack ==> x in env.index)
    && (forall i, j :: 0 <= i < j < |env.stack| ==> Later(env, env.stack[j], env.stack[i]))
    && forall k, i, j :: 0 <= k < |env.output| && 0 <= i < j < |env.output[k]| ==>
         Later(env, env.output[k][i], env.output[k][j])
  }

  ghost predicate Later(env: Env, x: Id, y: Id) {
    x in env.index && y in env.index && env.index[x] > env.index[y]
  }

  lemma FollowsEntered(env: Env, tr: seq<Id>, id: Id)
    requires Follows(env, tr) && id !in env.index
    ensures Follows(Env(env.index[id := |env.index|], env.stack + [id], env.output), tr + [id])
  {
    var n := |env.index|;
    var e := Env(env.index[id := n], env.stack + [id], env.output);
    forall x, y | Later(env, x, y) ensures Later(e, x, y) { }
    forall i, j | 0 <= i < j < |e.stack| ensures Later(e, e.stack[j], e.stack[i]) {
      if j == |env.stack| {
        var x := e.stack[i];
        assert x == env.stack[i] && x in env.stack && x in env.index;
        InTrace(env, tr, x);
      }
    }
  }

  lemma InTrace(env: Env, tr: seq<Id>, x: Id)
    requires Follows(env, tr) && x in env.index
    ensures env.index[x] < |tr| && tr[env.index[x]] == x
  {
    var i :| 0 <= i < |tr| && tr[i] == x;
  }

  lemma FollowsPopped(env: Env, tr: seq<Id>, base: nat)
    requires Follows(env, tr) && base <= |env.stack|
    ensures Follows(Pop(env, base), tr)
  {
    var top := env.stack[base..];
    var e := Pop(env, base);
    var c := Reversed(top);
    forall x, y | Later(env, x, y) ensures Later(e, x, y) { }
    forall i, j | 0 <= i < j < |c| ensures Later(e, c[i], c[j]) {
      ReversedIs(top, i);
      ReversedIs(top, j);
      assert Later(env, env.stack[base + |top| - 1 - i], env.stack[base + |top| - 1 - j]);
    }
    forall k, i, j | 0 <= k < |e.output| && 0 <= i < j < |e.output[k]|
      ensures Later(e, e.output[k][i], e.output[k][j])
    {
      if k < |env.output| { assert e.output[k] == env.output[k]; }
    }
  }

  lemma {:induction false} ReversedIs(s: seq<Id>, i: nat)
    requires i < |s|
    ensures |Reversed(s)| == |s| && Reversed(s)[i] == s[|s| - 1 - i]
  {
    if |s| > 1 {
      if i < |s| - 1 { ReversedIs(s[1..], i); } else { ReversedIs(s[1..], 0); }
    }
  }

  lemma {:induction false} ConnectTour(g: Graph, env: Env, id: Id, tr: seq<Id>)
    requires Sized(g, env) && id in g && id !in env.index && Follows(env, tr)
    ensures Follows(Connect(g, env, id).0, Tour(g, g.Keys, tr, id))
    decreases g.Keys - env.index.Keys, 0
  {
    var n := |env.index|;
    var e := Env(env.index[id := n], env.stack + [id], env.output);
    ConnectUnfold(g, env, id);
    FollowsEntered(env, tr, id);
    TourUnfold(g, g.Keys, tr, id);
    assert id in g.Keys - env.index.Keys && id !in g.Keys - e.index.Keys;
    hide Follows, Connect, Visit, Tour, Tours, Pop;
    var v := Visit(g, e, Ascending(g[id]), n);
    VisitTours(g, e, Ascending(g[id]), n, tr + [id]);
    if v.1 == n { FollowsPopped(v.0, Tours(g, g.Keys, tr + [id], Ascending(g[id])), |env.stack|); }
  }

  lemma TourUnfold(g: Graph, s: set<Id>, done: seq<Id>, x: Id)
    requires s <= g.Keys
    ensures Tour(g, s, done, x) == if x in done || x !in s then done else Tours(g, s, done + [x], Ascending(g[x]))
  {
  }

  lemma ToursUnfold(g: Graph, s: set<Id>, done: seq<Id>, xs: seq<Id>)
    requires s <= g.Keys
    ensures Tours(g, s, done, xs) == if xs == [] then done else Tours(g, s, Tour(g, s, done, xs[0]), xs[1..])
  {
  }

  lemma {:induction false} StepTour(g: Graph, env: Env, w: Id, low: nat, tr: seq<Id>)
    requires Sized(g, env) && w in g && Follows(env, tr)
    ensures Follows(Step(g, env, w, low).0, Tour(g, g.Keys, tr, w))
    decreases g.Keys - env.index.Keys, 1
  {
    assert w in env.index <==> w in tr;
    TourUnfold(g, g.Keys, tr, w);
    hide Follows, Connect, Tours;
    if w !in env.index { ConnectTour(g, env, w, tr); }
  }

  lemma {:induction false} VisitTours(g: Graph, env: Env, succs: seq<Id>, low: nat, tr: seq<Id>)
    requires Sized(g, env) && Follows(env, tr) && forall w :: w in succs ==> w in g
    ensures Follows(Visit(g, env, succs, low).0, Tours(g, g.Keys, tr, succs))
    decreases g.Keys - env.index.Keys, |succs| + 2
  {
    ToursUnfold(g, g.Keys, tr, succs);
    hide Follows, Tour, Tours, Step;
    if succs != [] {
      VisitCons(g, env, succs, low);
      var s := Step(g, env, succs[0], low);
      StepTour(g, env, succs[0], low, tr);
      VisitTours(g, s.0, succs[1..], s.1, Tour(g, g.Keys, tr, succs[0]));
    }
  }

  lemma {:induction false} RootsTours(g: Graph, env: Env, ids: seq<Id>, tr: seq<Id>)
    requires Sized(g, env) && Follows(env, tr) && forall w :: w in ids ==> w in g
    ensures Follows(Roots(g, env, ids), Tours(g, g.Keys, tr, ids))
    decreases |ids|
  {
    ToursUnfold(g, g.Keys, tr, ids);
    if ids != [] {
      assert ids[0] in env.index <==> ids[0] in tr;
      TourUnfold(g, g.Keys, tr, ids[0]);
      hide Follows, Tour, Tours, Connect;
      if ids[0] in env.index {
        RootsTours(g, env, ids[1..], tr);
      } else {
        ConnectTour(g, env, ids[0], tr);
        RootsTours(g, Connect(g, env, ids[0]).0, ids[1..], Tour(g, g.Keys, tr, ids[0]));
      }
    }
  }

  ghost predicate Before(s: seq<Id>, x: Id, y: Id) {
    exists i, j :: 0 <= i < j < |s| && s[i] == x && s[j] == y
  }

  /** In each component, who comes out earlier was visited later. */
  lemma ComponentsDescend(g: Graph, k: nat, i: nat, j: nat)
    requires Closed(g) && k < |Components(g)| && i < j < |Components(g)[k]|
    ensures Before(Visits(g), Components(g)[k][j], Components(g)[k][i])
  {
    var e0 := Env(map[], [], []);
    RootsTours(g, e0, Ascending(g.Keys), []);
    var e, tr := Roots(g, e0, Ascending(g.Keys)), Visits(g);
    assert Follows(e, tr);
    var x, y := Components(g)[k][i], Components(g)[k][j];
    assert Later(e, e.output[k][i], e.output[k][j]);
    InTrace(e, tr, x);
    InTrace(e, tr, y);
  }

  lemma VisitsOnce(g: Graph)
    requires Closed(g)
    ensures Distinct(Visits(g)) && forall x :: x in Visits(g) <==> x in g
  {
    var e0 := Env(map[], [], []);
    RootsTours(g, e0, Ascending(g.Keys), []);
    var e := Roots(g, e0, Ascending(g.Keys));
    assert Follows(e, Visits(g));
  }

  // ---------------------------------------------------------------------------------------
  // A component is the order of its visits, reversed

  /** The elements of `s` that are in `c`, in the same order. */
  ghost function In(s: seq<Id>, c: set<Id>): (r: seq<Id>)
    ensures forall x :: x in r <==> x in s && x in c
  {
    if s == [] then [] else
      assert s == s[..|s| - 1] + [s[|s| - 1]];
      In(s[..|s| - 1], c) + if s[|s| - 1] in c then [s[|s| - 1]] else []
  }

  lemma InOne(s: seq<Id>, x: Id, c: set<Id>)
    ensures In(s + [x], c) == In(s, c) + if x in c then [x] else []
  {
    assert (s + [x])[..|s|] == s;
  }

  lemma {:induction false} InOrder(s: seq<Id>, c: set<Id>, i: nat, j: nat)
    requires i < j < |In(s, c)|
    ensures Before(s, In(s, c)[i], In(s, c)[j])
  {
    var init := s[..|s| - 1];
    assert s == init + [s[|s| - 1]];
    if j < |In(init, c)| {
      InOrder(init, c, i, j);
      var a, b :| 0 <= a < b < |init| && init[a] == In(init, c)[i] && init[b] == In(init, c)[j];
      assert s[a] == init[a] && s[b] == init[b];
    } else {
      assert In(init, c)[i] in init;
      var a :| 0 <= a < |init| && init[a] == In(init, c)[i];
      assert s[a] == init[a] && s[|s| - 1] == In(s, c)[j];
    }
  }

  ghost predicate Along(p: seq<Id>, a: seq<Id>) {
    forall i, j :: 0 <= i < j < |a| ==> Before(p, a[i], a[j])
  }

  lemma NotBoth(p: seq<Id>, x: Id, y: Id)
    requires Distinct(p) && Before(p, x, y)
    ensures !Before(p, y, x) && x != y
  {
  }

  /** One order, one sequence. */
  lemma {:induction false} AlongUnique(p: seq<Id>, a: seq<Id>, b: seq<Id>)
    requires Distinct(p) && Along(p, a) && Along(p, b) && forall x :: x in a <==> x in b
    ensures a == b
  {
    hide Before, Distinct;
    assert a != [] ==> a[0] in b;
    assert b != [] ==> b[0] in a;
    if a != [] {
      if a[0] != b[0] {
        var i :| 0 <= i < |b| && b[i] == a[0];
        var j :| 0 <= j < |a| && a[j] == b[0];
        NotBoth(p, a[0], b[0]);
        assert false;
      }
      AlongTail(p, a);
      AlongTail(p, b);
      AlongUnique(p, a[1..], b[1..]);
    }
  }

  lemma AlongTail(p: seq<Id>, a: seq<Id>)
    requires Distinct(p) && Along(p, a) && a != []
    ensures Along(p, a[1..]) && forall x :: x in a[1..] <==> x in a && x != a[0]
  {
    hide Before, Distinct;
    assert a == [a[0]] + a[1..];
    forall i | 0 < i < |a| ensures a[i] != a[0] { NotBoth(p, a[0], a[i]); }
  }

  lemma ReversedMembers(s: seq<Id>)
    ensures |Reversed(s)| == |s| && forall i :: 0 <= i < |s| ==> Reversed(s)[i] == s[|s| - 1 - i]
    ensures forall x :: x in Reversed(s) <==> x in s
  {
    var r := Reversed(s);
    if s != [] {
      forall i | 0 <= i < |s| ensures |r| == |s| && r[i] == s[|s| - 1 - i] { ReversedIs(s, i); }
      assert |r| == |s| by { ReversedIs(s, 0); }
    }
    forall x ensures x in r <==> x in s {
      if x in r { var i :| 0 <= i < |r| && r[i] == x; assert s[|s| - 1 - i] == x; }
      if x in s { var i :| 0 <= i < |s| && s[i] == x; assert r[|s| - 1 - i] == x; }
    }
  }

  lemma InAlong(p: seq<Id>, c: set<Id>)
    ensures Along(p, In(p, c))
  {
    hide In, Before;
    forall i, j | 0 <= i < j < |In(p, c)| ensures Before(p, In(p, c)[i], In(p, c)[j]) { InOrder(p, c, i, j); }
  }

  lemma ComponentAlong(g: Graph, k: nat)
    requires Closed(g) && k < |Components(g)|
    ensures Along(Visits(g), Reversed(Components(g)[k]))
  {
    var c, p := Components(g)[k], Visits(g);
    var r := Reversed(c);
    ReversedMembers(c);
    hide Components, Visits, Before;
    forall i, j | 0 <= i < j < |r| ensures Before(p, r[i], r[j]) {
      ComponentsDescend(g, k, |c| - 1 - j, |c| - 1 - i);
    }
  }

  lemma ComponentVisited(g: Graph, k: nat)
    requires Closed(g) && k < |Components(g)|
    ensures forall x :: x in Components(g)[k] ==> x in Visits(g)
  {
    VisitsOnce(g);
    ComponentsPartition(g);
    hide Components, Visits;
    forall x | x in Components(g)[k] ensures x in g { assert InOutput(Components(g), x); }
  }

  /** What comes out is the order of the visits, restricted to the component and reversed. */
  lemma {:induction false} ComponentIsReversed(g: Graph, k: nat)
    requires Closed(g) && k < |Components(g)|
    ensures Components(g)[k] == Reversed(In(Visits(g), Elems(Components(g)[k])))
  {
    hide Components, Visits, Along, Before, Distinct, In;
    var c, p := Components(g)[k], Visits(g);
    VisitsOnce(g);
    ComponentAlong(g, k);
    ComponentVisited(g, k);
    InAlong(p, Elems(c));
    ReversedMembers(c);
    AlongUnique(p, Reversed(c), In(p, Elems(c)));
    ReversedTwice(c);
  }

  lemma {:induction false} ReversedTwice(s: seq<Id>)
    ensures Reversed(Reversed(s)) == s
  {
    forall i | 0 <= i < |s| ensures |Reversed(Reversed(s))| == |s| && Reversed(Reversed(s))[i] == s[i] {
      ReversedIs(s, |s| - 1 - i);
      ReversedIs(Reversed(s), i);
    }
    assert s == [] ==> Reversed(Reversed(s)) == [];
  }

  // ---------------------------------------------------------------------------------------
  // Tours inside a component

  /** The graph within `s`. */
  ghost function Inner(g: Graph, s: set<Id>): (r: Graph)
    requires s <= g.Keys
    ensures r.Keys == s && forall x :: x in s ==> r[x] == g[x] * s
  {
    map x | x in s :: g[x] * s
  }

  /** No way out of `s` leads back. */
  ghost predicate Convex(g: Graph, s: set<Id>) {
    forall x, y, z :: y in s && z in s && Reach(g, y, x) && Reach(g, x, z) ==> x in s
  }

  /** A tour adds only what can be reached. */
  lemma {:induction false} TourReaches(g: Graph, s: set<Id>, done: seq<Id>, x: Id, y: Id)
    requires s <= g.Keys && y in Tour(g, s, done, x) && y !in done
    ensures Reach(g, x, y)
    decreases s - Elems(done), 0
  {
    TourUnfold(g, s, done, x);
    assert x in s - Elems(done) && x !in s - Elems(done + [x]);
    hide Tour, Tours;
    if y == x {
      ReachRefl(g, x);
    } else {
      var z := ToursReach(g, s, done + [x], Ascending(g[x]), y);
      ReachEdge(g, x, z);
      ReachTrans(g, x, z, y);
    }
  }

  lemma {:induction false} ToursReach(g: Graph, s: set<Id>, done: seq<Id>, xs: seq<Id>, y: Id) returns (z: Id)
    requires s <= g.Keys && y in Tours(g, s, done, xs) && y !in done
    ensures z in xs && Reach(g, z, y)
    decreases s - Elems(done), |xs| + 1
  {
    ToursUnfold(g, s, done, xs);
    var next := Tour(g, s, done, xs[0]);
    assert s - Elems(next) <= s - Elems(done);
    hide Tour, Tours;
    if y in next {
      TourReaches(g, s, done, xs[0], y);
      z := xs[0];
    } else {
      z := ToursReach(g, s, next, xs[1..], y);
    }
  }

  /** What is new in a longer sequence. */
  lemma {:induction false} InGrows(a: seq<Id>, b: seq<Id>, c: set<Id>)
    requires a <= b && forall x :: x in b && x !in a ==> x !in c
    requires Distinct(b)
    ensures In(b, c) == In(a, c)
    decreases |b|
  {
    if |a| < |b| {
      var init := b[..|b| - 1];
      assert b == init + [b[|b| - 1]];
      assert forall x :: x in init ==> x in b;
      assert b[|b| - 1] !in a;
      InGrows(a, init, c);
    } else {
      assert a == b;
    }
  }

  lemma {:induction false} TourDistinct(g: Graph, s: set<Id>, done: seq<Id>, x: Id)
    requires s <= g.Keys && Distinct(done)
    ensures Distinct(Tour(g, s, done, x))
    decreases s - Elems(done), 0
  {
    TourUnfold(g, s, done, x);
    if x in s && x !in done {
      assert x in s - Elems(done) && x !in s - Elems(done + [x]);
      ToursDistinct(g, s, done + [x], Ascending(g[x]));
    }
  }

  lemma {:induction false} ToursDistinct(g: Graph, s: set<Id>, done: seq<Id>, xs: seq<Id>)
    requires s <= g.Keys && Distinct(done)
    ensures Distinct(Tours(g, s, done, xs))
    decreases s - Elems(done), |xs| + 1
  {
    ToursUnfold(g, s, done, xs);
    if xs != [] {
      var next := Tour(g, s, done, xs[0]);
      assert s - Elems(next) <= s - Elems(done);
      TourDistinct(g, s, done, xs[0]);
      ToursDistinct(g, s, next, xs[1..]);
    }
  }

  /** A tour from outside that does not lead into `s` leaves it alone. */
  lemma TourOutside(g: Graph, s: set<Id>, done: seq<Id>, x: Id)
    requires Distinct(done) && forall y :: y in s ==> !Reach(g, x, y)
    ensures In(Tour(g, g.Keys, done, x), s) == In(done, s)
  {
    hide Tour, Reach;
    TourDistinct(g, g.Keys, done, x);
    forall y | y in Tour(g, g.Keys, done, x) && y !in done ensures y !in s { TourReaches(g, g.Keys, done, x, y); }
    InGrows(done, Tour(g, g.Keys, done, x), s);
  }

  lemma {:induction false} InAscending(xs: seq<Id>, c: set<Id>)
    requires StrictlyAscending(xs)
    ensures StrictlyAscending(In(xs, c))
  {
    hide Before;
    forall i, j | 0 <= i < j < |In(xs, c)| ensures In(xs, c)[i] < In(xs, c)[j] {
      InOrder(xs, c, i, j);
      AscendingBefore(xs, In(xs, c)[i], In(xs, c)[j]);
    }
  }

  lemma AscendingBefore(xs: seq<Id>, x: Id, y: Id)
    requires StrictlyAscending(xs) && Before(xs, x, y)
    ensures x < y
  {
  }

  /** A tour that starts in `s` runs through it as through the graph within. */
  lemma {:induction false} TourInside(g: Graph, s: set<Id>, done: seq<Id>, x: Id)
    requires Closed(g) && s <= g.Keys && Convex(g, s) && x in s && Distinct(done)
    ensures In(Tour(g, g.Keys, done, x), s) == Tour(Inner(g, s), s, In(done, s), x)
    decreases g.Keys - Elems(done), 0
  {
    var h := Inner(g, s);
    TourUnfold(g, g.Keys, done, x);
    TourUnfold(h, s, In(done, s), x);
    if x !in done {
      assert x in g.Keys - Elems(done) && x !in g.Keys - Elems(done + [x]);
      hide Tour, Tours, Convex, Reach, Closed;
      InOne(done, x, s);
      ToursInside(g, s, done + [x], Ascending(g[x]), x);
      InAscending(Ascending(g[x]), s);
      AscendingUnique(Ascending(h[x]), In(Ascending(g[x]), s));
    }
  }

  lemma {:induction false} ToursInside(g: Graph, s: set<Id>, done: seq<Id>, xs: seq<Id>, from: Id)
    requires Closed(g) && s <= g.Keys && Convex(g, s) && Distinct(done)
    requires from in s && forall x :: x in xs ==> x in g[from]
    ensures In(Tours(g, g.Keys, done, xs), s) == Tours(Inner(g, s), s, In(done, s), In(xs, s))
    decreases g.Keys - Elems(done), |xs| + 2
  {
    hide Tour, Tours, Reach, Closed, In, Inner, Convex, Elems, Distinct;
    var h := Inner(g, s);
    ToursUnfold(g, g.Keys, done, xs);
    ToursUnfold(h, s, In(done, s), In(xs, s));
    if xs == [] {
      InNothing(s);
    } else {
      var x, next := xs[0], Tour(g, g.Keys, done, xs[0]);
      Longer(g, done, next);
      TourDistinct(g, g.Keys, done, x);
      TourNext(g, s, done, x, from);
      InCons(xs, s);
      ToursInside(g, s, next, xs[1..], from);
      if x in s {
        assert In(xs, s)[0] == x && In(xs, s)[1..] == In(xs[1..], s);
      } else {
        assert In(xs, s) == In(xs[1..], s);
      }
    }
  }

  lemma InNothing(c: set<Id>)
    ensures In([], c) == []
  {
  }

  lemma Longer(g: Graph, done: seq<Id>, next: seq<Id>)
    requires done <= next
    ensures g.Keys - Elems(next) <= g.Keys - Elems(done)
  {
  }

  /** One successor, inside or outside. */
  lemma {:induction false} TourNext(g: Graph, s: set<Id>, done: seq<Id>, x: Id, from: Id)
    requires Closed(g) && s <= g.Keys && Convex(g, s) && Distinct(done) && from in s && x in g[from]
    ensures
      In(Tour(g, g.Keys, done, x), s) == if x in s then Tour(Inner(g, s), s, In(done, s), x) else In(done, s)
    decreases g.Keys - Elems(done), 1
  {
    hide Tour, Tours, Reach, Closed, In, Inner, Elems, Distinct;
    if x in s {
      TourInside(g, s, done, x);
    } else {
      NoWayBack(g, s, from, x);
      TourOutside(g, s, done, x);
    }
  }

  lemma NoWayBack(g: Graph, s: set<Id>, from: Id, x: Id)
    requires Convex(g, s) && from in s && from in g && x in g[from] && x !in s
    ensures forall y :: y in s ==> !Reach(g, x, y)
  {
    ReachEdge(g, from, x);
  }

  lemma {:induction false} InSplit(a: seq<Id>, b: seq<Id>, c: set<Id>)
    ensures In(a + b, c) == In(a, c) + In(b, c)
  {
    if b == [] {
      assert a + b == a;
    } else {
      assert (a + b)[..|a + b| - 1] == a + b[..|b| - 1];
      InSplit(a, b[..|b| - 1], c);
    }
  }

  lemma InCons(xs: seq<Id>, c: set<Id>)
    requires xs != []
    ensures In(xs, c) == (if xs[0] in c then [xs[0]] else []) + In(xs[1..], c)
  {
    assert xs == [xs[0]] + xs[1..] && [xs[0]] == [] + [xs[0]];
    hide In;
    InSplit([xs[0]], xs[1..], c);
    InOne([], xs[0], c);
    InNothing(c);
  }

  // ---------------------------------------------------------------------------------------
  // Where a component is entered decides its order

  ghost predicate Strong(g: Graph, s: set<Id>) {
    forall x, y :: x in s && y in s ==> Reach(g, x, y)
  }

  /** All successors of what a tour adds are in it. */
  lemma {:induction false} TourCloses(g: Graph, s: set<Id>, done: seq<Id>, x: Id, y: Id, z: Id)
    requires s <= g.Keys && y in s && z in s && z in g[y]
    requires y in Tour(g, s, done, x) && y !in done
    ensures z in Tour(g, s, done, x)
    decreases s - Elems(done), 0
  {
    TourUnfold(g, s, done, x);
    assert x in s - Elems(done) && x !in s - Elems(done + [x]);
    hide Tour;
    if y != x { ToursClose(g, s, done + [x], Ascending(g[x]), y, z); }
  }

  lemma {:induction false} ToursClose(g: Graph, s: set<Id>, done: seq<Id>, xs: seq<Id>, y: Id, z: Id)
    requires s <= g.Keys && y in s && z in s && z in g[y]
    requires y in Tours(g, s, done, xs) && y !in done
    ensures z in Tours(g, s, done, xs)
    decreases s - Elems(done), |xs| + 1
  {
    ToursUnfold(g, s, done, xs);
    var next := Tour(g, s, done, xs[0]);
    assert s - Elems(next) <= s - Elems(done);
    hide Tour;
    if y in next { TourCloses(g, s, done, xs[0], y, z); } else { ToursClose(g, s, next, xs[1..], y, z); }
  }

  /** The tour of a component from one of its members. */
  ghost function Whole(g: Graph, s: set<Id>, e: Id): seq<Id>
    requires s <= g.Keys
  {
    Tour(Inner(g, s), s, [], e)
  }

  lemma WholeStarts(g: Graph, s: set<Id>, e: Id)
    requires s <= g.Keys && e in s
    ensures Whole(g, s, e) != [] && Whole(g, s, e)[0] == e
  {
    var h := Inner(g, s);
    TourUnfold(h, s, [], e);
    assert [] + [e] <= Tours(h, s, [] + [e], Ascending(h[e]));
  }

  /** It comes to every member. */
  lemma {:induction false} WholeCovers(g: Graph, s: set<Id>, e: Id, y: Id)
    requires Closed(g) && s <= g.Keys && Convex(g, s) && Strong(g, s) && e in s && y in s
    ensures y in Whole(g, s, e)
  {
    var v, h := Whole(g, s, e), Inner(g, s);
    var all := Elems(v) + set x | x in g && x !in s && Reach(g, e, x);
    forall x, z | x in all && x in g && z in g[x] ensures z in all {
      StaysInside(g, s, e, v, x, z);
    }
    assert Invariant(g, all);
    assert Reach(g, e, y);
    ReachInvariant(g, all, e, y);
  }

  lemma {:induction false} StaysInside(g: Graph, s: set<Id>, e: Id, v: seq<Id>, x: Id, z: Id)
    requires Closed(g) && s <= g.Keys && Convex(g, s) && Strong(g, s) && e in s && v == Whole(g, s, e)
    requires x in g && z in g[x] && (x in v || (x !in s && Reach(g, e, x)))
    ensures z in v || (z in g && z !in s && Reach(g, e, z))
  {
    hide Tour, Reach;
    ReachEdge(g, x, z);
    assert x in v ==> x in s;
    if x in s { assert Reach(g, e, x); }
    ReachTrans(g, e, x, z);
    if z in s {
      if x in s {
        TourCloses(Inner(g, s), s, [], e, x, z);
      } else {
        assert false;
      }
    }
  }

  /** Of `s` nothing has been visited, or all, from some member on. */
  ghost predicate AllOrNothing(g: Graph, s: set<Id>, done: seq<Id>)
    requires s <= g.Keys
  {
    In(done, s) == [] || exists e :: e in s && In(done, s) == Whole(g, s, e)
  }

  lemma {:induction false} TourAllOrNothing(g: Graph, s: set<Id>, done: seq<Id>, x: Id)
    requires Closed(g) && s <= g.Keys && Convex(g, s) && Strong(g, s) && Distinct(done) && AllOrNothing(g, s, done)
    ensures AllOrNothing(g, s, Tour(g, g.Keys, done, x))
    decreases g.Keys - Elems(done), 0
  {
    TourUnfold(g, g.Keys, done, x);
    if x in g && x !in done {
      assert x in g.Keys - Elems(done) && x !in g.Keys - Elems(done + [x]);
      if x in s {
        if In(done, s) != [] {
          var e :| e in s && In(done, s) == Whole(g, s, e);
          WholeCovers(g, s, e, x);
          assert false;
        } else {
          hide Tour, Tours, Convex, Strong;
          TourInside(g, s, done, x);
        }
      } else {
        hide Tour, Tours, Convex, Strong, Whole, Reach;
        InOne(done, x, s);
        ToursAllOrNothing(g, s, done + [x], Ascending(g[x]));
      }
    }
  }

  lemma {:induction false} ToursAllOrNothing(g: Graph, s: set<Id>, done: seq<Id>, xs: seq<Id>)
    requires Closed(g) && s <= g.Keys && Convex(g, s) && Strong(g, s) && Distinct(done) && AllOrNothing(g, s, done)
    ensures AllOrNothing(g, s, Tours(g, g.Keys, done, xs))
    decreases g.Keys - Elems(done), |xs| + 1
  {
    ToursUnfold(g, g.Keys, done, xs);
    if xs != [] {
      var next := Tour(g, g.Keys, done, xs[0]);
      Longer(g, done, next);
      hide Tour, Tours, Convex, Strong, Whole, Reach, AllOrNothing, Closed;
      TourDistinct(g, g.Keys, done, xs[0]);
      TourAllOrNothing(g, s, done, xs[0]);
      ToursAllOrNothing(g, s, next, xs[1..]);
    }
  }

  /** The member of `s` that is visited first. */
  ghost function Entry(g: Graph, s: set<Id>): Id
    requires In(Visits(g), s) != []
  {
    In(Visits(g), s)[0]
  }

  /** What a component is: all members reach each other, and no way out leads back. */
  lemma {:induction false} ComponentShape(g: Graph, k: nat)
    requires Closed(g) && k < |Components(g)|
    ensures
      var s := Elems(Components(g)[k]);
      s != {} && s <= g.Keys && Convex(g, s) && Strong(g, s)
  {
    ComponentsPartition(g);
    var c := Components(g)[k];
    var s := Elems(c);
    assert c != [] && c[0] in s;
    forall x | x in s ensures x in g { assert InOutput(Components(g), x); }
    hide Components, Reach;
    forall x, y | x in s && y in s ensures Reach(g, x, y) { SameComponentIffMutual(g, k, k, x, y); }
    forall x, y, z | y in s && z in s && Reach(g, y, x) && Reach(g, x, z) ensures x in s {
      ReachTrans(g, x, z, y);
      ReachedIsNode(g, y, x);
      assert InOutput(Components(g), x);
      var l :| 0 <= l < |Components(g)| && x in Components(g)[l];
      SameComponentIffMutual(g, l, k, x, y);
    }
  }

  lemma ReachedIsNode(g: Graph, x: Id, y: Id)
    requires Closed(g) && x in g && Reach(g, x, y)
    ensures y in g
  {
    ReachInvariant(g, g.Keys, x, y);
  }

  /** A component comes out in the reverse order of the tour within it, from the member entered first. */
  lemma {:induction false} ComponentIsTour(g: Graph, k: nat)
    requires Closed(g) && k < |Components(g)|
    ensures
      var c := Components(g)[k]; var s := Elems(c);
      && s <= g.Keys && In(Visits(g), s) != [] && Entry(g, s) in s
      && c == Reversed(Whole(g, s, Entry(g, s)))
  {
    var c := Components(g)[k];
    var s := Elems(c);
    ComponentShape(g, k);
    ComponentIsReversed(g, k);
    VisitsOnce(g);
    assert c != [] && c[0] in s && c[0] in Visits(g);
    hide Components, Convex, Strong, Tours, Whole;
    ToursAllOrNothing(g, s, [], Ascending(g.Keys));
    var e :| e in s && In(Visits(g), s) == Whole(g, s, e);
    WholeStarts(g, s, e);
  }

  /**
   Two graphs with a common component that is the same inside let its members out in the same order
   if and only if they enter it at the same member.
   */
  lemma {:induction false} OrdersAgreeIff(g: Graph, k: nat, g': Graph, k': nat)
    requires Closed(g) && k < |Components(g)| && Closed(g') && k' < |Components(g')|
    requires
      var s := Elems(Components(g)[k]);
      s == Elems(Components(g')[k']) && s <= g.Keys && s <= g'.Keys && Inner(g, s) == Inner(g', s)
    ensures
      var s := Elems(Components(g)[k]);
      && In(Visits(g), s) != [] && In(Visits(g'), s) != []
      && (Components(g)[k] == Components(g')[k'] <==> Entry(g, s) == Entry(g', s))
  {
    ComponentIsTour(g, k);
    ComponentIsTour(g', k');
    var s := Elems(Components(g)[k]);
    var e, e' := Entry(g, s), Entry(g', s);
    hide Components, Entry;
    WholeStarts(g, s, e);
    WholeStarts(g', s, e');
    ReversedTwice(Whole(g, s, e));
    ReversedTwice(Whole(g', s, e'));
  }

  // ---------------------------------------------------------------------------------------
  // Without a way in

  /** No edge leads into `s` from outside. */
  ghost predicate Unled(g: Graph, s: set<Id>) {
    forall x, y :: x in g && x !in s && y in g[x] ==> y !in s
  }

  lemma {:induction false} InPrefix(a: seq<Id>, b: seq<Id>, c: set<Id>)
    requires a <= b
    ensures In(a, c) <= In(b, c)
    decreases |b|
  {
    if |a| < |b| {
      InPrefix(a, b[..|b| - 1], c);
      assert b == b[..|b| - 1] + [b[|b| - 1]];
    } else {
      assert a == b;
    }
  }

  lemma NotLedInto(g: Graph, s: set<Id>, x: Id)
    requires Closed(g) && Unled(g, s) && x in g && x !in s
    ensures forall y :: y in s ==> !Reach(g, x, y)
  {
    forall y | y in s ensures !Reach(g, x, y) {
      if Reach(g, x, y) { ReachInvariant(g, g.Keys - s, x, y); }
    }
  }

  lemma {:induction false} RootsEnter(g: Graph, s: set<Id>, done: seq<Id>, xs: seq<Id>)
    requires Closed(g) && s <= g.Keys && Convex(g, s) && Unled(g, s) && Distinct(done) && In(done, s) == []
    requires (forall x :: x in xs ==> x in g) && In(xs, s) != []
    ensures In(Tours(g, g.Keys, done, xs), s) != [] && In(Tours(g, g.Keys, done, xs), s)[0] == In(xs, s)[0]
    decreases |xs|
  {
    hide Tour, Tours, Convex, Unled, Reach, Closed, Distinct, Inner, Elems;
    assert xs != [] by { InNothing(s); }
    var x, next := xs[0], Tour(g, g.Keys, done, xs[0]);
    ToursUnfold(g, g.Keys, done, xs);
    InCons(xs, s);
    if x in s {
      TourInside(g, s, done, x);
      WholeStarts(g, s, x);
      InPrefix(next, Tours(g, g.Keys, next, xs[1..]), s);
    } else {
      NotLedInto(g, s, x);
      TourOutside(g, s, done, x);
      TourDistinct(g, g.Keys, done, x);
      assert In(xs, s) == In(xs[1..], s);
      RootsEnter(g, s, next, xs[1..]);
    }
  }

  /** A component without a way in is entered at its smallest member. */
  lemma {:induction false} UnledEntry(g: Graph, k: nat)
    requires Closed(g) && k < |Components(g)| && Unled(g, Elems(Components(g)[k]))
    ensures
      var s := Elems(Components(g)[k]);
      In(Visits(g), s) != [] && Entry(g, s) in s && forall x :: x in s ==> Entry(g, s) <= x
  {
    ComponentShape(g, k);
    ComponentIsTour(g, k);
    hide Components, Convex, Unled, Strong, Tours, In, Entry;
    var s := Elems(Components(g)[k]);
    MinFirst(g, s);
    RootsEnter(g, s, [], Ascending(g.Keys));
    EntryIs(g, s);
  }

  lemma EntryIs(g: Graph, s: set<Id>)
    requires In(Visits(g), s) != []
    ensures Entry(g, s) == In(Tours(g, g.Keys, [], Ascending(g.Keys)), s)[0]
  {
    hide Tours, In;
  }

  /** The smallest member is the first among the roots. */
  lemma MinFirst(g: Graph, s: set<Id>)
    requires s != {} && s <= g.Keys
    ensures In([], s) == [] && In(Ascending(g.Keys), s) != []
    ensures In(Ascending(g.Keys), s)[0] in s && forall x :: x in s ==> In(Ascending(g.Keys), s)[0] <= x
  {
    var xs := Ascending(g.Keys);
    InNothing(s);
    InAscending(xs, s);
    hide In, Ascending;
    var x :| x in s;
    assert x in In(xs, s);
  }
}
