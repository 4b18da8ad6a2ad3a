/**
 The steps of a flusher one by one, for building concrete histories: what each needs, and what it
 changes in the world.
 */
module TxnSteps {
  import opened TxnGraph
  import opened SortedIds
  import opened Tarjan
  import opened Tokens
  import opened TxnProtocol
  import opened FlushOrder
  import opened FlushWalk
  import opened TxnFlusher

  const NEW := Txn(Preparing, 0, [])

  ghost predicate Reached(p: Program, run: seq<World>, w: World) {
    run != [] && run[|run| - 1] == w && IsHistory(p, run)
  }

  /** Part by part, worlds are the same. */
  lemma SameWorld(w: World, w': World)
    requires w.s.txns == w'.s.txns && w.s.docs == w'.s.docs
    requires w.s.runners == w'.s.runners && w.flushers == w'.flushers
    ensures w == w'
  {
  }

  function Put(w: World, r: RunnerId, run: Runner, f: Flusher): World {
    World(w.s.(runners := w.s.runners[r := run]), w.flushers[r := f])
  }

  function At(w: World, r: RunnerId, at: Position): Runner
    requires r in w.s.runners
  {
    w.s.runners[r].(at := at)
  }

  lemma {:induction false} Extend(p: Program, run: seq<World>, w: World, r: RunnerId, m: Move)
    returns (run': seq<World>)
    requires Reached(p, run, w) && Legal(p, w, r, m)
    ensures Reached(p, run', After(p, w, r, m))
  {
    hide Legal, After, First;
    run' := run + [After(p, w, r, m)];
    forall i | 0 <= i < |run'| - 1 ensures Steps(p, run'[i], run'[i + 1]) {
      if i < |run| - 1 {
        assert Steps(p, run[i], run[i + 1]);
      } else {
        assert run'[i] == w && run'[i + 1] == After(p, w, r, m);
      }
    }
  }

  // ---------------------------------------------------------------------------------------
  // Calls

  function Launched(w: World, r: RunnerId): World {
    World(w.s.(runners := w.s.runners[r := Runner(map[], Idle)]), w.flushers)
  }

  lemma {:induction false} DoStart(p: Program, run: seq<World>, w: World, r: RunnerId) returns (run': seq<World>)
    requires Reached(p, run, w) && r !in w.flushers
    ensures Reached(p, run', Launched(w, r))
  {
    hide Reached;
    run' := Extend(p, run, w, r, Start);
    assert Drop(w.flushers, r) == w.flushers;
  }

  /** A flusher that is called for `goal` and has read nothing yet. */
  function NewFlusher(goal: Id): Flusher { Flusher(goal, map[], Entering([], goal), None, []) }

  function InAdvance(f: Flusher, t: Id): Flusher { f.(call := Some(Call(t, None))) }

  lemma {:induction false} DoBegin(p: Program, run: seq<World>, w: World, r: RunnerId) returns (run': seq<World>)
    requires Reached(p, run, w) && Between(w, r) && NextCall(w.flushers[r]).Some?
    requires NextCall(w.flushers[r]).value.id in w.s.runners[r].copies
    ensures
      var f := w.flushers[r];
      Reached(p, run', Put(w, r, At(w, r, Advancing(NextCall(f).value.id)), f.(call := NextCall(f))))
  {
    hide Reached;
    run' := Extend(p, run, w, r, Move.Begin);
  }

  /** A runner starts and runs a new transaction. */
  lemma {:induction false} DoRun(p: Program, run: seq<World>, w: World, r: RunnerId, goal: Id)
    returns (run': seq<World>)
    requires Reached(p, run, w) && r !in w.flushers && goal in p && goal !in w.s.txns
    ensures Reached(p, run', Put(World(w.s.(txns := w.s.txns[goal := NEW]), w.flushers), r,
                                 Runner(map[goal := NEW], Advancing(goal)), InAdvance(NewFlusher(goal), goal)))
  {
    hide Reached;
    var w1 := Launched(w, r);
    run' := DoStart(p, run, w, r);
    var w2 := Put(World(w.s.(txns := w.s.txns[goal := NEW]), w.flushers), r, Runner(map[goal := NEW], Idle),
      NewFlusher(goal));
    assert map[][goal := NEW] == map[goal := NEW];
    assert w2.s.runners == w1.s.runners[r := Runner(map[goal := NEW], Idle)];
    assert Legal(p, w1, r, Move.Run(goal)) && w2 == After(p, w1, r, Move.Run(goal));
    run' := Extend(p, run', w1, r, Move.Run(goal));
    run' := DoBegin(p, run', w2, r);
    var w3 := Put(World(w.s.(txns := w.s.txns[goal := NEW]), w.flushers), r,
                  Runner(map[goal := NEW], Advancing(goal)), InAdvance(NewFlusher(goal), goal));
    assert Put(w2, r, At(w2, r, Advancing(goal)), InAdvance(NewFlusher(goal), goal)) == w3;
  }

  /** A runner starts and resumes a stored transaction. */
  lemma {:induction false} DoResume(p: Program, run: seq<World>, w: World, r: RunnerId, goal: Id)
    returns (run': seq<World>)
    requires Reached(p, run, w) && r !in w.flushers && goal in w.s.txns
    ensures Reached(p, run',
      Put(w, r, Runner(map[goal := w.s.txns[goal]], Advancing(goal)), InAdvance(NewFlusher(goal), goal)))
  {
    hide Reached;
    var w1, c := Launched(w, r), w.s.txns[goal];
    run' := DoStart(p, run, w, r);
    var w2 := Put(w, r, Runner(map[goal := c], Idle), NewFlusher(goal));
    assert map[][goal := c] == map[goal := c];
    assert w2.s.runners == w1.s.runners[r := Runner(map[goal := c], Idle)];
    assert Legal(p, w1, r, Move.Resume(goal)) && w2 == After(p, w1, r, Move.Resume(goal));
    run' := Extend(p, run', w1, r, Move.Resume(goal));
    run' := DoBegin(p, run', w2, r);
    var w3 := Put(w, r, Runner(map[goal := c], Advancing(goal)), InAdvance(NewFlusher(goal), goal));
    assert Put(w2, r, At(w2, r, Advancing(goal)), InAdvance(NewFlusher(goal), goal)) == w3;
  }

  // ---------------------------------------------------------------------------------------
  // Inside `advance`

  /** An action inside `advance`. */
  lemma {:induction false} DoAct(p: Program, run: seq<World>, w: World, r: RunnerId, a: Action)
    returns (run': seq<World>)
    requires Reached(p, run, w) && Inside(w, r) && !TxnSafety.Outside(a)
    requires w.s.runners[r].at.t in p && w.s.runners[r].at.t in w.s.txns
    requires
      var run, t := w.s.runners[r], w.s.runners[r].at.t;
      EnabledAt(p[t], w.s, run.at, run.copies[t], a) && Obeys(p, w.s, w.flushers[r], run, a)
    ensures
      var run, t := w.s.runners[r], w.s.runners[r].at.t;
      var s' := DoAt(p[t], w.s, r, run.at, run.copies[t], w.s.txns[t], a);
      r in s'.runners && s'.runners[r].at != Idle ==>
        Reached(p, run', World(s', w.flushers[r := Remember(p, w.s, w.flushers[r], run.at, a)]))
    ensures
      var run, t := w.s.runners[r], w.s.runners[r].at.t;
      var s' := DoAt(p[t], w.s, r, run.at, run.copies[t], w.s.txns[t], a);
      a.SetApplied? ==> Reached(p, run', World(s', w.flushers[r := Remember(p, w.s, w.flushers[r], run.at, a)]))
  {
    hide Reached, EnabledAt, DoAt, Obeys, Remember;
    assert Legal(p, w, r, Act(a));
    run' := Extend(p, run, w, r, Act(a));
  }

  /** The position and the copy of a flusher inside `advance`. */
  ghost predicate Stands(p: Program, w: World, r: RunnerId, t: Id, at: Position, c: Txn) {
    && Inside(w, r) && w.s.runners[r].at == at && at.t == t
    && t in p && t in w.s.txns && w.s.runners[r].copies[t] == c
  }

  lemma {:induction false} DoPrepare(p: Program, run: seq<World>, w: World, r: RunnerId, t: Id, nonce: Nonce)
    returns (run': seq<World>)
    requires Reached(p, run, w) && Stands(p, w, r, t, Advancing(t), NEW) && nonce != 0
    ensures Reached(p, run', Put(w, r, At(w, r, AddingTokens(t, nonce, DocKeys(p[t]), map[])), w.flushers[r]))
  {
    hide Reached, DocKeys, StopsForPreReqs;
    var a, f := StartPrepare(nonce, DocKeys(p[t])), w.flushers[r];
    DocKeysCover(p[t]);
    run' := DoAct(p, run, w, r, a);
    assert w.flushers[r := f] == Put(w, r, w.s.runners[r], f).flushers;
  }

  lemma DocKeysCover(ops: seq<Op>)
    ensures CoversWith(ops, map[], DocKeys(ops)) && OnlyDocs(ops, DocKeys(ops))
  {
  }

  /** Adds the entry to the queue of the next document. */
  lemma {:induction false} DoAddToken(p: Program, run: seq<World>, w: World, r: RunnerId, t: Id, nonce: Nonce,
      todo: seq<DocKey>, rev: Revisions)
    returns (run': seq<World>)
    requires Reached(p, run, w) && Stands(p, w, r, t, AddingTokens(t, nonce, todo, rev), NEW)
    requires todo != [] && todo[0] in w.s.docs
    ensures
      var d := w.s.docs[todo[0]]; var q := WithToken(d.queue, Token(t, nonce));
      Reached(p, run', Put(World(w.s.(docs := w.s.docs[todo[0] := d.(queue := q)]), w.flushers), r,
        At(w, r, AddingTokens(t, nonce, todo[1..], rev[todo[0] := d.revno])),
        w.flushers[r].(queue := w.flushers[r].queue[todo[0] := q])))
  {
    hide Reached, DocKeys, StopsForPreReqs, WithToken;
    run' := DoAct(p, run, w, r, AddToken);
  }

  /** The nonce is saved; the revisions planned are those read. */
  lemma {:induction false} DoSaveNonce(p: Program, run: seq<World>, w: World, r: RunnerId, t: Id, nonce: Nonce,
      rev: Revisions)
    returns (run': seq<World>)
    requires Reached(p, run, w) && Stands(p, w, r, t, AddingTokens(t, nonce, [], rev), NEW) && w.s.txns[t] == NEW
    ensures
      var c := Txn(Prepared, nonce, []);
      Reached(p, run', Put(World(w.s.(txns := w.s.txns[t := c]), w.flushers), r,
        Runner(w.s.runners[r].copies[t := c], Asserting(t, Revnos(p[t], rev))), w.flushers[r]))
  {
    hide Reached, DocKeys, StopsForPreReqs, Revnos;
    run' := DoAct(p, run, w, r, SaveNonce);
    assert w.flushers[r := w.flushers[r]] == w.flushers;
  }

  // ---------------------------------------------------------------------------------------
  // Rescans and checkpoints

  /** The revisions and queues read from the documents of `todo`. */
  function RevisionsRead(todo: seq<DocKey>, docs: map<DocKey, Doc>, rev: Revisions): Revisions
    requires forall d :: d in todo ==> d in docs
  {
    if todo == [] then rev else RevisionsRead(todo[1..], docs, rev[todo[0] := docs[todo[0]].revno])
  }

  function Views(todo: seq<DocKey>, docs: map<DocKey, Doc>, queue: Queues): Queues
    requires forall d :: d in todo ==> d in docs
  {
    if todo == [] then queue else Views(todo[1..], docs, queue[todo[0] := docs[todo[0]].queue])
  }

  lemma {:induction false} DoRescanDocs(p: Program, run: seq<World>, w: World, r: RunnerId, t: Id, todo: seq<DocKey>,
      rev: Revisions, c: Txn)
    returns (run': seq<World>)
    requires Reached(p, run, w) && Stands(p, w, r, t, Rescanning(t, todo, rev), c)
    requires forall d :: d in todo ==> d in w.s.docs && Token(t, c.nonce) in w.s.docs[d].queue
    ensures
      var f := w.flushers[r];
      Reached(p, run', Put(w, r, At(w, r, Rescanning(t, [], RevisionsRead(todo, w.s.docs, rev))),
                           f.(queue := Views(todo, w.s.docs, f.queue))))
    decreases |todo|
  {
    var f := w.flushers[r];
    if todo == [] {
      run' := run;
      assert Put(w, r, At(w, r, Rescanning(t, [], rev)), f.(queue := f.queue)).s.runners == w.s.runners;
      assert Put(w, r, At(w, r, Rescanning(t, [], rev)), f.(queue := f.queue)).flushers == w.flushers;
    } else {
      hide Reached, DocKeys, StopsForPreReqs;
      assert todo[0] in todo;
      var rev', f' := rev[todo[0] := w.s.docs[todo[0]].revno], f.(queue := f.queue[todo[0] := w.s.docs[todo[0]].queue]);
      var w' := Put(w, r, At(w, r, Rescanning(t, todo[1..], rev')), f');
      run' := DoAct(p, run, w, r, RescanDoc);
      assert Stands(p, w', r, t, Rescanning(t, todo[1..], rev'), c);
      run' := DoRescanDocs(p, run', w', r, t, todo[1..], rev', c);
      PutTwice(w, r, At(w, r, Rescanning(t, todo[1..], rev')), f');
    }
  }

  lemma PutTwice(w: World, r: RunnerId, run: Runner, f: Flusher)
    ensures forall run', f' :: Put(Put(w, r, run, f), r, run', f') == Put(w, r, run', f')
  {
    forall run', f' ensures Put(Put(w, r, run, f), r, run', f') == Put(w, r, run', f') {
      assert w.s.runners[r := run][r := run'] == w.s.runners[r := run'];
      assert w.flushers[r := f][r := f'] == w.flushers[r := f'];
    }
  }

  /** A rescan that finds all entries; nothing keeps it from beginning. */
  lemma {:induction false} DoRescan(p: Program, run: seq<World>, w: World, r: RunnerId, t: Id, c: Txn)
    returns (run': seq<World>)
    requires Reached(p, run, w) && Stands(p, w, r, t, Advancing(t), c) && c.state == Prepared
    requires !StopsForPreReqs(p, w.flushers[r], w.s.runners[r])
    requires forall d :: d in DocKeys(p[t]) ==> d in w.s.docs && Token(t, c.nonce) in w.s.docs[d].queue
    ensures
      var f, todo := w.flushers[r], DocKeys(p[t]);
      Reached(p, run', Put(w, r, At(w, r, Asserting(t, Revnos(p[t], RevisionsRead(todo, w.s.docs, map[])))),
                           f.(queue := Views(todo, w.s.docs, f.queue))))
  {
    hide Reached, DocKeys, StopsForPreReqs, Revnos, RevisionsRead, Views;
    var f, todo := w.flushers[r], DocKeys(p[t]);
    DocKeysCover(p[t]);
    run' := DoAct(p, run, w, r, StartRescan(todo));
    var w1 := Put(w, r, At(w, r, Rescanning(t, todo, map[])), f);
    run' := DoRescanDocs(p, run', w1, r, t, todo, map[], c);
    var rev, f2 := RevisionsRead(todo, w.s.docs, map[]), f.(queue := Views(todo, w.s.docs, f.queue));
    var w2 := Put(w, r, At(w, r, Rescanning(t, [], rev)), f2);
    PutTwice(w, r, At(w, r, Rescanning(t, todo, map[])), f);
    assert Stands(p, w2, r, t, Rescanning(t, [], rev), c);
    run' := DoAct(p, run', w2, r, FinishRescan);
    PutTwice(w, r, At(w, r, Rescanning(t, [], rev)), f2);
  }

  /** The assertions hold, and the plan is saved. */
  lemma {:induction false} DoCheckpoint(p: Program, run: seq<World>, w: World, r: RunnerId, t: Id, revnos: seq<int>,
      c: Txn)
    returns (run': seq<World>)
    requires Reached(p, run, w) && Stands(p, w, r, t, Asserting(t, revnos), c) && c.state == Prepared
    requires w.s.txns[t] == c && !StopsForPreReqs(p, w.flushers[r], w.s.runners[r])
    ensures
      var c' := c.(state := Applying, revnos := revnos);
      Reached(p, run', Put(World(w.s.(txns := w.s.txns[t := c']), w.flushers), r,
                           Runner(w.s.runners[r].copies[t := c'], Advancing(t)), w.flushers[r]))
  {
    hide Reached, DocKeys, StopsForPreReqs;
    var f := w.flushers[r];
    var w1 := Put(w, r, At(w, r, Checkpointing(t, revnos)), f);
    run' := DoAct(p, run, w, r, AssertHolds);
    run' := DoAct(p, run', w1, r, TxnProtocol.Checkpoint);
    PutTwice(w, r, At(w, r, Checkpointing(t, revnos)), f);
    var c' := c.(state := Applying, revnos := revnos);
    assert Put(World(w1.s.(txns := w1.s.txns[t := c']), w1.flushers), r,
               Runner(w.s.runners[r].copies[t := c'], Advancing(t)), f)
        == Put(World(w.s.(txns := w.s.txns[t := c']), w.flushers), r,
               Runner(w.s.runners[r].copies[t := c'], Advancing(t)), f);
  }

  // ---------------------------------------------------------------------------------------
  // Applying

  lemma {:induction false} WithoutIsThinner(q: seq<Token>, gone: seq<Token>)
    ensures Thinner(Without(q, gone), q)
  {
    forall x, y | Ahead(Without(q, gone), x, y) ensures Ahead(q, x, y) { WithoutOrder(q, gone, x, y); }
  }

  lemma {:induction false} WithoutOrder(q: seq<Token>, gone: seq<Token>, x: Token, y: Token)
    requires Ahead(Without(q, gone), x, y)
    ensures Ahead(q, x, y)
  {
    var left := Without(q, gone);
    var i, j :| 0 <= i < j < |left| && left[i] == x && left[j] == y;
    var rest := Without(q[1..], gone);
    if q[0] !in gone && i == 0 {
      assert y == rest[j - 1] && y in rest && y in q[1..];
      var l :| 0 <= l < |q[1..]| && q[1..][l] == y;
      assert q[l + 1] == y;
    } else {
      var k := if q[0] in gone then 0 else 1;
      assert rest[i - k] == x && rest[j - k] == y;
      WithoutOrder(q[1..], gone, x, y);
      var i', j' :| 0 <= i' < j' < |q[1..]| && q[1..][i'] == x && q[1..][j'] == y;
      assert q[i' + 1] == x && q[j' + 1] == y;
    }
  }

  /** Nothing is pulled from a queue without entries of transactions that may be pulled. */
  lemma {:induction false} PullsNothing(q: seq<Token>, pull: map<Id, Nonce>, dontPull: Option<Token>)
    requires forall x :: x in q ==> x.id !in pull
    ensures Pulled(q, pull, dontPull) == []
  {
    if q != [] { PullsNothing(q[..|q| - 1], pull, dontPull); }
  }

  lemma {:induction false} WithoutNothing(q: seq<Token>)
    ensures Without(q, []) == q
  {
    if q != [] {
      WithoutNothing(q[1..]);
      assert q == [q[0]] + q[1..];
    }
  }

  /** What an update by `t` leaves of the queue of its document. */
  ghost function Leaves(p: Program, w: World, r: RunnerId, t: Id, op: nat, c: Txn): seq<Token>
    requires Inside(w, r) && t in p && op < |p[t]| && p[t][op].doc in w.s.docs
  {
    var doc, f := p[t][op].doc, w.flushers[r];
    Without(w.s.docs[doc].queue,
            Pulled(View(f.queue, doc), PullMap(f.call.value, c.nonce), Kept(p[t], op, Token(t, c.nonce))))
  }

  lemma {:induction false} DoStartApply(p: Program, run: seq<World>, w: World, r: RunnerId, t: Id, c: Txn)
    returns (run': seq<World>)
    requires Reached(p, run, w) && Stands(p, w, r, t, Advancing(t), c) && c.state == Applying
    ensures Reached(p, run', Put(w, r, At(w, r, ApplyingOp(t, 0)), w.flushers[r]))
  {
    hide Reached, DocKeys, StopsForPreReqs;
    run' := DoAct(p, run, w, r, StartApply);
  }

  /** An update that finds its revision and its entry. */
  lemma {:induction false} DoUpdate(p: Program, run: seq<World>, w: World, r: RunnerId, t: Id, op: nat, c: Txn)
    returns (run': seq<World>)
    requires Reached(p, run, w) && Stands(p, w, r, t, ApplyingOp(t, op), c) && op < |p[t]| && op < |c.revnos|
    requires p[t][op].doc in w.s.docs && Matches(p[t][op], c.revnos[op], Token(t, c.nonce), w.s.docs[p[t][op].doc])
    ensures
      var doc := p[t][op].doc; var d := w.s.docs[doc];
      var d' := Doc(Leaves(p, w, r, t, op, c), d.revno + 1, d.first, d.log + [Effect(t, op)]);
      Reached(p, run', Put(World(w.s.(docs := w.s.docs[doc := d']), w.flushers), r,
                           At(w, r, ApplyingOp(t, op + 1)), w.flushers[r]))
  {
    hide Reached, DocKeys, StopsForPreReqs, Without, Pulled, Thinner, Kept;
    WithoutIsThinner(w.s.docs[p[t][op].doc].queue,
      Pulled(View(w.flushers[r].queue, p[t][op].doc), PullMap(w.flushers[r].call.value, c.nonce),
             Kept(p[t], op, Token(t, c.nonce))));
    run' := DoAct(p, run, w, r, ApplyOp(Leaves(p, w, r, t, op, c)));
  }

  /** An update that misses counts as made. */
  lemma {:induction false} DoMiss(p: Program, run: seq<World>, w: World, r: RunnerId, t: Id, op: nat, c: Txn)
    returns (run': seq<World>)
    requires Reached(p, run, w) && Stands(p, w, r, t, ApplyingOp(t, op), c) && op < |p[t]| && op < |c.revnos|
    requires p[t][op].doc in w.s.docs && !Matches(p[t][op], c.revnos[op], Token(t, c.nonce), w.s.docs[p[t][op].doc])
    ensures Reached(p, run', Put(w, r, At(w, r, ApplyingOp(t, op + 1)), w.flushers[r]))
  {
    hide Reached, DocKeys, StopsForPreReqs, Without, Pulled, Thinner, Kept;
    WithoutIsThinner(w.s.docs[p[t][op].doc].queue,
      Pulled(View(w.flushers[r].queue, p[t][op].doc), PullMap(w.flushers[r].call.value, c.nonce),
             Kept(p[t], op, Token(t, c.nonce))));
    run' := DoAct(p, run, w, r, ApplyOp(Leaves(p, w, r, t, op, c)));
  }

  /** All updates are made, or missed: the transaction is marked as applied, and `advance` returns. */
  lemma {:induction false} DoApplied(p: Program, run: seq<World>, w: World, r: RunnerId, t: Id, op: nat, c: Txn)
    returns (run': seq<World>)
    requires Reached(p, run, w) && Stands(p, w, r, t, ApplyingOp(t, op), c) && op == |p[t]|
    requires w.s.txns[t].state == Applying
    ensures
      var x := w.s.txns[t].(state := Applied);
      Reached(p, run', Put(World(w.s.(txns := w.s.txns[t := x]), w.flushers), r,
                           Runner(w.s.runners[r].copies[t := c.(state := Applied)], Idle),
                           Continue(p, w.flushers[r], false)))
  {
    hide Reached, DocKeys, StopsForPreReqs, Continue;
    var f, copies, x := w.flushers[r], w.s.runners[r].copies[t := c.(state := Applied)], w.s.txns[t].(state := Applied);
    var w1 := Put(w, r, Runner(copies, SettingApplied(t)), f);
    run' := DoAct(p, run, w, r, FinishOps);
    run' := DoAct(p, run', w1, r, SetApplied);
    var w2 := Put(World(w.s.(txns := w.s.txns[t := x]), w.flushers), r, Runner(copies, Idle), f);
    assert w1.s.runners[r := Runner(copies, Idle)] == w2.s.runners;
    assert w1.flushers[r := f] == w2.flushers;
    assert !Inside(w2, r);
    run' := Extend(p, run', w2, r, Return);
    assert w2.flushers[r := Continue(p, f, false)] == w.flushers[r := Continue(p, f, false)];
  }

  // ---------------------------------------------------------------------------------------
  // Recursion and flush

  /** Entries of others are ahead: `advance` asks for pre-requisites. */
  lemma {:induction false} DoWait(p: Program, run: seq<World>, w: World, r: RunnerId) returns (run': seq<World>)
    requires Reached(p, run, w) && Inside(w, r) && StopsForPreReqs(p, w.flushers[r], w.s.runners[r])
    ensures Reached(p, run', Put(w, r, At(w, r, Idle), Continue(p, w.flushers[r], true)))
  {
    hide Reached, StopsForPreReqs, Continue;
    run' := Extend(p, run, w, r, Return);
  }

  /** The transaction is done: `advance` returns. */
  lemma {:induction false} DoReturn(p: Program, run: seq<World>, w: World, r: RunnerId) returns (run': seq<World>)
    requires Reached(p, run, w) && Inside(w, r) && w.s.runners[r].at.Advancing?
    requires w.s.runners[r].copies[w.s.runners[r].at.t].state == Applied
    ensures Reached(p, run', Put(w, r, At(w, r, Idle), Continue(p, w.flushers[r], false)))
  {
    hide Reached, Continue, PreReqs, Found, DocKeys;
    assert !StopsForPreReqs(p, w.flushers[r], w.s.runners[r]);
    run' := Extend(p, run, w, r, Return);
  }

  /** Only the flusher changes. */
  lemma SameRunner(w: World, r: RunnerId, f: Flusher)
    requires r in w.s.runners
    ensures Put(w, r, w.s.runners[r], f) == World(w.s, w.flushers[r := f])
  {
    assert w.s.runners[r := w.s.runners[r]] == w.s.runners;
  }

  lemma {:induction false} DoNextDoc(p: Program, run: seq<World>, w: World, r: RunnerId) returns (run': seq<World>)
    requires Reached(p, run, w) && Between(w, r) && HasFrame(w.flushers[r]) && Top(w.flushers[r]).docs != []
    requires AllKnown(Top(w.flushers[r]).entries, w.s.runners[r].copies)
    ensures
      var f := w.flushers[r]; var top := Top(f);
      Reached(p, run', Put(w, r, w.s.runners[r],
                           WithTop(f, Frame(top.t, top.docs[1..], View(f.queue, top.docs[0])))))
  {
    hide Reached, AllKnown;
    run' := Extend(p, run, w, r, NextDoc);
    var f := w.flushers[r];
    SameRunner(w, r, WithTop(f, Frame(Top(f).t, Top(f).docs[1..], View(f.queue, Top(f).docs[0]))));
  }

  /** The transaction of entry `k` is loaded, and `advance` called for it. */
  lemma {:induction false} DoLoadNext(p: Program, run: seq<World>, w: World, r: RunnerId, k: nat)
    returns (run': seq<World>)
    requires Reached(p, run, w) && Between(w, r) && HasFrame(w.flushers[r]) && k < |Top(w.flushers[r]).entries|
    requires AllKnown(Top(w.flushers[r]).entries[..k], w.s.runners[r].copies)
    requires Top(w.flushers[r]).entries[k].id !in w.s.runners[r].copies
    requires Top(w.flushers[r]).entries[k].id in w.s.txns
    ensures
      var f := w.flushers[r]; var top := Top(f); var id := top.entries[k].id;
      var stack := f.task.stack[..|f.task.stack| - 1] + [top.(entries := top.entries[k + 1..])];
      Reached(p, run', Put(w, r, Runner(w.s.runners[r].copies[id := w.s.txns[id]], Advancing(id)),
                           f.(task := Entering(stack, id), call := Some(Call(id, None)))))
  {
    hide Reached, AllKnown;
    var f := w.flushers[r];
    var top, id := Top(f), Top(f).entries[k].id;
    var stack := f.task.stack[..|f.task.stack| - 1] + [top.(entries := top.entries[k + 1..])];
    assert Legal(p, w, r, LoadNext(k));
    run' := Extend(p, run, w, r, LoadNext(k));
    var w1 := Put(w, r, Runner(w.s.runners[r].copies[id := w.s.txns[id]], Idle), f.(task := Entering(stack, id)));
    assert After(p, w, r, LoadNext(k)) == w1;
    run' := DoBegin(p, run', w1, r);
    PutTwice(w, r, w1.s.runners[r], w1.flushers[r]);
  }

  lemma {:induction false} DoLeave(p: Program, run: seq<World>, w: World, r: RunnerId) returns (run': seq<World>)
    requires Reached(p, run, w) && Between(w, r) && HasFrame(w.flushers[r]) && Top(w.flushers[r]).docs == []
    requires AllKnown(Top(w.flushers[r]).entries, w.s.runners[r].copies)
    ensures
      var f := w.flushers[r];
      Reached(p, run', Put(w, r, w.s.runners[r], f.(task := Recursing(f.task.stack[..|f.task.stack| - 1]))))
  {
    hide Reached, AllKnown;
    run' := Extend(p, run, w, r, Leave);
    var f := w.flushers[r];
    SameRunner(w, r, f.(task := Recursing(f.task.stack[..|f.task.stack| - 1])));
  }

  /** The successor lists `m` are built and sorted; the flush begins. */
  lemma {:induction false} DoFlush(p: Program, run: seq<World>, w: World, r: RunnerId, m: map<Id, seq<Id>>)
    returns (run': seq<World>)
    requires Reached(p, run, w) && CanFlush(w, r, m)
    ensures
      var f := w.flushers[r];
      var calls := CallsFor(Nonces(w.s.runners[r].copies), f.queue, m, f.goal);
      Reached(p, run', Put(w, r, w.s.runners[r], f.(task := Flushing(calls))))
  {
    hide Reached, IsQueueGraph, CallsFor;
    run' := Extend(p, run, w, r, Flush(m));
    var f := w.flushers[r];
    SameRunner(w, r, f.(task := Flushing(CallsFor(Nonces(w.s.runners[r].copies), f.queue, m, f.goal))));
  }
}
