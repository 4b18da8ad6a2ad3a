/**
 The start of the histories that follow: two transactions that change the documents 1 and 2, the
 first of them document 1 twice, are run at the same time, and come into the two queues in
 opposite orders. Each finds the other ahead of it and waits.
 */
module TxnStory {
  import opened TxnGraph
  import opened SortedIds
  import opened Tarjan
  import opened Tokens
  import opened TxnProtocol
  import opened FlushOrder
  import opened FlushWalk
  import opened TxnFlusher
  import opened TxnSteps
  import opened TxnCycle

  const TWICE: seq<Op> := [Op(1, true), Op(2, true), Op(1, true)]
  const ONCE: seq<Op> := [Op(1, true), Op(2, true)]
  const LONE: seq<Op> := [Op(2, true)]

  const PROGRAM: Program := map[0 := LONE, 1 := TWICE, 2 := ONCE]

  function Saved(nonce: Nonce): Txn { Txn(Prepared, nonce, []) }

  function Docs(q1: seq<Token>, log1: seq<Effect>, q2: seq<Token>, log2: seq<Effect>): map<DocKey, Doc> {
    map[1 := Doc(q1, |log1|, 0, log1), 2 := Doc(q2, |log2|, 0, log2)]
  }

  /** The documents of the two transactions, in order. */
  lemma Keys()
    ensures DocKeys(TWICE) == [1, 2] && DocKeys(ONCE) == [1, 2]
    ensures |TWICE| == 3 && |ONCE| == 2 && PROGRAM[1] == TWICE && PROGRAM[2] == ONCE
  {
    assert TWICE[0].doc == 1 && TWICE[1].doc == 2 && ONCE[0].doc == 1 && ONCE[1].doc == 2;
    AscendingUnique(DocKeys(TWICE), [1, 2]);
    AscendingUnique(DocKeys(ONCE), [1, 2]);
  }

  /** The world `b` with the first transaction, and its runner 1, added. */
  function One(b: World, x: Txn, docs: map<DocKey, Doc>, r1: Runner, f1: Flusher): World {
    World(System(b.s.txns[1 := x], docs, b.s.runners[1 := r1]), b.flushers[1 := f1])
  }

  /** With both transactions, and the runners 1 and 2. */
  function Scene(b: World, x: Txn, y: Txn, docs: map<DocKey, Doc>, r1: Runner, f1: Flusher, r2: Runner, f2: Flusher):
    World
  {
    World(System(b.s.txns[1 := x][2 := y], docs, b.s.runners[1 := r1][2 := r2]), b.flushers[1 := f1][2 := f2])
  }

  /** A world in which only entries of other transactions stand in the queue of document 2. */
  ghost predicate Blank(b: World, pre: seq<Token>) {
    && 1 !in b.s.txns && 2 !in b.s.txns && 1 !in b.flushers && 2 !in b.flushers
    && b.s.docs == Docs([], [], pre, []) && FIRST !in pre && SECOND !in pre
  }

  function View1(goal: Id, q1: seq<Token>): Flusher {
    InAdvance(NewFlusher(goal), goal).(queue := map[1 := q1])
  }

  function View2(goal: Id, q1: seq<Token>, q2: seq<Token>): Flusher {
    InAdvance(NewFlusher(goal), goal).(queue := map[1 := q1, 2 := q2])
  }

  /** The flusher asks for pre-requisites, and looks at its documents. */
  function Waiting(goal: Id, q1: seq<Token>, q2: seq<Token>): Flusher {
    Flusher(goal, map[1 := q1, 2 := q2], Recursing([Frame(goal, [1, 2], [])]), None, [])
  }

  lemma SetDocs(q1: seq<Token>, log1: seq<Effect>, q2: seq<Token>, log2: seq<Effect>, q: seq<Token>, log: seq<Effect>)
    ensures Docs(q1, log1, q2, log2)[1 := Doc(q, |log|, 0, log)] == Docs(q, log, q2, log2)
    ensures Docs(q1, log1, q2, log2)[2 := Doc(q, |log|, 0, log)] == Docs(q1, log1, q, log)
  {
  }

  /** Revisions and queues read in order. */
  lemma SetViews(q1: seq<Token>, q2: seq<Token>, v1: int, v2: int)
    ensures map[][1 := q1] == map[1 := q1] && map[1 := q1][2 := q2] == map[1 := q1, 2 := q2]
    ensures map[][1 := v1] == map[1 := v1] && map[1 := v1][2 := v2] == map[1 := v1, 2 := v2]
    ensures [1, 2][1..] == [2] && [2][1..] == []
  {
  }

  lemma {:induction false} FirstRuns(run: seq<World>, b: World, pre: seq<Token>) returns (run': seq<World>)
    requires Reached(PROGRAM, run, b) && Blank(b, pre)
    ensures Reached(PROGRAM, run', One(b, NEW, Docs([], [], pre, []),
      Runner(map[1 := NEW], AddingTokens(1, 5, [1, 2], map[])), InAdvance(NewFlusher(1), 1)))
  {
    hide IsHistory, DocKeys;
    Keys();
    var copies, f := map[1 := NEW], InAdvance(NewFlusher(1), 1);
    run' := DoRun(PROGRAM, run, b, 1, 1);
    var w1 := One(b, NEW, b.s.docs, Runner(copies, Advancing(1)), f);
    SameWorld(run'[|run'| - 1], w1);
    run' := DoPrepare(PROGRAM, run', w1, 1, 1, 5);
    SameWorld(run'[|run'| - 1], One(b, NEW, b.s.docs, Runner(copies, AddingTokens(1, 5, [1, 2], map[])), f));
  }

  lemma {:induction false} FirstAdds(run: seq<World>, b: World, pre: seq<Token>) returns (run': seq<World>)
    requires Reached(PROGRAM, run, b) && Blank(b, pre)
    ensures Reached(PROGRAM, run', One(b, NEW, Docs([FIRST], [], pre, []),
      Runner(map[1 := NEW], AddingTokens(1, 5, [2], map[1 := 0])), View1(1, [FIRST])))
  {
    hide IsHistory, DocKeys;
    run' := FirstRuns(run, b, pre);
    var copies, f := map[1 := NEW], InAdvance(NewFlusher(1), 1);
    var w := One(b, NEW, Docs([], [], pre, []), Runner(copies, AddingTokens(1, 5, [1, 2], map[])), f);
    run' := DoAddToken(PROGRAM, run', w, 1, 1, 5, [1, 2], map[]);
    assert WithToken([], FIRST) == [FIRST];
    SetDocs([], [], pre, [], [FIRST], []);
    SetViews([FIRST], [], 0, 0);
    SameWorld(run'[|run'| - 1], One(b, NEW, Docs([FIRST], [], pre, []),
      Runner(map[1 := NEW], AddingTokens(1, 5, [2], map[1 := 0])), View1(1, [FIRST])));
  }

  /** Where runner 1 stands while the second transaction is prepared. */
  const HALF := Runner(map[1 := NEW], AddingTokens(1, 5, [2], map[1 := 0]))

  lemma {:induction false} SecondRuns(run: seq<World>, b: World, pre: seq<Token>) returns (run': seq<World>)
    requires Reached(PROGRAM, run, b) && Blank(b, pre)
    ensures Reached(PROGRAM, run', Scene(b, NEW, NEW, Docs([FIRST], [], pre, []), HALF, View1(1, [FIRST]),
      Runner(map[2 := NEW], AddingTokens(2, 6, [1, 2], map[])), InAdvance(NewFlusher(2), 2)))
  {
    hide IsHistory, DocKeys;
    Keys();
    run' := FirstAdds(run, b, pre);
    var docs, v := Docs([FIRST], [], pre, []), View1(1, [FIRST]);
    var copies, f := map[2 := NEW], InAdvance(NewFlusher(2), 2);
    var w := One(b, NEW, docs, HALF, v);
    run' := DoRun(PROGRAM, run', w, 2, 2);
    var w1 := Scene(b, NEW, NEW, docs, HALF, v, Runner(copies, Advancing(2)), f);
    SameWorld(run'[|run'| - 1], w1);
    run' := DoPrepare(PROGRAM, run', w1, 2, 2, 6);
    SameWorld(run'[|run'| - 1],
      Scene(b, NEW, NEW, docs, HALF, v, Runner(copies, AddingTokens(2, 6, [1, 2], map[])), f));
  }

  lemma {:induction false} SecondAdds(run: seq<World>, b: World, pre: seq<Token>) returns (run': seq<World>)
    requires Reached(PROGRAM, run, b) && Blank(b, pre)
    ensures Reached(PROGRAM, run', Scene(b, NEW, NEW, Docs(BOTH, [], pre, []), HALF, View1(1, [FIRST]),
      Runner(map[2 := NEW], AddingTokens(2, 6, [2], map[1 := 0])), View1(2, BOTH)))
  {
    hide IsHistory, DocKeys;
    run' := SecondRuns(run, b, pre);
    var copies, v, f := map[2 := NEW], View1(1, [FIRST]), InAdvance(NewFlusher(2), 2);
    var w := Scene(b, NEW, NEW, Docs([FIRST], [], pre, []), HALF, v, Runner(copies, AddingTokens(2, 6, [1, 2], map[])),
      f);
    run' := DoAddToken(PROGRAM, run', w, 2, 2, 6, [1, 2], map[]);
    assert WithToken([FIRST], SECOND) == BOTH;
    SetDocs([FIRST], [], pre, [], BOTH, []);
    SetViews(BOTH, [], 0, 0);
    SameWorld(run'[|run'| - 1], Scene(b, NEW, NEW, Docs(BOTH, [], pre, []), HALF, v,
      Runner(copies, AddingTokens(2, 6, [2], map[1 := 0])), View1(2, BOTH)));
  }

  lemma {:induction false} SecondAddsMore(run: seq<World>, b: World, pre: seq<Token>) returns (run': seq<World>)
    requires Reached(PROGRAM, run, b) && Blank(b, pre)
    ensures Reached(PROGRAM, run', Scene(b, NEW, NEW, Docs(BOTH, [], pre + [SECOND], []), HALF, View1(1, [FIRST]),
      Runner(map[2 := NEW], AddingTokens(2, 6, [], map[1 := 0, 2 := 0])), View2(2, BOTH, pre + [SECOND])))
  {
    hide IsHistory, DocKeys;
    run' := SecondAdds(run, b, pre);
    var copies, v := map[2 := NEW], View1(1, [FIRST]);
    var w := Scene(b, NEW, NEW, Docs(BOTH, [], pre, []), HALF, v, Runner(copies, AddingTokens(2, 6, [2], map[1 := 0])),
                   View1(2, BOTH));
    run' := DoAddToken(PROGRAM, run', w, 2, 2, 6, [2], map[1 := 0]);
    assert WithToken(pre, SECOND) == pre + [SECOND];
    SetDocs(BOTH, [], pre, [], pre + [SECOND], []);
    SetViews(BOTH, pre + [SECOND], 0, 0);
    SameWorld(run'[|run'| - 1], Scene(b, NEW, NEW, Docs(BOTH, [], pre + [SECOND], []), HALF, v,
      Runner(copies, AddingTokens(2, 6, [], map[1 := 0, 2 := 0])), View2(2, BOTH, pre + [SECOND])));
  }

  /** Neither document has been changed. */
  lemma Plans(v1: int, v2: int)
    ensures Revnos(TWICE, map[1 := v1, 2 := v2]) == [v1, v2, v1 + 1]
    ensures Revnos(ONCE, map[1 := v1, 2 := v2]) == [v1, v2]
  {
    var rev := map[1 := v1, 2 := v2];
    assert TWICE[1..] == [Op(2, true), Op(1, true)] && TWICE[1..][1..] == [Op(1, true)] && TWICE[1..][1..][1..] == [];
    assert ONCE[1..] == [Op(2, true)] && ONCE[1..][1..] == [];
    var rev1 := rev[1 := v1 + 1];
    var rev2 := rev1[2 := v2 + 1];
    assert RevnosFor([Op(1, true)], rev2) == [v1 + 1] + RevnosFor([], rev2[1 := v1 + 2]);
    assert RevnosFor(TWICE[1..], rev1) == [v2] + RevnosFor([Op(1, true)], rev2);
    assert RevnosFor(ONCE[1..], rev1) == [v2] + RevnosFor([], rev2);
  }

  lemma AsksForPreReqs(goal: Id, q1: seq<Token>, q2: seq<Token>)
    requires goal == 1 || goal == 2
    ensures Continue(PROGRAM, View2(goal, q1, q2), true) == Waiting(goal, q1, q2)
  {
    Keys();
    hide DocKeys;
    assert [] + [Frame(goal, [1, 2], [])] == [Frame(goal, [1, 2], [])];
  }

  /** An entry of another transaction ahead makes `advance` stop, unless it is forced. */
  lemma Stops(f: Flusher, run: Runner, c: Txn, d: DocKey, i: nat)
    requires run.at.Asserting? && (run.at.t == 1 || run.at.t == 2) && run.at.t in run.copies &&
      run.copies[run.at.t] == c
    requires (d == 1 || d == 2) && OtherAhead(View(f.queue, d), Token(run.at.t, c.nonce), i) && !f.task.Flushing?
    ensures StopsForPreReqs(PROGRAM, f, run)
  {
    Keys();
    hide DocKeys;
  }

  /** The second transaction is prepared, and finds the first one ahead of it in document 1. */
  lemma {:induction false} SecondWaits(run: seq<World>, b: World, pre: seq<Token>) returns (run': seq<World>)
    requires Reached(PROGRAM, run, b) && Blank(b, pre)
    ensures Reached(PROGRAM, run', Scene(b, NEW, Saved(6), Docs(BOTH, [], pre + [SECOND], []), HALF, View1(1, [FIRST]),
      Runner(map[2 := Saved(6)], Idle), Waiting(2, BOTH, pre + [SECOND])))
  {
    hide IsHistory, DocKeys, Revnos, StopsForPreReqs, Continue;
    Plans(0, 0);
    run' := SecondAddsMore(run, b, pre);
    var docs, v, f := Docs(BOTH, [], pre + [SECOND], []), View1(1, [FIRST]), View2(2, BOTH, pre + [SECOND]);
    var w := Scene(b, NEW, NEW, docs, HALF, v, Runner(map[2 := NEW], AddingTokens(2, 6, [], map[1 := 0, 2 := 0])), f);
    run' := DoSaveNonce(PROGRAM, run', w, 2, 2, 6, map[1 := 0, 2 := 0]);
    var r2 := Runner(map[2 := Saved(6)], Asserting(2, [0, 0]));
    var w1 := Scene(b, NEW, Saved(6), docs, HALF, v, r2, f);
    assert map[2 := NEW][2 := Saved(6)] == map[2 := Saved(6)];
    SameWorld(run'[|run'| - 1], w1);
    Stops(f, r2, Saved(6), 1, 0);
    run' := DoWait(PROGRAM, run', w1, 2);
    AsksForPreReqs(2, BOTH, pre + [SECOND]);
    SameWorld(run'[|run'| - 1], Scene(b, NEW, Saved(6), docs, HALF, v, Runner(map[2 := Saved(6)], Idle),
      Waiting(2, BOTH, pre + [SECOND])));
  }

  /** The world in which both wait. */
  function BothPrepared(b: World, pre: seq<Token>): World {
    var q2 := pre + [SECOND, FIRST];
    Scene(b, Saved(5), Saved(6), Docs(BOTH, [], q2, []),
          Runner(map[1 := Saved(5)], Idle), Waiting(1, [FIRST], q2),
          Runner(map[2 := Saved(6)], Idle), Waiting(2, BOTH, pre + [SECOND]))
  }

  /** Where the first runner stands with both entries added. */
  const ADDED := Runner(map[1 := NEW], AddingTokens(1, 5, [], map[1 := 0, 2 := 0]))

  /** The second waits with `had` in sight; the queue of document 2 is `q2`. */
  function FirstScene(b: World, had: seq<Token>, x: Txn, q2: seq<Token>, r1: Runner, f1: Flusher): World {
    Scene(b, x, Saved(6), Docs(BOTH, [], q2, []), r1, f1, Runner(map[2 := Saved(6)], Idle), Waiting(2, BOTH, had))
  }

  lemma {:induction false} FirstAddsMore(run: seq<World>, b: World, had: seq<Token>, q2: seq<Token>)
    returns (run': seq<World>)
    requires Reached(PROGRAM, run, FirstScene(b, had, NEW, had, HALF, View1(1, [FIRST]))) && WithToken(had, FIRST) == q2
    ensures Reached(PROGRAM, run', FirstScene(b, had, NEW, q2, ADDED, View2(1, [FIRST], q2)))
  {
    hide IsHistory, DocKeys, WithToken;
    var w := FirstScene(b, had, NEW, had, HALF, View1(1, [FIRST]));
    run' := DoAddToken(PROGRAM, run, w, 1, 1, 5, [2], map[1 := 0]);
    SetDocs(BOTH, [], had, [], q2, []);
    SetViews([FIRST], q2, 0, 0);
    SameWorld(run'[|run'| - 1], FirstScene(b, had, NEW, q2, ADDED, View2(1, [FIRST], q2)));
  }

  lemma {:induction false} FirstSaves(run: seq<World>, b: World, had: seq<Token>, q2: seq<Token>)
    returns (run': seq<World>)
    requires Reached(PROGRAM, run, FirstScene(b, had, NEW, q2, ADDED, View2(1, [FIRST], q2)))
    ensures Reached(PROGRAM, run', FirstScene(b, had, Saved(5), q2, Runner(map[1 := Saved(5)], Asserting(1, [0, 0, 1])),
                                              View2(1, [FIRST], q2)))
  {
    hide IsHistory, DocKeys, Revnos;
    Plans(0, 0);
    run' := DoSaveNonce(PROGRAM, run, FirstScene(b, had, NEW, q2, ADDED, View2(1, [FIRST], q2)), 1, 1, 5,
      map[1 := 0, 2 := 0]);
    assert map[1 := NEW][1 := Saved(5)] == map[1 := Saved(5)];
    SameWorld(run'[|run'| - 1], FirstScene(b, had, Saved(5), q2, Runner(map[1 := Saved(5)], Asserting(1, [0, 0, 1])),
                                           View2(1, [FIRST], q2)));
  }

  lemma {:induction false} FirstWaits(run: seq<World>, b: World, had: seq<Token>, q2: seq<Token>, i: nat)
    returns (run': seq<World>)
    requires Reached(PROGRAM, run, FirstScene(b, had, Saved(5), q2, Runner(map[1 := Saved(5)], Asserting(1, [0, 0, 1])),
                                              View2(1, [FIRST], q2)))
    requires OtherAhead(q2, FIRST, i)
    ensures Reached(PROGRAM, run',
      FirstScene(b, had, Saved(5), q2, Runner(map[1 := Saved(5)], Idle), Waiting(1, [FIRST], q2)))
  {
    hide IsHistory, StopsForPreReqs, Continue, OtherAhead;
    var r1, f := Runner(map[1 := Saved(5)], Asserting(1, [0, 0, 1])), View2(1, [FIRST], q2);
    Stops(f, r1, Saved(5), 2, i);
    run' := DoWait(PROGRAM, run, FirstScene(b, had, Saved(5), q2, r1, f), 1);
    AsksForPreReqs(1, [FIRST], q2);
    SameWorld(run'[|run'| - 1],
      FirstScene(b, had, Saved(5), q2, Runner(map[1 := Saved(5)], Idle), Waiting(1, [FIRST], q2)));
  }

  lemma SecondAhead(b: World, pre: seq<Token>)
    requires Blank(b, pre)
    ensures
      var q2 := pre + [SECOND, FIRST];
      WithToken(pre + [SECOND], FIRST) == q2 && OtherAhead(q2, FIRST, |pre|)
  {
    var q2 := pre + [SECOND, FIRST];
    assert q2[..|pre|] == pre && q2[|pre|] == SECOND && pre + [SECOND] + [FIRST] == q2;
  }

  lemma {:induction false} BothWait(run: seq<World>, b: World, pre: seq<Token>) returns (run': seq<World>)
    requires Reached(PROGRAM, run, b) && Blank(b, pre)
    ensures Reached(PROGRAM, run', BothPrepared(b, pre))
  {
    SecondAhead(b, pre);
    hide IsHistory, Blank, OtherAhead, WithToken, Scene, Docs;
    var had, q2 := pre + [SECOND], pre + [SECOND, FIRST];
    run' := SecondWaits(run, b, pre);
    run' := FirstAddsMore(run', b, had, q2);
    run' := FirstSaves(run', b, had, q2);
    run' := FirstWaits(run', b, had, q2, |pre|);
  }

  // ---------------------------------------------------------------------------------------
  // The second runner goes on

  const EMPTY := World(System(map[], Docs([], [], [], []), map[]), map[])

  const COPIES: map<Id, Txn> := map[1 := Saved(5), 2 := Saved(6)]

  const VIEWS: Queues := map[1 := BOTH, 2 := CROSS]

  /** Both wait, each with the queues its runner has read. */
  function BothWaiting(): World {
    Scene(EMPTY, Saved(5), Saved(6), Docs(BOTH, [], CROSS, []),
          Runner(map[1 := Saved(5)], Idle), Waiting(1, [FIRST], CROSS),
          Runner(map[2 := Saved(6)], Idle), Waiting(2, BOTH, [SECOND]))
  }

  lemma {:induction false} Begins() returns (run: seq<World>)
    ensures Reached(PROGRAM, run, BothWaiting())
  {
    hide Init, Legal, After;
    run := [EMPTY];
    StartsEmpty();
    run := BothWait(run, EMPTY, []);
    assert [] + [SECOND, FIRST] == CROSS && [] + [SECOND] == [SECOND];
  }

  lemma StartsEmpty()
    ensures First(EMPTY) && Blank(EMPTY, [])
  {
  }

  /** A flusher looks through two queues in which it knows everything, and leaves. */
  lemma {:induction false} LooksThrough(run: seq<World>, w: World, r: RunnerId, copies: map<Id, Txn>, f: Flusher,
      stack: seq<Frame>, t: Id)
    returns (run': seq<World>)
    requires f.call == None && f.task == Recursing(stack + [Frame(t, [1, 2], [])])
    requires AllKnown(View(f.queue, 1), copies) && AllKnown(View(f.queue, 2), copies)
    requires Reached(PROGRAM, run, Put(w, r, Runner(copies, Idle), f))
    ensures Reached(PROGRAM, run', Put(w, r, Runner(copies, Idle), f.(task := Recursing(stack))))
  {
    hide IsHistory, AllKnown, View;
    var idle := Runner(copies, Idle);
    assert AllKnown([], copies) by { NothingUnknown(copies); }
    var f1 := f.(task := Recursing(stack + [Frame(t, [2], View(f.queue, 1))]));
    assert f.task.stack[..|stack|] == stack && [1, 2][1..] == [2];
    run' := DoNextDoc(PROGRAM, run, Put(w, r, idle, f), r);
    PutTwice(w, r, idle, f);
    run' := LooksThroughLast(run', w, r, copies, f1, stack, t, View(f.queue, 1));
  }

  lemma NothingUnknown(copies: map<Id, Txn>)
    ensures AllKnown([], copies)
  {
  }

  lemma {:induction false} LooksThroughLast(run: seq<World>, w: World, r: RunnerId, copies: map<Id, Txn>, f: Flusher,
      stack: seq<Frame>, t: Id, entries: seq<Token>)
    returns (run': seq<World>)
    requires f.call == None && f.task == Recursing(stack + [Frame(t, [2], entries)])
    requires AllKnown(entries, copies) && AllKnown(View(f.queue, 2), copies)
    requires Reached(PROGRAM, run, Put(w, r, Runner(copies, Idle), f))
    ensures Reached(PROGRAM, run', Put(w, r, Runner(copies, Idle), f.(task := Recursing(stack))))
  {
    hide IsHistory, AllKnown, View;
    var idle := Runner(copies, Idle);
    var f2 := f.(task := Recursing(stack + [Frame(t, [], View(f.queue, 2))]));
    assert f.task.stack[..|stack|] == stack && [2][1..] == [];
    run' := DoNextDoc(PROGRAM, run, Put(w, r, idle, f), r);
    PutTwice(w, r, idle, f);
    assert f2.task.stack[..|stack|] == stack;
    run' := DoLeave(PROGRAM, run', Put(w, r, idle, f2), r);
    PutTwice(w, r, idle, f2);
  }

  /** It loads the first transaction. */
  lemma {:induction false} SecondLoads() returns (run: seq<World>)
    ensures Reached(PROGRAM, run, Put(BothWaiting(), 2, Runner(COPIES, Advancing(1)),
      Flusher(2, map[1 := BOTH, 2 := [SECOND]], Entering([Frame(2, [2], [SECOND])], 1), Some(Call(1, None)), [])))
  {
    hide IsHistory;
    run := Begins();
    var w, r2 := BothWaiting(), Runner(map[2 := Saved(6)], Idle);
    var f := Waiting(2, BOTH, [SECOND]);
    var f1 := f.(task := Recursing([Frame(2, [2], BOTH)]));
    run := DoNextDoc(PROGRAM, run, w, 2);
    assert [] + [Frame(2, [2], BOTH)] == [Frame(2, [2], BOTH)] && [1, 2][1..] == [2];
    assert f.task.stack[..0] == [] && f1.task.stack[..0] == [];
    run := DoLoadNext(PROGRAM, run, Put(w, 2, r2, f1), 2, 0);
    assert BOTH[..0] == [] && BOTH[1..] == [SECOND] && [] + [Frame(2, [2], [SECOND])] == [Frame(2, [2], [SECOND])];
    assert map[2 := Saved(6)][1 := Saved(5)] == COPIES;
    PutTwice(w, 2, r2, f1);
  }

  /** What a rescan reads, and the plan it makes. */
  lemma Reads(q1: seq<Token>, log1: seq<Effect>, q2: seq<Token>, log2: seq<Effect>, queue: Queues)
    ensures RevisionsRead([1, 2], Docs(q1, log1, q2, log2), map[]) == map[1 := |log1|, 2 := |log2|]
    ensures Views([1, 2], Docs(q1, log1, q2, log2), queue) == queue[1 := q1][2 := q2]
  {
    var docs := Docs(q1, log1, q2, log2);
    assert [1, 2][1..] == [2] && [2][1..] == [];
    assert map[][1 := |log1|] == map[1 := |log1|];
    assert RevisionsRead([2], docs, map[1 := |log1|]) ==
      RevisionsRead([], docs, map[1 := |log1|][2 := |log2|]);
    assert Views([2], docs, queue[1 := q1]) == Views([], docs, queue[1 := q1][2 := q2]);
  }

  function Plan(t: Id, v1: int, v2: int): seq<int> {
    if t == 1 then [v1, v2, v1 + 1] else [v1, v2]
  }

  /** A rescan of the first or the second transaction. */
  lemma {:induction false} RescansBoth(run: seq<World>, w: World, r: RunnerId, t: Id, copies: map<Id, Txn>, f: Flusher,
      q1: seq<Token>, log1: seq<Effect>, q2: seq<Token>, log2: seq<Effect>)
    returns (run': seq<World>)
    requires (t == 1 || t == 2) && t in copies && copies[t] == Saved(t + 4) && t in w.s.txns
    requires w.s.docs == Docs(q1, log1, q2, log2) && Token(t, t + 4) in q1 && Token(t, t + 4) in q2
    requires f.call.Some? && f.call.value.id == t && !StopsForPreReqs(PROGRAM, f, Runner(copies, Advancing(t)))
    requires Reached(PROGRAM, run, Put(w, r, Runner(copies, Advancing(t)), f))
    ensures Reached(PROGRAM, run', Put(w, r, Runner(copies, Asserting(t, Plan(t, |log1|, |log2|))),
                                       f.(queue := f.queue[1 := q1][2 := q2])))
  {
    hide IsHistory, DocKeys, Revnos, StopsForPreReqs, RevisionsRead, Views;
    Keys();
    Plans(|log1|, |log2|);
    Reads(q1, log1, q2, log2, f.queue);
    var here := Put(w, r, Runner(copies, Advancing(t)), f);
    run' := DoRescan(PROGRAM, run, here, r, t, copies[t]);
    PutTwice(w, r, Runner(copies, Advancing(t)), f);
  }

  /** Nothing of the first transaction was in document 2 yet when the second runner looked. */
  lemma NotFoundYet(f: Flusher, run: Runner)
    requires run.at == Advancing(1) && 1 in run.copies && run.copies[1] == Saved(5) && FIRST !in View(f.queue, 2)
    ensures !StopsForPreReqs(PROGRAM, f, run)
  {
    Keys();
    hide DocKeys;
  }

  /** Its rescan finds the second transaction ahead in document 2. */
  lemma {:induction false} SecondAsks() returns (run: seq<World>)
    ensures Reached(PROGRAM, run, Put(BothWaiting(), 2, Runner(COPIES, Idle),
      Flusher(2, VIEWS, Recursing([Frame(2, [2], [SECOND]), Frame(1, [1, 2], [])]), None, [])))
  {
    hide IsHistory, StopsForPreReqs, Continue;
    run := SecondLoads();
    var w := BothWaiting();
    var f := Flusher(2, map[1 := BOTH, 2 := [SECOND]], Entering([Frame(2, [2], [SECOND])], 1), Some(Call(1, None)), []);
    NotFoundYet(f, Runner(COPIES, Advancing(1)));
    run := RescansBoth(run, w, 2, 1, COPIES, f, BOTH, [], CROSS, []);
    var f1 := f.(queue := VIEWS);
    assert f.queue[1 := BOTH][2 := CROSS] == VIEWS;
    var r2 := Runner(COPIES, Asserting(1, Plan(1, 0, 0)));
    Stops(f1, r2, Saved(5), 2, 0);
    run := DoWait(PROGRAM, run, Put(w, 2, r2, f1), 2);
    PutTwice(w, 2, r2, f1);
    AsksFor(f1, [Frame(2, [2], [SECOND])], 1);
    assert [Frame(2, [2], [SECOND])] + [Frame(1, [1, 2], [])] == [Frame(2, [2], [SECOND]), Frame(1, [1, 2], [])];
  }

  lemma AsksFor(f: Flusher, stack: seq<Frame>, t: Id)
    requires f.task == Entering(stack, t) && (t == 1 || t == 2)
    ensures Continue(PROGRAM, f, true) == f.(call := None, task := Recursing(stack + [Frame(t, [1, 2], [])]))
  {
    Keys();
    hide DocKeys;
  }

  /** It has seen all there is, and forces the second transaction, which comes out first. */
  lemma {:induction false} SecondFlushes() returns (run: seq<World>)
    ensures Reached(PROGRAM, run, Put(BothWaiting(), 2, Runner(COPIES, Advancing(2)),
      Flusher(2, VIEWS, Flushing([Call(2, Some(map[])), Call(1, Some(map[]))]), Some(Call(2, Some(map[]))), [])))
  {
    hide IsHistory, IsQueueGraph, CallsFor;
    run := SecondAsks();
    var w, idle := BothWaiting(), Runner(COPIES, Idle);
    var stack := [Frame(2, [2], [SECOND])];
    var f := Flusher(2, VIEWS, Recursing(stack + [Frame(1, [1, 2], [])]), None, []);
    assert stack + [Frame(1, [1, 2], [])] == [Frame(2, [2], [SECOND]), Frame(1, [1, 2], [])];
    run := LooksThrough(run, w, 2, COPIES, f, stack, 1);
    assert [] + stack == stack;
    run := LooksThroughLast(run, w, 2, COPIES, f.(task := Recursing(stack)), [], 2, [SECOND]);
    assert Nonces(COPIES) == SEEN;
    run := Flushes(run, w, 2, COPIES, f.(task := Recursing([])));
  }

  /** With both queues in sight, whoever flushes forces the second transaction first. */
  lemma {:induction false} Flushes(run: seq<World>, w: World, r: RunnerId, copies: map<Id, Txn>, f: Flusher)
    returns (run': seq<World>)
    requires (f.goal == 1 || f.goal == 2) && f.queue == VIEWS && f.task == Recursing([]) && f.call == None
    requires Nonces(copies) == SEEN && f.goal in copies && copies[f.goal] == Saved(f.goal + 4)
    requires Reached(PROGRAM, run, Put(w, r, Runner(copies, Idle), f))
    ensures
      var calls := [Call(2, Some(map[])), Call(1, Some(map[]))];
      Reached(PROGRAM, run', Put(w, r, Runner(copies, Advancing(2)),
                                 f.(task := Flushing(calls), call := Some(calls[0]))))
  {
    hide IsHistory, IsQueueGraph, CallsFor;
    var idle, calls := Runner(copies, Idle), [Call(2, Some(map[])), Call(1, Some(map[]))];
    CycleCalls(f.goal);
    run' := DoFlush(PROGRAM, run, Put(w, r, idle, f), r, CYCLE);
    PutTwice(w, r, idle, f);
    assert 2 in Nonces(copies);
    run' := DoBegin(PROGRAM, run', Put(w, r, idle, f.(task := Flushing(calls))), r);
    PutTwice(w, r, idle, f.(task := Flushing(calls)));
  }

  // ---------------------------------------------------------------------------------------

  function Begun(): Txn { Txn(Applying, 6, [0, 0]) }

  function Forcing(): Flusher {
    Flusher(2, VIEWS, Flushing([Call(2, Some(map[])), Call(1, Some(map[]))]), Some(Call(2, Some(map[]))), [])
  }

  /** The second runner has begun to apply the second transaction. */
  function SecondBegun(): World {
    Scene(EMPTY, Saved(5), Begun(), Docs(BOTH, [], CROSS, []),
          Runner(map[1 := Saved(5)], Idle), Waiting(1, [FIRST], CROSS),
          Runner(map[1 := Saved(5), 2 := Begun()], Advancing(2)), Forcing())
  }

  lemma NeverStops(f: Flusher, run: Runner)
    requires f.task.Flushing? && !run.at.Idle? && run.at.t in run.copies
    ensures !StopsForPreReqs(PROGRAM, f, run)
  {
  }

  lemma {:induction false} SecondBegins() returns (run: seq<World>)
    ensures Reached(PROGRAM, run, SecondBegun())
  {
    hide IsHistory, StopsForPreReqs;
    run := SecondFlushes();
    var w, f := BothWaiting(), Forcing();
    NeverStops(f, Runner(COPIES, Advancing(2)));
    run := RescansBoth(run, w, 2, 2, COPIES, f, BOTH, [], CROSS, []);
    assert VIEWS[1 := BOTH][2 := CROSS] == VIEWS;
    var r2 := Runner(COPIES, Asserting(2, [0, 0]));
    NeverStops(f, r2);
    run := DoCheckpoint(PROGRAM, run, Put(w, 2, r2, f), 2, 2, [0, 0], Saved(6));
    assert COPIES[2 := Begun()] == map[1 := Saved(5), 2 := Begun()];
    SameWorld(run[|run| - 1], SecondBegun());
  }
}
