/**
 A history of flushers that ends in the panic of a rescan. Two transactions wait for each other.
 The runner of the second forces it, as the sort of the cycle demands, and stops right after its
 checkpoint. Another runner resumes the first transaction: it rescans it, and with it reads both
 queues; it loads the second, finds it applying, and applies it alone. That pulls everything up to
 the second transaction's entries, the entry of the prepared first one in document 1 included.
 When the flush comes to the first transaction, its entry is gone.
 */
module TxnPanic {
  import opened TxnGraph
  import opened Tokens
  import opened TxnProtocol
  import opened TxnQueues
  import opened FlushOrder
  import opened FlushWalk
  import opened TxnFlusher
  import opened TxnSteps
  import opened TxnCycle
  import opened TxnStory

  /** Runner 3 resumes the first transaction in the world that runner 2 has left. */
  function Resumed(): Flusher { InAdvance(NewFlusher(1), 1) }

  lemma {:induction false} Resumes() returns (run: seq<World>)
    ensures Reached(PROGRAM, run, Put(SecondBegun(), 3, Runner(map[1 := Saved(5)], Idle), Waiting(1, BOTH, CROSS)))
  {
    hide IsHistory, StopsForPreReqs, Continue;
    run := SecondBegins();
    var w, copies, f := SecondBegun(), map[1 := Saved(5)], Resumed();
    run := DoResume(PROGRAM, run, w, 3, 1);
    NotFoundYet(f, Runner(copies, Advancing(1)));
    run := RescansBoth(run, w, 3, 1, copies, f, BOTH, [], CROSS, []);
    var f1, r3 := f.(queue := VIEWS), Runner(copies, Asserting(1, Plan(1, 0, 0)));
    assert map[][1 := BOTH][2 := CROSS] == VIEWS;
    Stops(f1, r3, Saved(5), 2, 0);
    run := DoWait(PROGRAM, run, Put(w, 3, r3, f1), 3);
    PutTwice(w, 3, r3, f1);
    AsksFor(f1, [], 1);
    assert [] + [Frame(1, [1, 2], [])] == [Frame(1, [1, 2], [])];
  }

  const LOADED: map<Id, Txn> := map[1 := Saved(5), 2 := Begun()]

  function Applier(): Flusher {
    Flusher(1, VIEWS, Entering([Frame(1, [2], [])], 2), Some(Call(2, None)), [])
  }

  /** It loads the second transaction, which is applying. */
  lemma {:induction false} Loads() returns (run: seq<World>)
    ensures Reached(PROGRAM, run, Put(SecondBegun(), 3, Runner(LOADED, ApplyingOp(2, 0)), Applier()))
  {
    hide IsHistory;
    run := Resumes();
    var w, r3, f := SecondBegun(), Runner(map[1 := Saved(5)], Idle), Waiting(1, BOTH, CROSS);
    var f1 := f.(task := Recursing([Frame(1, [2], BOTH)]));
    run := DoNextDoc(PROGRAM, run, Put(w, 3, r3, f), 3);
    PutTwice(w, 3, r3, f);
    assert [] + [Frame(1, [2], BOTH)] == [Frame(1, [2], BOTH)] && [1, 2][1..] == [2];
    assert f.task.stack[..0] == [] && f1.task.stack[..0] == [];
    run := DoLoadNext(PROGRAM, run, Put(w, 3, r3, f1), 3, 1);
    PutTwice(w, 3, r3, f1);
    assert BOTH[..1] == [FIRST] && BOTH[2..] == [] && [] + [Frame(1, [2], [])] == [Frame(1, [2], [])];
    assert map[1 := Saved(5)][2 := Begun()] == LOADED;
    run := DoStartApply(PROGRAM, run, Put(w, 3, Runner(LOADED, Advancing(2)), Applier()), 3, 2, Begun());
    PutTwice(w, 3, Runner(LOADED, Advancing(2)), Applier());
  }

  /** What applying the second transaction alone pulls from the queues runner 3 has read. */
  lemma PullsAlone()
    ensures Kept(ONCE, 0, SECOND) == None && Kept(ONCE, 1, SECOND) == None
    ensures Pulled(BOTH, map[2 := 6], None) == BOTH
    ensures Pulled(CROSS, map[2 := 6], None) == [SECOND]
    ensures Without(BOTH, BOTH) == [] && Without(CROSS, [SECOND]) == [FIRST]
  {
    assert CROSS[..1] == [SECOND];
    assert BOTH[1..] == [SECOND] && [SECOND][1..] == [] && CROSS[1..] == [FIRST] && [FIRST][1..] == [];
    assert Without([SECOND], BOTH) == Without([], BOTH) &&
      Without([FIRST], [SECOND]) == [FIRST] + Without([], [SECOND]);
  }

  /** The documents change in the world that runner 2 has left. */
  function With(y: Txn, docs: map<DocKey, Doc>): World {
    var w := SecondBegun();
    World(w.s.(txns := map[1 := Saved(5), 2 := y], docs := docs), w.flushers)
  }

  lemma {:induction false} AppliesOne() returns (run: seq<World>)
    ensures Reached(PROGRAM, run, Put(With(Begun(), Docs([], [Effect(2, 0)], CROSS, [])), 3,
                                      Runner(LOADED, ApplyingOp(2, 1)), Applier()))
  {
    hide IsHistory, Pulled, Without, Kept;
    Keys();
    run := Loads();
    PullsAlone();
    var w, f, l1 := SecondBegun(), Applier(), [Effect(2, 0)];
    run := DoUpdate(PROGRAM, run, Put(w, 3, Runner(LOADED, ApplyingOp(2, 0)), f), 3, 2, 0, Begun());
    assert [] + l1 == l1;
    SetDocs(BOTH, [], CROSS, [], [], l1);
    SameWorld(run[|run| - 1], Put(With(Begun(), Docs([], l1, CROSS, [])), 3, Runner(LOADED, ApplyingOp(2, 1)), f));
  }

  lemma {:induction false} Applies() returns (run: seq<World>)
    ensures Reached(PROGRAM, run, Put(With(Begun(), Docs([], [Effect(2, 0)], [FIRST], [Effect(2, 1)])), 3,
                                      Runner(LOADED, ApplyingOp(2, 2)), Applier()))
  {
    hide SecondBegun, IsHistory, Pulled, Without, Kept;
    Keys();
    run := AppliesOne();
    PullsAlone();
    var f, l1, l2 := Applier(), [Effect(2, 0)], [Effect(2, 1)];
    run := DoUpdate(PROGRAM, run, Put(With(Begun(), Docs([], l1, CROSS, [])), 3, Runner(LOADED, ApplyingOp(2, 1)), f),
                    3, 2, 1, Begun());
    assert [] + l2 == l2;
    SetDocs([], l1, CROSS, [], [FIRST], l2);
    SameWorld(run[|run| - 1], Put(With(Begun(), Docs([], l1, [FIRST], l2)), 3, Runner(LOADED, ApplyingOp(2, 2)), f));
  }

  const DONE := Txn(Applied, 6, [0, 0])

  const COPIED: map<Id, Txn> := map[1 := Saved(5), 2 := DONE]

  /** The entry of the first transaction is gone from document 1. */
  function Pulled1(): World { With(DONE, Docs([], [Effect(2, 0)], [FIRST], [Effect(2, 1)])) }

  lemma {:induction false} IsApplied() returns (run: seq<World>)
    ensures Reached(PROGRAM, run, Put(Pulled1(), 3, Runner(COPIED, Idle),
      Flusher(1, VIEWS, Recursing([Frame(1, [2], [])]), None, [])))
  {
    hide SecondBegun, IsHistory;
    Keys();
    run := Applies();
    var w0 := With(Begun(), Docs([], [Effect(2, 0)], [FIRST], [Effect(2, 1)]));
    run := DoApplied(PROGRAM, run, Put(w0, 3, Runner(LOADED, ApplyingOp(2, 2)), Applier()), 3, 2, 2, Begun());
    assert w0.s.txns[2 := DONE] == Pulled1().s.txns && LOADED[2 := DONE] == COPIED;
    SameWorld(run[|run| - 1],
      Put(Pulled1(), 3, Runner(COPIED, Idle), Flusher(1, VIEWS, Recursing([Frame(1, [2], [])]), None, [])));
  }

  lemma {:induction false} Flushed() returns (run: seq<World>)
    ensures
      var calls := [Call(2, Some(map[])), Call(1, Some(map[]))];
      Reached(PROGRAM, run, Put(Pulled1(), 3, Runner(COPIED, Advancing(2)),
        Flusher(1, VIEWS, Flushing(calls), Some(calls[0]), [])))
  {
    hide With, IsHistory;
    run := IsApplied();
    var w, f := Pulled1(), Flusher(1, VIEWS, Recursing([Frame(1, [2], [])]), None, []);
    assert [] + [Frame(1, [2], [])] == [Frame(1, [2], [])];
    run := LooksThroughLast(run, w, 3, COPIED, f, [], 1, []);
    assert Nonces(COPIED) == SEEN;
    run := Flushes(run, w, 3, COPIED, f.(task := Recursing([])));
  }

  /** The second transaction is done, and the first is forced. */
  lemma {:induction false} Forces() returns (run: seq<World>)
    ensures Reached(PROGRAM, run, Put(Pulled1(), 3, Runner(COPIED, Advancing(1)), Last()))
  {
    hide With, IsHistory;
    run := Flushed();
    var calls := [Call(2, Some(map[])), Call(1, Some(map[]))];
    var w, f := Pulled1(), Flusher(1, VIEWS, Flushing(calls), Some(calls[0]), []);
    run := DoReturn(PROGRAM, run, Put(w, 3, Runner(COPIED, Advancing(2)), f), 3);
    PutTwice(w, 3, Runner(COPIED, Advancing(2)), f);
    var f1 := Flusher(1, VIEWS, Flushing([calls[1]]), None, []);
    assert calls[1..] == [calls[1]];
    run := DoBegin(PROGRAM, run, Put(w, 3, Runner(COPIED, Idle), f1), 3);
    PutTwice(w, 3, Runner(COPIED, Idle), f1);
  }

  function Last(): Flusher { Flusher(1, VIEWS, Flushing([Call(1, Some(map[]))]), Some(Call(1, Some(map[]))), []) }

  /** Its rescan misses its entry. */
  lemma {:induction false} Misses() returns (run: seq<World>)
    ensures Reached(PROGRAM, run, Put(Pulled1(), 3, Runner(COPIED, TokenMissing(1)), Last().(queue := VIEWS[1 := []])))
  {
    hide SecondBegun, IsHistory, StopsForPreReqs, DocKeys;
    Keys();
    run := Forces();
    NeverStops(Last(), Runner(COPIED, Advancing(1)));
    DocKeysCover(TWICE);
    run := DoAct(PROGRAM, run, Put(Pulled1(), 3, Runner(COPIED, Advancing(1)), Last()), 3, StartRescan([1, 2]));
    SameWorld(run[|run| - 1], Put(Pulled1(), 3, Runner(COPIED, Rescanning(1, [1, 2], map[])), Last()));
    run := MissesNow(run, Last());
  }

  lemma {:induction false} MissesNow(run: seq<World>, f: Flusher) returns (run': seq<World>)
    requires f == Last()
    requires Reached(PROGRAM, run, Put(Pulled1(), 3, Runner(COPIED, Rescanning(1, [1, 2], map[])), f))
    ensures Reached(PROGRAM, run', Put(Pulled1(), 3, Runner(COPIED, TokenMissing(1)), f.(queue := VIEWS[1 := []])))
  {
    hide IsHistory, StopsForPreReqs, DocKeys;
    var w := Put(Pulled1(), 3, Runner(COPIED, Rescanning(1, [1, 2], map[])), f);
    run' := DoAct(PROGRAM, run, w, 3, RescanDoc);
    SameWorld(run'[|run'| - 1], Put(Pulled1(), 3, Runner(COPIED, TokenMissing(1)), f.(queue := VIEWS[1 := []])));
  }

  /** A rescan misses its entry, and its transaction is still prepared: the flusher panics. */
  lemma {:induction false} RescanPanicReached() returns (run: seq<World>)
    ensures IsHistory(PROGRAM, run) && RescanPanics(run[|run| - 1].s, 3)
    ensures IsRun(PROGRAM, Systems(run)) && !IsCarefulRun(PROGRAM, Systems(run))
  {
    run := Misses();
    var plain := Systems(run);
    HistoryIsRun(PROGRAM, run);
    hide IsHistory, IsRun, IsCarefulRun;
    if IsCarefulRun(PROGRAM, plain) { CarefulRescanNeverPanics(PROGRAM, plain, |plain| - 1, 3); }
  }
}
