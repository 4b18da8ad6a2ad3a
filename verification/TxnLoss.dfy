/**
 A history of flushers that loses an update, with nobody crashing and every pull made by a flush.
 The first transaction changes document 1 twice. Its runner has read the queue of document 1 before
 the second transaction came into it, and loads that one only when it has been applied, so the
 graph does not show that the first one is ahead there. When its flush comes to the first, it may
 pull the second, reads the queue again, finds the second one's entry behind that of the first, and
 with the first change pulls both: the second change no longer finds the entry it asks for.
 */
module TxnLoss {
  import opened TxnGraph
  import opened Tokens
  import opened TxnProtocol
  import opened TxnSafety
  import opened TxnQueues
  import opened TxnTries
  import opened FlushOrder
  import opened FlushWalk
  import opened TxnFlusher
  import opened TxnSteps
  import opened TxnCycle
  import opened TxnStory

  const DONE := Txn(Applied, 6, [0, 0])

  const L1 := [Effect(2, 0)]
  const L2 := [Effect(2, 1)]

  function Middle(y: Txn, docs: map<DocKey, Doc>, r2: Runner, f2: Flusher): World {
    Scene(EMPTY, Saved(5), y, docs, Runner(map[1 := Saved(5)], Idle), Waiting(1, [FIRST], CROSS), r2, f2)
  }

  const BEGUN: map<Id, Txn> := map[1 := Saved(5), 2 := Begun()]

  lemma {:induction false} SecondStarts() returns (run: seq<World>)
    ensures Reached(PROGRAM, run,
      Middle(Begun(), Docs(BOTH, [], CROSS, []), Runner(BEGUN, ApplyingOp(2, 0)), Forcing()))
  {
    hide IsHistory;
    run := SecondBegins();
    run := DoStartApply(PROGRAM, run, SecondBegun(), 2, 2, Begun());
    SameWorld(run[|run| - 1], Middle(Begun(), Docs(BOTH, [], CROSS, []), Runner(BEGUN, ApplyingOp(2, 0)), Forcing()));
  }

  /** The second runner applies the second transaction. */
  lemma {:induction false} SecondUpdates() returns (run: seq<World>)
    ensures Reached(PROGRAM, run,
      Middle(Begun(), Docs(BOTH, L1, CROSS, []), Runner(BEGUN, ApplyingOp(2, 1)), Forcing()))
  {
    hide IsHistory, Pulled, Without, Kept;
    Keys();
    run := SecondStarts();
    PullsNothing(BOTH, map[], Kept(ONCE, 0, SECOND));
    WithoutNothing(BOTH);
    run := DoUpdate(PROGRAM, run,
      Middle(Begun(), Docs(BOTH, [], CROSS, []), Runner(BEGUN, ApplyingOp(2, 0)), Forcing()),
      2, 2, 0, Begun());
    assert [] + L1 == L1;
    SetDocs(BOTH, [], CROSS, [], BOTH, L1);
    SameWorld(run[|run| - 1], Middle(Begun(), Docs(BOTH, L1, CROSS, []), Runner(BEGUN, ApplyingOp(2, 1)), Forcing()));
  }

  lemma {:induction false} SecondGoesOn() returns (run: seq<World>)
    ensures Reached(PROGRAM, run,
      Middle(Begun(), Docs(BOTH, L1, CROSS, L2), Runner(BEGUN, ApplyingOp(2, 2)), Forcing()))
  {
    hide IsHistory, Pulled, Without, Kept;
    Keys();
    run := SecondUpdates();
    PullsNothing(CROSS, map[], Kept(ONCE, 1, SECOND));
    WithoutNothing(CROSS);
    run := DoUpdate(PROGRAM, run,
      Middle(Begun(), Docs(BOTH, L1, CROSS, []), Runner(BEGUN, ApplyingOp(2, 1)), Forcing()),
      2, 2, 1, Begun());
    assert [] + L2 == L2;
    SetDocs(BOTH, L1, CROSS, [], CROSS, L2);
    SameWorld(run[|run| - 1], Middle(Begun(), Docs(BOTH, L1, CROSS, L2), Runner(BEGUN, ApplyingOp(2, 2)), Forcing()));
  }

  const COPIED: map<Id, Txn> := map[1 := Saved(5), 2 := DONE]

  /** The second transaction is applied; its runner takes a rest. */
  function SecondDone(): World {
    Middle(DONE, Docs(BOTH, L1, CROSS, L2), Runner(COPIED, Idle),
           Forcing().(call := None, task := Flushing([Call(1, Some(map[]))])))
  }

  lemma {:induction false} SecondApplies() returns (run: seq<World>)
    ensures Reached(PROGRAM, run, SecondDone())
  {
    hide IsHistory;
    Keys();
    run := SecondGoesOn();
    var w := Middle(Begun(), Docs(BOTH, L1, CROSS, L2), Runner(BEGUN, ApplyingOp(2, 2)), Forcing());
    run := DoApplied(PROGRAM, run, w, 2, 2, 2, Begun());
    assert BEGUN[2 := DONE] == COPIED;
    assert [Call(2, Some(map[])), Call(1, Some(map[]))][1..] == [Call(1, Some(map[]))];
    SameWorld(run[|run| - 1], SecondDone());
  }

  /** The first runner goes on with the queues it has read at the start. */
  lemma {:induction false} FirstLoads() returns (run: seq<World>)
    ensures Reached(PROGRAM, run, Put(SecondDone(), 1, Runner(COPIED, Advancing(2)),
      Flusher(1, map[1 := [FIRST], 2 := CROSS], Entering([Frame(1, [], [FIRST])], 2), Some(Call(2, None)), [])))
  {
    hide IsHistory;
    run := SecondApplies();
    var w, r1, f := SecondDone(), Runner(map[1 := Saved(5)], Idle), Waiting(1, [FIRST], CROSS);
    var f1 := f.(task := Recursing([Frame(1, [2], [FIRST])]));
    var f2 := f.(task := Recursing([Frame(1, [], CROSS)]));
    assert [1, 2][1..] == [2] && [2][1..] == [];
    assert f.task.stack[..0] == [] && f1.task.stack[..0] == [] && f2.task.stack[..0] == [];
    assert [] + [Frame(1, [2], [FIRST])] == [Frame(1, [2], [FIRST])] &&
      [] + [Frame(1, [], CROSS)] == [Frame(1, [], CROSS)];
    run := DoNextDoc(PROGRAM, run, w, 1);
    run := DoNextDoc(PROGRAM, run, Put(w, 1, r1, f1), 1);
    PutTwice(w, 1, r1, f1);
    run := DoLoadNext(PROGRAM, run, Put(w, 1, r1, f2), 1, 0);
    PutTwice(w, 1, r1, f2);
    assert CROSS[..0] == [] && CROSS[1..] == [FIRST] && [] + [Frame(1, [], [FIRST])] == [Frame(1, [], [FIRST])];
    assert map[1 := Saved(5)][2 := DONE] == COPIED;
  }

  function Calls2(): seq<Call> { [Call(2, Some(map[2 := 6])), Call(1, Some(map[2 := 6, 1 := 5]))] }

  /** Its flush knows only that the second transaction is ahead of the first. */
  lemma {:induction false} FirstFlushes() returns (run: seq<World>)
    ensures Reached(PROGRAM, run, Put(SecondDone(), 1, Runner(COPIED, Advancing(2)),
      Flusher(1, map[1 := [FIRST], 2 := CROSS], Flushing(Calls2()), Some(Calls2()[0]), [])))
  {
    hide IsHistory, IsQueueGraph, CallsFor;
    run := FirstLoads();
    var w, queue := SecondDone(), map[1 := [FIRST], 2 := CROSS];
    var f := Flusher(1, queue, Entering([Frame(1, [], [FIRST])], 2), Some(Call(2, None)), []);
    run := DoReturn(PROGRAM, run, Put(w, 1, Runner(COPIED, Advancing(2)), f), 1);
    PutTwice(w, 1, Runner(COPIED, Advancing(2)), f);
    var f1 := Flusher(1, queue, Recursing([Frame(1, [], [FIRST])]), None, []);
    var idle := Runner(COPIED, Idle);
    run := DoLeave(PROGRAM, run, Put(w, 1, idle, f1), 1);
    PutTwice(w, 1, idle, f1);
    assert f1.task.stack[..0] == [];
    var f2 := f1.(task := Recursing([]));
    assert Nonces(COPIED) == SEEN;
    AheadCalls();
    run := DoFlush(PROGRAM, run, Put(w, 1, idle, f2), 1, AHEAD);
    PutTwice(w, 1, idle, f2);
    var f3 := f2.(task := Flushing(Calls2()));
    run := DoBegin(PROGRAM, run, Put(w, 1, idle, f3), 1);
    PutTwice(w, 1, idle, f3);
  }

  function Pulling(): Flusher {
    Flusher(1, VIEWS, Flushing([Calls2()[1]]), Some(Calls2()[1]), [])
  }

  /** The first transaction is forced, and its rescan reads both queues again. */
  lemma {:induction false} FirstPlans() returns (run: seq<World>)
    ensures Reached(PROGRAM, run, Put(SecondDone(), 1, Runner(COPIED, Asserting(1, [1, 1, 2])), Pulling()))
  {
    hide IsHistory, StopsForPreReqs;
    run := FirstFlushes();
    var w, queue := SecondDone(), map[1 := [FIRST], 2 := CROSS];
    var f := Flusher(1, queue, Flushing(Calls2()), Some(Calls2()[0]), []);
    run := DoReturn(PROGRAM, run, Put(w, 1, Runner(COPIED, Advancing(2)), f), 1);
    PutTwice(w, 1, Runner(COPIED, Advancing(2)), f);
    assert Calls2()[1..] == [Calls2()[1]];
    var f1 := Flusher(1, queue, Flushing([Calls2()[1]]), None, []);
    run := DoBegin(PROGRAM, run, Put(w, 1, Runner(COPIED, Idle), f1), 1);
    PutTwice(w, 1, Runner(COPIED, Idle), f1);
    var f2 := f1.(call := Some(Calls2()[1]));
    NeverStops(f2, Runner(COPIED, Advancing(1)));
    run := RescansBoth(run, w, 1, 1, COPIED, f2, BOTH, L1, CROSS, L2);
    assert queue[1 := BOTH][2 := CROSS] == VIEWS;
  }

  const GOING := Txn(Applying, 5, [1, 1, 2])

  const STARTED: map<Id, Txn> := map[1 := GOING, 2 := DONE]

  function Ending(x: Txn, docs: map<DocKey, Doc>, r1: Runner, f1: Flusher): World {
    var w := SecondDone();
    Put(World(System(map[1 := x, 2 := DONE], docs, w.s.runners), w.flushers), 1, r1, f1)
  }

  lemma {:induction false} FirstBegins() returns (run: seq<World>)
    ensures Reached(PROGRAM, run,
      Ending(GOING, Docs(BOTH, L1, CROSS, L2), Runner(STARTED, ApplyingOp(1, 0)), Pulling()))
  {
    hide IsHistory, StopsForPreReqs;
    run := FirstPlans();
    var w, f := SecondDone(), Pulling();
    var r1 := Runner(COPIED, Asserting(1, [1, 1, 2]));
    NeverStops(f, r1);
    run := DoCheckpoint(PROGRAM, run, Put(w, 1, r1, f), 1, 1, [1, 1, 2], Saved(5));
    assert COPIED[1 := GOING] == STARTED;
    var w1 := Ending(GOING, Docs(BOTH, L1, CROSS, L2), Runner(STARTED, Advancing(1)), f);
    SameWorld(run[|run| - 1], w1);
    run := DoStartApply(PROGRAM, run, w1, 1, 1, GOING);
    SameWorld(run[|run| - 1], Ending(GOING, Docs(BOTH, L1, CROSS, L2), Runner(STARTED, ApplyingOp(1, 0)), f));
  }

  /** What its first change of document 1 pulls, the entry it is to keep included. */
  lemma PullsBoth()
    ensures Kept(TWICE, 0, FIRST) == Some(FIRST) && Kept(TWICE, 1, FIRST) == None
    ensures Pulled(BOTH, map[2 := 6, 1 := 5], Some(FIRST)) == BOTH
    ensures Pulled(CROSS, map[2 := 6, 1 := 5], None) == CROSS
    ensures Without(BOTH, BOTH) == [] && Without(CROSS, CROSS) == []
  {
    assert TWICE[2] == Op(TWICE[0].doc, true);
    assert BOTH[1..] == [SECOND] && [SECOND][1..] == [] && CROSS[1..] == [FIRST] && [FIRST][1..] == [];
    assert Without([SECOND], BOTH) == Without([], BOTH) && Without([FIRST], CROSS) == Without([], CROSS);
  }

  const M1 := [Effect(2, 0), Effect(1, 0)]
  const M2 := [Effect(2, 1), Effect(1, 1)]

  lemma {:induction false} FirstUpdates() returns (run: seq<World>)
    ensures Reached(PROGRAM, run, Ending(GOING, Docs([], M1, CROSS, L2), Runner(STARTED, ApplyingOp(1, 1)), Pulling()))
  {
    hide SecondDone, IsHistory, Pulled, Without, Kept;
    Keys();
    run := FirstBegins();
    PullsBoth();
    var w0 := Ending(GOING, Docs(BOTH, L1, CROSS, L2), Runner(STARTED, ApplyingOp(1, 0)), Pulling());
    run := DoUpdate(PROGRAM, run, w0, 1, 1, 0, GOING);
    assert L1 + [Effect(1, 0)] == M1;
    SetDocs(BOTH, L1, CROSS, L2, [], M1);
    SameWorld(run[|run| - 1], Ending(GOING, Docs([], M1, CROSS, L2), Runner(STARTED, ApplyingOp(1, 1)), Pulling()));
  }

  lemma {:induction false} FirstGoesOn() returns (run: seq<World>)
    ensures Reached(PROGRAM, run, Ending(GOING, Docs([], M1, [], M2), Runner(STARTED, ApplyingOp(1, 2)), Pulling()))
  {
    hide SecondDone, IsHistory, Pulled, Without, Kept;
    Keys();
    run := FirstUpdates();
    PullsBoth();
    var w1 := Ending(GOING, Docs([], M1, CROSS, L2), Runner(STARTED, ApplyingOp(1, 1)), Pulling());
    run := DoUpdate(PROGRAM, run, w1, 1, 1, 1, GOING);
    assert L2 + [Effect(1, 1)] == M2;
    SetDocs([], M1, CROSS, L2, [], M2);
    SameWorld(run[|run| - 1], Ending(GOING, Docs([], M1, [], M2), Runner(STARTED, ApplyingOp(1, 2)), Pulling()));
  }

  /** The second change of document 1 misses, and the transaction counts as applied. */
  lemma {:induction false} FirstApplies() returns (run: seq<World>)
    ensures IsHistory(PROGRAM, run) && run != []
    ensures
      var s := run[|run| - 1].s;
      s.txns == map[1 := Txn(Applied, 5, [1, 1, 2]), 2 := DONE] && s.docs == Docs([], M1, [], M2)
  {
    hide IsHistory;
    Keys();
    run := FirstGoesOn();
    var w, f := Ending(GOING, Docs([], M1, [], M2), Runner(STARTED, ApplyingOp(1, 2)), Pulling()), Pulling();
    run := DoMiss(PROGRAM, run, w, 1, 1, 2, GOING);
    var w1 := Ending(GOING, Docs([], M1, [], M2), Runner(STARTED, ApplyingOp(1, 3)), f);
    SameWorld(run[|run| - 1], w1);
    run := DoApplied(PROGRAM, run, w1, 1, 1, 3, GOING);
    assert w1.s.txns[1 := Txn(Applied, 5, [1, 1, 2])] == map[1 := Txn(Applied, 5, [1, 1, 2]), 2 := DONE];
  }

  /** Nobody has planned the revision of its second change of document 1. */
  lemma NobodyElse(s: System)
    requires s.txns == map[1 := Txn(Applied, 5, [1, 1, 2]), 2 := DONE]
    ensures forall u, l :: !Clash(PROGRAM, s, 1, 2, u, l)
  {
    Keys();
  }

  /** The change was tried without its entry; no other transaction has taken its revision. */
  lemma {:induction false} UpdateIsLost() returns (run: seq<World>)
    ensures IsHistory(PROGRAM, run) && IsRun(PROGRAM, Systems(run)) && !IsCarefulRun(PROGRAM, Systems(run))
    ensures
      var s := run[|run| - 1].s;
      && 1 in s.txns && s.txns[1].state == Applied && 1 in s.docs
      && PROGRAM[1] == [Op(1, true), Op(2, true), Op(1, true)] && |s.txns[1].revnos| == 3
      && Effect(1, 2) !in s.docs[1].log && WasGone(PROGRAM, Systems(run), |run| - 1, 1, 2)
      && !Overtaken(PROGRAM, s, 1, 2)
  {
    Keys();
    run := FirstApplies();
    HistoryIsRun(PROGRAM, run);
    var plain := Systems(run);
    var s, n := plain[|plain| - 1], |plain| - 1;
    NobodyElse(s);
    hide IsHistory, IsRun, WasGone, IsCarefulRun, Clash;
    assert s.docs == Docs([], M1, [], M2);
    ExistedFirst(PROGRAM, plain, n);
    MissingIff(PROGRAM, plain, n, 1, 2);
    assert Effect(1, 2) !in M1;
    if IsCarefulRun(PROGRAM, plain) { AppliedTookEffect(PROGRAM, plain, n, 1, 2); }
  }
}
