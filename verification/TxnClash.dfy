/**
 A history of flushers in which two runners take the transactions of one cycle in different orders,
 and a transaction is applied without any of its updates. Transaction 0 is ahead of the cycle of 1
 and 2. Runner 3 reads the queues before 0 is applied, and applies it; its sort enters the cycle
 from 0, at 2, so 1 comes out first. Runner 4 reads the queues after that; its sort enters the
 cycle at 1, so 2 comes out first. Each forces its own choice, and both plan the same revisions.
 */
module TxnClash {
  import opened TxnGraph
  import opened SortedIds
  import opened TarjanSpec
  import opened Tarjan
  import opened TarjanOrder
  import opened Tokens
  import opened TxnProtocol
  import opened TxnSafety
  import opened TxnQueues
  import opened TxnTries
  import opened FlushOrder
  import opened FlushWalk
  import opened FlushAgree
  import opened TxnFlusher
  import opened TxnSteps
  import opened TxnCycle
  import opened TxnStory

  const LEAD := [LEADER, SECOND, FIRST]

  // ---------------------------------------------------------------------------------------
  // The leader is prepared

  function Base(x: Txn, q2: seq<Token>, r: Runner, f: Flusher): World {
    World(System(map[0 := x], Docs([], [], q2, []), map[0 := r]), map[0 := f])
  }

  function Leading(): World {
    Base(Saved(4), [LEADER], Runner(map[0 := Saved(4)], Asserting(0, [0])),
         InAdvance(NewFlusher(0), 0).(queue := map[2 := [LEADER]]))
  }

  lemma LoneKeys()
    ensures DocKeys(LONE) == [2] && PROGRAM[0] == LONE && |LONE| == 1
    ensures forall v: int :: Revnos(LONE, map[2 := v]) == [v]
  {
    assert LONE[0].doc == 2;
    AscendingUnique(DocKeys(LONE), [2]);
    forall v: int ensures Revnos(LONE, map[2 := v]) == [v] {
      assert LONE[1..] == [];
      assert RevnosFor(LONE, map[2 := v]) == [v] + RevnosFor([], map[2 := v][2 := v + 1]);
    }
  }

  lemma {:induction false} LeaderAdds() returns (run: seq<World>)
    ensures Reached(PROGRAM, run, Base(NEW, [LEADER], Runner(map[0 := NEW], AddingTokens(0, 4, [], map[2 := 0])),
      InAdvance(NewFlusher(0), 0).(queue := map[2 := [LEADER]])))
  {
    hide IsHistory, DocKeys, First;
    LoneKeys();
    run := [EMPTY];
    StartsEmpty();
    IsFirst(EMPTY);
    var copies, f := map[0 := NEW], InAdvance(NewFlusher(0), 0);
    run := DoRun(PROGRAM, run, EMPTY, 0, 0);
    var w1 := Base(NEW, [], Runner(copies, Advancing(0)), f);
    SameWorld(run[|run| - 1], w1);
    run := DoPrepare(PROGRAM, run, w1, 0, 0, 4);
    var w2 := Base(NEW, [], Runner(copies, AddingTokens(0, 4, [2], map[])), f);
    SameWorld(run[|run| - 1], w2);
    run := DoAddToken(PROGRAM, run, w2, 0, 0, 4, [2], map[]);
    assert WithToken([], LEADER) == [LEADER] && [2][1..] == [];
    SetDocs([], [], [], [], [LEADER], []);
    SameWorld(run[|run| - 1], Base(NEW, [LEADER], Runner(copies, AddingTokens(0, 4, [], map[2 := 0])),
      f.(queue := map[2 := [LEADER]])));
  }

  lemma IsFirst(w: World)
    requires First(w)
    ensures Reached(PROGRAM, [w], w)
  {
  }

  lemma {:induction false} LeaderPrepares() returns (run: seq<World>)
    ensures Reached(PROGRAM, run, Leading())
  {
    hide IsHistory, Revnos;
    LoneKeys();
    run := LeaderAdds();
    var w := Base(NEW, [LEADER], Runner(map[0 := NEW], AddingTokens(0, 4, [], map[2 := 0])),
                  InAdvance(NewFlusher(0), 0).(queue := map[2 := [LEADER]]));
    run := DoSaveNonce(PROGRAM, run, w, 0, 0, 4, map[2 := 0]);
    assert map[0 := NEW][0 := Saved(4)] == map[0 := Saved(4)];
    SameWorld(run[|run| - 1], Leading());
  }

  /** Behind it, the transactions 1 and 2 wait for each other. */
  function AllWaiting(): World { BothPrepared(Leading(), [LEADER]) }

  lemma AllDocs()
    ensures AllWaiting().s.docs == Docs(BOTH, [], LEAD, [])
    ensures AllWaiting().s.txns == map[0 := Saved(4), 1 := Saved(5), 2 := Saved(6)]
  {
    assert [LEADER] + [SECOND, FIRST] == LEAD;
  }

  // ---------------------------------------------------------------------------------------
  // Runner 3 resumes transaction 1

  const SIGHT: Queues := map[1 := BOTH, 2 := LEAD]

  lemma {:induction false} ThirdWaits() returns (run: seq<World>)
    ensures Reached(PROGRAM, run, Put(AllWaiting(), 3, Runner(map[1 := Saved(5)], Idle), Waiting(1, BOTH, LEAD)))
  {
    hide IsHistory, StopsForPreReqs, Continue;
    run := LeaderPrepares();
    run := BothWait(run, Leading(), [LEADER]);
    AllDocs();
    var w, copies, f := AllWaiting(), map[1 := Saved(5)], InAdvance(NewFlusher(1), 1);
    run := DoResume(PROGRAM, run, w, 3, 1);
    NotFoundYet(f, Runner(copies, Advancing(1)));
    run := RescansBoth(run, w, 3, 1, copies, f, BOTH, [], LEAD, []);
    var f1, r3 := f.(queue := SIGHT), Runner(copies, Asserting(1, Plan(1, 0, 0)));
    assert map[][1 := BOTH][2 := LEAD] == SIGHT;
    Stops(f1, r3, Saved(5), 2, 0);
    run := DoWait(PROGRAM, run, Put(w, 3, r3, f1), 3);
    PutTwice(w, 3, r3, f1);
    AsksFor(f1, [], 1);
    assert [] + [Frame(1, [1, 2], [])] == [Frame(1, [1, 2], [])];
  }

  /** An entry of another transaction ahead, all entries in sight: `advance` stops before it rescans. */
  lemma StopsEarly(f: Flusher, run: Runner, d: DocKey, i: nat)
    requires (run.at == Advancing(1) || run.at == Advancing(2)) && run.at.t in run.copies
    requires run.copies[run.at.t] == Saved(run.at.t + 4) && !f.task.Flushing?
    requires (d == 1 || d == 2) && OtherAhead(View(f.queue, d), Token(run.at.t, run.at.t + 4), i)
    requires Token(run.at.t, run.at.t + 4) in View(f.queue, 1) && Token(run.at.t, run.at.t + 4) in View(f.queue, 2)
    ensures StopsForPreReqs(PROGRAM, f, run)
  {
    Keys();
    hide DocKeys;
  }

  const TWO: map<Id, Txn> := map[1 := Saved(5), 2 := Saved(6)]

  function Entering2(): Flusher { Flusher(1, SIGHT, Entering([Frame(1, [2], [])], 2), Some(Call(2, None)), []) }

  lemma {:induction false} ThirdEnters() returns (run: seq<World>)
    ensures Reached(PROGRAM, run, Put(AllWaiting(), 3, Runner(TWO, Advancing(2)), Entering2()))
  {
    hide IsHistory, BothPrepared;
    run := ThirdWaits();
    AllDocs();
    var w, r3, f := AllWaiting(), Runner(map[1 := Saved(5)], Idle), Waiting(1, BOTH, LEAD);
    var f1 := f.(task := Recursing([Frame(1, [2], BOTH)]));
    run := DoNextDoc(PROGRAM, run, Put(w, 3, r3, f), 3);
    PutTwice(w, 3, r3, f);
    assert [] + [Frame(1, [2], BOTH)] == [Frame(1, [2], BOTH)] && [1, 2][1..] == [2];
    assert f.task.stack[..0] == [] && f1.task.stack[..0] == [];
    run := DoLoadNext(PROGRAM, run, Put(w, 3, r3, f1), 3, 1);
    PutTwice(w, 3, r3, f1);
    assert BOTH[..1] == [FIRST] && BOTH[2..] == [] && [] + [Frame(1, [2], [])] == [Frame(1, [2], [])];
    assert map[1 := Saved(5)][2 := Saved(6)] == TWO;
  }

  /** It loads transaction 2, which it need not rescan to see that it has to wait. */
  lemma {:induction false} ThirdLoads() returns (run: seq<World>)
    ensures Reached(PROGRAM, run, Put(AllWaiting(), 3, Runner(TWO, Idle),
      Flusher(1, SIGHT, Recursing([Frame(1, [2], []), Frame(2, [1, 2], [])]), None, [])))
  {
    hide AllWaiting, IsHistory, StopsForPreReqs, Continue;
    run := ThirdEnters();
    var w, r3, f := AllWaiting(), Runner(TWO, Advancing(2)), Entering2();
    StopsEarly(f, r3, 1, 0);
    run := DoWait(PROGRAM, run, Put(w, 3, r3, f), 3);
    PutTwice(w, 3, r3, f);
    AsksFor(f, [Frame(1, [2], [])], 2);
    assert [Frame(1, [2], [])] + [Frame(2, [1, 2], [])] == [Frame(1, [2], []), Frame(2, [1, 2], [])];
  }

  const THREE: map<Id, Txn> := map[0 := Saved(4), 1 := Saved(5), 2 := Saved(6)]

  function Stack(): seq<Frame> { [Frame(1, [2], []), Frame(2, [], [SECOND, FIRST])] }

  /** And the leader. */
  lemma {:induction false} ThirdFindsLeader() returns (run: seq<World>)
    ensures Reached(PROGRAM, run, Put(AllWaiting(), 3, Runner(THREE, Advancing(0)),
      Flusher(1, SIGHT, Entering(Stack(), 0), Some(Call(0, None)), [])))
  {
    hide IsHistory, StopsForPreReqs, Continue;
    run := ThirdLoads();
    AllDocs();
    var w, r3, low := AllWaiting(), Runner(TWO, Idle), [Frame(1, [2], [])];
    var f := Flusher(1, SIGHT, Recursing(low + [Frame(2, [1, 2], [])]), None, []);
    assert low + [Frame(2, [1, 2], [])] == [Frame(1, [2], []), Frame(2, [1, 2], [])];
    assert [1, 2][1..] == [2] && [2][1..] == [];
    var f1 := f.(task := Recursing(low + [Frame(2, [2], BOTH)]));
    assert f.task.stack[..1] == low && f1.task.stack[..1] == low;
    run := DoNextDoc(PROGRAM, run, Put(w, 3, r3, f), 3);
    PutTwice(w, 3, r3, f);
    var f2 := f.(task := Recursing(low + [Frame(2, [], LEAD)]));
    assert f2.task.stack[..1] == low;
    run := DoNextDoc(PROGRAM, run, Put(w, 3, r3, f1), 3);
    PutTwice(w, 3, r3, f1);
    run := DoLoadNext(PROGRAM, run, Put(w, 3, r3, f2), 3, 0);
    PutTwice(w, 3, r3, f2);
    assert LEAD[..0] == [] && LEAD[1..] == [SECOND, FIRST] && low + [Frame(2, [], [SECOND, FIRST])] == Stack();
    assert TWO[0 := Saved(4)] == THREE;
  }

  // ---------------------------------------------------------------------------------------
  // It applies the leader

  function LeaderFound(): Flusher { Flusher(1, SIGHT, Entering(Stack(), 0), Some(Call(0, None)), []) }

  /** Nothing is ahead of the leader. */
  lemma LeaderReady(run: Runner)
    requires !run.at.Idle? && run.at.t == 0 && 0 in run.copies && run.copies[0] == Saved(4)
    ensures !StopsForPreReqs(PROGRAM, LeaderFound(), run)
  {
    LoneKeys();
    hide DocKeys;
    assert View(SIGHT, 2) == LEAD && LEAD[0] == LEADER;
    forall i: nat ensures !OtherAhead(LEAD, LEADER, i) { if 0 < i < |LEAD| { assert LEAD[..i][0] == LEADER; } }
  }

  const LEADS := Txn(Applying, 4, [0])
  const LED1 := Txn(Applied, 4, [0])

  const ONE: map<Id, Txn> := map[0 := LEADS, 1 := Saved(5), 2 := Saved(6)]

  function Led(x: Txn, q2: seq<Token>, log2: seq<Effect>): World {
    var w := AllWaiting();
    World(System(map[0 := x, 1 := Saved(5), 2 := Saved(6)], Docs(BOTH, [], q2, log2), w.s.runners), w.flushers)
  }

  lemma {:induction false} LeaderPlans() returns (run: seq<World>)
    ensures Reached(PROGRAM, run, Put(AllWaiting(), 3, Runner(THREE, Asserting(0, [0])), LeaderFound()))
  {
    hide IsHistory, StopsForPreReqs, Revnos, DocKeys, RevisionsRead, Views;
    LoneKeys();
    run := ThirdFindsLeader();
    AllDocs();
    var w, f := AllWaiting(), LeaderFound();
    LeaderReady(Runner(THREE, Advancing(0)));
    run := DoRescan(PROGRAM, run, Put(w, 3, Runner(THREE, Advancing(0)), f), 3, 0, Saved(4));
    PutTwice(w, 3, Runner(THREE, Advancing(0)), f);
    ReadsLead();
  }

  lemma {:induction false} LeaderBegins() returns (run: seq<World>)
    ensures Reached(PROGRAM, run, Put(Led(LEADS, LEAD, []), 3, Runner(ONE, ApplyingOp(0, 0)), LeaderFound()))
  {
    hide AllWaiting, IsHistory, StopsForPreReqs;
    run := LeaderPlans();
    AllDocs();
    var w, f, r3 := AllWaiting(), LeaderFound(), Runner(THREE, Asserting(0, [0]));
    LeaderReady(r3);
    run := DoCheckpoint(PROGRAM, run, Put(w, 3, r3, f), 3, 0, [0], Saved(4));
    assert THREE[0 := LEADS] == ONE;
    var w1 := Put(Led(LEADS, LEAD, []), 3, Runner(ONE, Advancing(0)), f);
    SameWorld(run[|run| - 1], w1);
    run := DoStartApply(PROGRAM, run, w1, 3, 0, LEADS);
    PutTwice(Led(LEADS, LEAD, []), 3, Runner(ONE, Advancing(0)), f);
  }

  lemma ReadsLead()
    ensures RevisionsRead([2], Docs(BOTH, [], LEAD, []), map[]) == map[2 := 0]
    ensures Views([2], Docs(BOTH, [], LEAD, []), SIGHT) == SIGHT
  {
    var docs := Docs(BOTH, [], LEAD, []);
    assert [2][1..] == [] && map[][2 := 0] == map[2 := 0] && SIGHT[2 := LEAD] == SIGHT;
    assert RevisionsRead([2], docs, map[]) == RevisionsRead([], docs, map[][2 := 0]);
    assert Views([2], docs, SIGHT) == Views([], docs, SIGHT[2 := LEAD]);
  }

  lemma PullsLeader()
    ensures Kept(LONE, 0, LEADER) == None && Pulled(LEAD, map[0 := 4], None) == [LEADER]
    ensures Without(LEAD, [LEADER]) == CROSS
  {
    assert LEAD[..2] == [LEADER, SECOND] && [LEADER, SECOND][..1] == [LEADER];
    assert Pulled([LEADER, SECOND], map[0 := 4], None) == Pulled([LEADER], map[0 := 4], None);
    assert LEAD[1..] == CROSS && CROSS[1..] == [FIRST] && [FIRST][1..] == [];
    assert Without(CROSS, [LEADER]) == [SECOND] + Without([FIRST], [LEADER]);
    assert Without([FIRST], [LEADER]) == [FIRST] + Without([], [LEADER]);
  }

  const DONE: map<Id, Txn> := map[0 := LED1, 1 := Saved(5), 2 := Saved(6)]

  const LOG := [Effect(0, 0)]

  /** The leader is applied, and its entry gone; the queue in memory still shows it. */
  function AfterLeader(): World { Led(LED1, CROSS, LOG) }

  lemma {:induction false} LeaderUpdates() returns (run: seq<World>)
    ensures Reached(PROGRAM, run, Put(Led(LEADS, CROSS, LOG), 3, Runner(ONE, ApplyingOp(0, 1)), LeaderFound()))
  {
    hide AllWaiting, IsHistory, Pulled, Without, Kept;
    LoneKeys();
    run := LeaderBegins();
    PullsLeader();
    var f := LeaderFound();
    run := DoUpdate(PROGRAM, run, Put(Led(LEADS, LEAD, []), 3, Runner(ONE, ApplyingOp(0, 0)), f), 3, 0, 0, LEADS);
    assert [] + LOG == LOG;
    SetDocs(BOTH, [], LEAD, [], CROSS, LOG);
    SameWorld(run[|run| - 1], Put(Led(LEADS, CROSS, LOG), 3, Runner(ONE, ApplyingOp(0, 1)), f));
  }

  lemma {:induction false} LeaderApplies() returns (run: seq<World>)
    ensures Reached(PROGRAM, run,
      Put(AfterLeader(), 3, Runner(DONE, Idle), Flusher(1, SIGHT, Recursing(Stack()), None, [])))
  {
    hide AllWaiting, IsHistory;
    LoneKeys();
    run := LeaderUpdates();
    var w1 := Put(Led(LEADS, CROSS, LOG), 3, Runner(ONE, ApplyingOp(0, 1)), LeaderFound());
    run := DoApplied(PROGRAM, run, w1, 3, 0, 1, LEADS);
    assert ONE[0 := LED1] == DONE && w1.s.txns[0 := LED1] == AfterLeader().s.txns;
    SameWorld(run[|run| - 1],
      Put(AfterLeader(), 3, Runner(DONE, Idle), Flusher(1, SIGHT, Recursing(Stack()), None, [])));
  }

  function LedFlush(): seq<Call> {
    [Call(0, Some(map[0 := 4])), Call(1, Some(map[0 := 4])), Call(2, Some(map[0 := 4]))]
  }

  lemma {:induction false} ThirdLeaves() returns (run: seq<World>)
    ensures Reached(PROGRAM, run, Put(AfterLeader(), 3, Runner(DONE, Idle), Flusher(1, SIGHT, Recursing([]), None, [])))
  {
    hide Led, IsHistory;
    run := LeaderApplies();
    var w, idle, f := AfterLeader(), Runner(DONE, Idle), Flusher(1, SIGHT, Recursing(Stack()), None, []);
    assert Stack()[..1] == [Frame(1, [2], [])];
    run := DoLeave(PROGRAM, run, Put(w, 3, idle, f), 3);
    PutTwice(w, 3, idle, f);
    var f1 := f.(task := Recursing([Frame(1, [2], [])]));
    assert [] + [Frame(1, [2], [])] == [Frame(1, [2], [])];
    run := LooksThroughLast(run, w, 3, DONE, f1, [], 1, []);
  }

  lemma {:induction false} ThirdFlushes() returns (run: seq<World>)
    ensures Reached(PROGRAM, run, Put(AfterLeader(), 3, Runner(DONE, Advancing(0)),
      Flusher(1, SIGHT, Flushing(LedFlush()), Some(LedFlush()[0]), [])))
  {
    hide Led, IsHistory, IsQueueGraph, CallsFor;
    run := ThirdLeaves();
    var w, idle, f := AfterLeader(), Runner(DONE, Idle), Flusher(1, SIGHT, Recursing([]), None, []);
    assert Nonces(DONE) == ALL;
    LedCalls();
    run := DoFlush(PROGRAM, run, Put(w, 3, idle, f), 3, LED);
    PutTwice(w, 3, idle, f);
    var f3 := f.(task := Flushing(LedFlush()));
    run := DoBegin(PROGRAM, run, Put(w, 3, idle, f3), 3);
    PutTwice(w, 3, idle, f3);
  }

  function Choosing1(): Flusher {
    Flusher(1, SIGHT, Flushing(LedFlush()[1..]), Some(LedFlush()[1]), [])
  }

  /** Runner 3 comes to force transaction 1. */
  lemma {:induction false} ThirdForces() returns (run: seq<World>)
    ensures Reached(PROGRAM, run, Put(AfterLeader(), 3, Runner(DONE, Advancing(1)), Choosing1()))
  {
    hide AllWaiting, IsHistory;
    run := ThirdFlushes();
    var w, f := AfterLeader(), Flusher(1, SIGHT, Flushing(LedFlush()), Some(LedFlush()[0]), []);
    run := DoReturn(PROGRAM, run, Put(w, 3, Runner(DONE, Advancing(0)), f), 3);
    PutTwice(w, 3, Runner(DONE, Advancing(0)), f);
    var f1 := f.(task := Flushing(LedFlush()[1..]), call := None);
    run := DoBegin(PROGRAM, run, Put(w, 3, Runner(DONE, Idle), f1), 3);
    PutTwice(w, 3, Runner(DONE, Idle), f1);
  }

  // ---------------------------------------------------------------------------------------
  // Runner 4 resumes transaction 2

  function Both(r4: Runner, f4: Flusher): World {
    Put(Put(AfterLeader(), 3, Runner(DONE, Advancing(1)), Choosing1()), 4, r4, f4)
  }

  lemma {:induction false} FourthWaits() returns (run: seq<World>)
    ensures Reached(PROGRAM, run, Both(Runner(map[2 := Saved(6)], Idle), Waiting(2, BOTH, CROSS)))
  {
    hide IsHistory, StopsForPreReqs, Continue;
    run := ThirdForces();
    var w := Put(AfterLeader(), 3, Runner(DONE, Advancing(1)), Choosing1());
    var copies, f := map[2 := Saved(6)], InAdvance(NewFlusher(2), 2);
    run := DoResume(PROGRAM, run, w, 4, 2);
    NothingRead(f, Runner(copies, Advancing(2)));
    run := RescansBoth(run, w, 4, 2, copies, f, BOTH, [], CROSS, LOG);
    var f1, r4 := f.(queue := VIEWS), Runner(copies, Asserting(2, Plan(2, 0, 1)));
    assert map[][1 := BOTH][2 := CROSS] == VIEWS;
    Stops(f1, r4, Saved(6), 1, 0);
    run := DoWait(PROGRAM, run, Put(w, 4, r4, f1), 4);
    PutTwice(w, 4, r4, f1);
    AsksFor(f1, [], 2);
    assert [] + [Frame(2, [1, 2], [])] == [Frame(2, [1, 2], [])];
  }

  lemma NothingRead(f: Flusher, run: Runner)
    requires run.at == Advancing(2) && 2 in run.copies && run.copies[2] == Saved(6) && f.queue == map[]
    ensures !StopsForPreReqs(PROGRAM, f, run)
  {
    Keys();
    hide DocKeys;
  }

  function Entering1(): Flusher { Flusher(2, VIEWS, Entering([Frame(2, [2], [SECOND])], 1), Some(Call(1, None)), []) }

  lemma {:induction false} FourthEnters() returns (run: seq<World>)
    ensures Reached(PROGRAM, run, Both(Runner(TWO, Advancing(1)), Entering1()))
  {
    hide AllWaiting, IsHistory;
    run := FourthWaits();
    var w := Put(AfterLeader(), 3, Runner(DONE, Advancing(1)), Choosing1());
    var r4, f := Runner(map[2 := Saved(6)], Idle), Waiting(2, BOTH, CROSS);
    var f1 := f.(task := Recursing([Frame(2, [2], BOTH)]));
    run := DoNextDoc(PROGRAM, run, Put(w, 4, r4, f), 4);
    PutTwice(w, 4, r4, f);
    assert [] + [Frame(2, [2], BOTH)] == [Frame(2, [2], BOTH)] && [1, 2][1..] == [2];
    assert f.task.stack[..0] == [] && f1.task.stack[..0] == [];
    run := DoLoadNext(PROGRAM, run, Put(w, 4, r4, f1), 4, 0);
    PutTwice(w, 4, r4, f1);
    assert BOTH[..0] == [] && BOTH[1..] == [SECOND] && [] + [Frame(2, [2], [SECOND])] == [Frame(2, [2], [SECOND])];
    assert map[2 := Saved(6)][1 := Saved(5)] == TWO;
  }

  lemma {:induction false} FourthLoads() returns (run: seq<World>)
    ensures Reached(PROGRAM, run, Both(Runner(TWO, Idle),
      Flusher(2, VIEWS, Recursing([Frame(2, [2], [SECOND]), Frame(1, [1, 2], [])]), None, [])))
  {
    hide AllWaiting, IsHistory, StopsForPreReqs, Continue;
    run := FourthEnters();
    var w, r4, f := Put(AfterLeader(), 3, Runner(DONE, Advancing(1)), Choosing1()), Runner(TWO, Advancing(1)),
      Entering1();
    StopsEarly(f, r4, 2, 0);
    run := DoWait(PROGRAM, run, Put(w, 4, r4, f), 4);
    PutTwice(w, 4, r4, f);
    AsksFor(f, [Frame(2, [2], [SECOND])], 1);
    assert [Frame(2, [2], [SECOND])] + [Frame(1, [1, 2], [])] == [Frame(2, [2], [SECOND]), Frame(1, [1, 2], [])];
  }

  function Choosing2(): Flusher {
    Flusher(2, VIEWS, Flushing([Call(2, Some(map[])), Call(1, Some(map[]))]), Some(Call(2, Some(map[]))), [])
  }

  /** Runner 4 comes to force transaction 2. */
  lemma {:induction false} FourthForces() returns (run: seq<World>)
    ensures Reached(PROGRAM, run, Both(Runner(TWO, Advancing(2)), Choosing2()))
  {
    hide IsHistory;
    run := FourthLoads();
    var w := Put(AfterLeader(), 3, Runner(DONE, Advancing(1)), Choosing1());
    var low := [Frame(2, [2], [SECOND])];
    var f := Flusher(2, VIEWS, Recursing(low + [Frame(1, [1, 2], [])]), None, []);
    assert low + [Frame(1, [1, 2], [])] == [Frame(2, [2], [SECOND]), Frame(1, [1, 2], [])];
    run := LooksThrough(run, w, 4, TWO, f, low, 1);
    assert [] + low == low;
    run := LooksThroughLast(run, w, 4, TWO, f.(task := Recursing(low)), [], 2, [SECOND]);
    assert Nonces(TWO) == SEEN;
    run := Flushes(run, w, 4, TWO, f.(task := Recursing([])));
  }

  // ---------------------------------------------------------------------------------------
  // Both plan the same revisions

  const PLAN1 := Txn(Applying, 5, [0, 1, 1])
  const PLAN2 := Txn(Applying, 6, [0, 1])

  const C3: map<Id, Txn> := map[0 := LED1, 1 := PLAN1, 2 := Saved(6)]
  const C4: map<Id, Txn> := map[1 := Saved(5), 2 := PLAN2]

  function End(x: Txn, y: Txn, docs: map<DocKey, Doc>, r3: Runner, f3: Flusher, r4: Runner, f4: Flusher): World {
    var w := AllWaiting();
    World(System(map[0 := LED1, 1 := x, 2 := y], docs, w.s.runners[3 := r3][4 := r4]), w.flushers[3 := f3][4 := f4])
  }

  const BEFORE: map<DocKey, Doc> := Docs(BOTH, [], CROSS, LOG)

  lemma {:induction false} FourthPlans() returns (run: seq<World>)
    ensures Reached(PROGRAM, run, End(Saved(5), PLAN2, BEFORE, Runner(DONE, Advancing(1)), Choosing1(),
                                      Runner(C4, Advancing(2)), Choosing2()))
  {
    hide IsHistory, StopsForPreReqs;
    run := FourthForces();
    var w, f := Put(AfterLeader(), 3, Runner(DONE, Advancing(1)), Choosing1()), Choosing2();
    NeverStops(f, Runner(TWO, Advancing(2)));
    run := RescansBoth(run, w, 4, 2, TWO, f, BOTH, [], CROSS, LOG);
    assert VIEWS[1 := BOTH][2 := CROSS] == VIEWS;
    var r4 := Runner(TWO, Asserting(2, [0, 1]));
    NeverStops(f, r4);
    run := DoCheckpoint(PROGRAM, run, Put(w, 4, r4, f), 4, 2, [0, 1], Saved(6));
    assert TWO[2 := PLAN2] == C4;
    assert AfterLeader().s.txns[2 := PLAN2] == map[0 := LED1, 1 := Saved(5), 2 := PLAN2];
    SameWorld(run[|run| - 1], End(Saved(5), PLAN2, BEFORE, Runner(DONE, Advancing(1)), Choosing1(),
                                  Runner(C4, Advancing(2)), f));
  }

  function Chosen1(): Flusher { Choosing1().(queue := VIEWS) }

  lemma {:induction false} ThirdRescans() returns (run: seq<World>)
    ensures Reached(PROGRAM, run, End(Saved(5), PLAN2, BEFORE, Runner(DONE, Asserting(1, [0, 1, 1])), Chosen1(),
                                      Runner(C4, Advancing(2)), Choosing2()))
  {
    hide AllWaiting, IsHistory, StopsForPreReqs;
    run := FourthPlans();
    var f, r3 := Choosing1(), Runner(DONE, Advancing(1));
    var w := End(Saved(5), PLAN2, BEFORE, r3, f, Runner(C4, Advancing(2)), Choosing2());
    NeverStops(f, r3);
    PutsBack(w, 3);
    run := RescansBoth(run, w, 3, 1, DONE, f, BOTH, [], CROSS, LOG);
    assert SIGHT[1 := BOTH][2 := CROSS] == VIEWS;
    SameWorld(run[|run| - 1], End(Saved(5), PLAN2, BEFORE, Runner(DONE, Asserting(1, [0, 1, 1])), Chosen1(),
                                  Runner(C4, Advancing(2)), Choosing2()));
  }

  lemma PutsBack(w: World, r: RunnerId)
    requires r in w.s.runners && r in w.flushers
    ensures Put(w, r, w.s.runners[r], w.flushers[r]) == w
  {
    assert w.s.runners[r := w.s.runners[r]] == w.s.runners && w.flushers[r := w.flushers[r]] == w.flushers;
  }

  lemma {:induction false} ThirdPlans() returns (run: seq<World>)
    ensures Reached(PROGRAM, run, End(PLAN1, PLAN2, BEFORE, Runner(C3, Advancing(1)), Chosen1(),
                                      Runner(C4, Advancing(2)), Choosing2()))
  {
    hide AllWaiting, IsHistory, StopsForPreReqs;
    run := ThirdRescans();
    var f, r3 := Chosen1(), Runner(DONE, Asserting(1, [0, 1, 1]));
    NeverStops(f, r3);
    run := DoCheckpoint(PROGRAM, run, End(Saved(5), PLAN2, BEFORE, r3, f, Runner(C4, Advancing(2)), Choosing2()),
                        3, 1, [0, 1, 1], Saved(5));
    assert DONE[1 := PLAN1] == C3;
    assert map[0 := LED1, 1 := Saved(5), 2 := PLAN2][1 := PLAN1] == map[0 := LED1, 1 := PLAN1, 2 := PLAN2];
    SameWorld(run[|run| - 1],
      End(PLAN1, PLAN2, BEFORE, Runner(C3, Advancing(1)), f, Runner(C4, Advancing(2)), Choosing2()));
  }

  // ---------------------------------------------------------------------------------------
  // The first to apply takes the revisions

  function Third(x: Txn, docs: map<DocKey, Doc>, r3: Runner): World {
    End(x, PLAN2, docs, r3, Chosen1(), Runner(C4, Advancing(2)), Choosing2())
  }

  lemma PullsNoneOf(op: nat)
    requires op < 3
    ensures Pulled(BOTH, map[0 := 4], Kept(TWICE, op, FIRST)) == [] &&
      Pulled(CROSS, map[0 := 4], Kept(TWICE, op, FIRST)) == []
    ensures Without(BOTH, []) == BOTH && Without(CROSS, []) == CROSS
  {
    PullsNothing(BOTH, map[0 := 4], Kept(TWICE, op, FIRST));
    PullsNothing(CROSS, map[0 := 4], Kept(TWICE, op, FIRST));
    WithoutNothing(BOTH);
    WithoutNothing(CROSS);
  }

  const K1 := [Effect(1, 0)]
  const K2 := [Effect(0, 0), Effect(1, 1)]
  const K3 := [Effect(1, 0), Effect(1, 2)]

  lemma {:induction false} ThirdStarts() returns (run: seq<World>)
    ensures Reached(PROGRAM, run, Third(PLAN1, BEFORE, Runner(C3, ApplyingOp(1, 0))))
  {
    hide AllWaiting, IsHistory;
    run := ThirdPlans();
    run := DoStartApply(PROGRAM, run, Third(PLAN1, BEFORE, Runner(C3, Advancing(1))), 3, 1, PLAN1);
    SameWorld(run[|run| - 1], Third(PLAN1, BEFORE, Runner(C3, ApplyingOp(1, 0))));
  }

  lemma {:induction false} ThirdUpdates() returns (run: seq<World>)
    ensures Reached(PROGRAM, run, Third(PLAN1, Docs(BOTH, K1, CROSS, LOG), Runner(C3, ApplyingOp(1, 1))))
  {
    hide AllWaiting, IsHistory, Pulled, Without, Kept;
    Keys();
    run := ThirdStarts();
    var w0 := Third(PLAN1, BEFORE, Runner(C3, ApplyingOp(1, 0)));
    PullsNoneOf(0);
    run := DoUpdate(PROGRAM, run, w0, 3, 1, 0, PLAN1);
    assert [] + K1 == K1;
    SetDocs(BOTH, [], CROSS, LOG, BOTH, K1);
    SameWorld(run[|run| - 1], Third(PLAN1, Docs(BOTH, K1, CROSS, LOG), Runner(C3, ApplyingOp(1, 1))));
  }

  lemma {:induction false} ThirdGoesOn() returns (run: seq<World>)
    ensures Reached(PROGRAM, run, Third(PLAN1, Docs(BOTH, K1, CROSS, K2), Runner(C3, ApplyingOp(1, 2))))
  {
    hide AllWaiting, IsHistory, Pulled, Without, Kept;
    Keys();
    run := ThirdUpdates();
    var w1 := Third(PLAN1, Docs(BOTH, K1, CROSS, LOG), Runner(C3, ApplyingOp(1, 1)));
    PullsNoneOf(1);
    run := DoUpdate(PROGRAM, run, w1, 3, 1, 1, PLAN1);
    assert LOG + [Effect(1, 1)] == K2;
    SetDocs(BOTH, K1, CROSS, LOG, CROSS, K2);
    SameWorld(run[|run| - 1], Third(PLAN1, Docs(BOTH, K1, CROSS, K2), Runner(C3, ApplyingOp(1, 2))));
  }

  lemma {:induction false} ThirdFinishes() returns (run: seq<World>)
    ensures Reached(PROGRAM, run, Third(PLAN1, Docs(BOTH, K3, CROSS, K2), Runner(C3, ApplyingOp(1, 3))))
  {
    hide AllWaiting, IsHistory, Pulled, Without, Kept;
    Keys();
    run := ThirdGoesOn();
    var w2 := Third(PLAN1, Docs(BOTH, K1, CROSS, K2), Runner(C3, ApplyingOp(1, 2)));
    PullsNoneOf(2);
    run := DoUpdate(PROGRAM, run, w2, 3, 1, 2, PLAN1);
    assert K1 + [Effect(1, 2)] == K3;
    SetDocs(BOTH, K1, CROSS, K2, BOTH, K3);
    SameWorld(run[|run| - 1], Third(PLAN1, Docs(BOTH, K3, CROSS, K2), Runner(C3, ApplyingOp(1, 3))));
  }

  const APPLIED1 := Txn(Applied, 5, [0, 1, 1])
  const APPLIED2 := Txn(Applied, 6, [0, 1])

  const AFTER: map<DocKey, Doc> := Docs(BOTH, K3, CROSS, K2)

  function Fourth(y: Txn, r4: Runner, f4: Flusher): World {
    End(APPLIED1, y, AFTER, Runner(C3[1 := APPLIED1], Idle),
        Chosen1().(call := None, task := Flushing(LedFlush()[1..][1..])), r4, f4)
  }

  lemma {:induction false} FourthApplies() returns (run: seq<World>)
    ensures Reached(PROGRAM, run, Fourth(PLAN2, Runner(C4, Advancing(2)), Choosing2()))
  {
    hide AllWaiting, IsHistory;
    Keys();
    run := ThirdFinishes();
    run := DoApplied(PROGRAM, run, Third(PLAN1, AFTER, Runner(C3, ApplyingOp(1, 3))), 3, 1, 3, PLAN1);
    assert map[0 := LED1, 1 := PLAN1, 2 := PLAN2][1 := APPLIED1] == map[0 := LED1, 1 := APPLIED1, 2 := PLAN2];
    SameWorld(run[|run| - 1], Fourth(PLAN2, Runner(C4, Advancing(2)), Choosing2()));
  }

  lemma {:induction false} FourthStarts() returns (run: seq<World>)
    ensures Reached(PROGRAM, run, Fourth(PLAN2, Runner(C4, ApplyingOp(2, 0)), Choosing2()))
  {
    hide AllWaiting, IsHistory;
    run := FourthApplies();
    run := DoStartApply(PROGRAM, run, Fourth(PLAN2, Runner(C4, Advancing(2)), Choosing2()), 4, 2, PLAN2);
    SameWorld(run[|run| - 1], Fourth(PLAN2, Runner(C4, ApplyingOp(2, 0)), Choosing2()));
  }

  lemma {:induction false} FourthMisses() returns (run: seq<World>)
    ensures Reached(PROGRAM, run, Fourth(PLAN2, Runner(C4, ApplyingOp(2, 2)), Choosing2()))
  {
    hide AllWaiting, IsHistory;
    Keys();
    run := FourthStarts();
    var w1 := Fourth(PLAN2, Runner(C4, ApplyingOp(2, 0)), Choosing2());
    run := DoMiss(PROGRAM, run, w1, 4, 2, 0, PLAN2);
    var w2 := Fourth(PLAN2, Runner(C4, ApplyingOp(2, 1)), Choosing2());
    SameWorld(run[|run| - 1], w2);
    run := DoMiss(PROGRAM, run, w2, 4, 2, 1, PLAN2);
    SameWorld(run[|run| - 1], Fourth(PLAN2, Runner(C4, ApplyingOp(2, 2)), Choosing2()));
  }

  /** Transaction 2 counts as applied, and neither of its updates has been made. */
  lemma {:induction false} AllIsLost() returns (run: seq<World>)
    ensures IsHistory(PROGRAM, run) && run != []
    ensures
      var s := run[|run| - 1].s;
      s.txns == map[0 := LED1, 1 := APPLIED1, 2 := APPLIED2] && s.docs == AFTER
  {
    hide AllWaiting, IsHistory;
    Keys();
    run := FourthMisses();
    run := DoApplied(PROGRAM, run, Fourth(PLAN2, Runner(C4, ApplyingOp(2, 2)), Choosing2()), 4, 2, 2, PLAN2);
    assert map[0 := LED1, 1 := APPLIED1, 2 := PLAN2][2 := APPLIED2] == map[0 := LED1, 1 := APPLIED1, 2 := APPLIED2];
  }

  /** Both updates of transaction 2 have been overtaken. */
  lemma {:induction false} ClashReached() returns (run: seq<World>)
    ensures IsHistory(PROGRAM, run) && IsRun(PROGRAM, Systems(run))
    ensures
      var s := run[|run| - 1].s;
      && 2 in s.txns && s.txns[2].state == Applied && 1 in s.docs && 2 in s.docs
      && PROGRAM[2] == [Op(1, true), Op(2, true)] && |s.txns[2].revnos| == 2
      && Effect(2, 0) !in s.docs[1].log && Effect(2, 1) !in s.docs[2].log
      && Overtaken(PROGRAM, s, 2, 0) && Overtaken(PROGRAM, s, 2, 1)
  {
    Keys();
    run := AllIsLost();
    HistoryIsRun(PROGRAM, run);
    var plain := Systems(run);
    var s, n := plain[|plain| - 1], |plain| - 1;
    hide IsHistory, IsRun, WasGone;
    ExistedFirst(PROGRAM, plain, n);
    MissingIff(PROGRAM, plain, n, 2, 0);
    MissingIff(PROGRAM, plain, n, 2, 1);
    assert s.docs[1].revno == 2 && s.docs[2].revno == 2;
    assert Effect(2, 0) !in K3 && Effect(2, 1) !in K2;
  }

  // ---------------------------------------------------------------------------------------
  // Why they disagree

  lemma LedMembers()
    ensures In([0, 2, 1], {1, 2}) == [2, 1]
  {
    InPair(2, 1, {1, 2});
    InCons([0, 2, 1], {1, 2});
    assert [0, 2, 1][1..] == [2, 1];
  }

  lemma SightsInside(d: DocKey)
    ensures Members(ALL, SIGHT, d, {1, 2}) == Members(SEEN, VIEWS, d, {1, 2})
  {
    if d == 1 {
      ChainTwo(ALL, FIRST, SECOND);
      ChainTwo(SEEN, FIRST, SECOND);
    } else if d == 2 {
      ChainTwo(SEEN, SECOND, FIRST);
      ChainThree(ALL, LEADER, SECOND, FIRST);
      LedMembers();
      InPair(2, 1, {1, 2});
    }
    hide Chain, In;
  }

  /** The members of the cycle stand in the same order in what the two runners have read. */
  lemma SightsAgreeInside()
    ensures SameInside(ALL, SIGHT, SEEN, VIEWS, {1, 2})
  {
    hide Members;
    forall d ensures Members(ALL, SIGHT, d, {1, 2}) == Members(SEEN, VIEWS, d, {1, 2}) { SightsInside(d); }
  }

  /** Yet they force them in opposite orders: the sorts enter the cycle at different members. */
  lemma {:induction false} SightsDisagree()
    ensures IsQueueGraph(ALL, SIGHT, LED) && IsQueueGraph(SEEN, VIEWS, CYCLE) &&
      SameInside(ALL, SIGHT, SEEN, VIEWS, {1, 2})
    ensures ClosedLists(LED) && ClosedLists(CYCLE)
    ensures Components(Edges(LED)) == [[1, 2], [0]] && Components(Edges(CYCLE)) == [[2, 1]]
    ensures
      && In(Visits(Edges(LED)), {1, 2}) != [] && In(Visits(Edges(CYCLE)), {1, 2}) != []
      && Entry(Edges(LED), {1, 2}) != Entry(Edges(CYCLE), {1, 2})
  {
    LedQueues();
    LedOrder();
    CycleQueues();
    CycleOrder();
    SightsAgreeInside();
    hide IsQueueGraph, SameInside, Components, Edges, Entry, Visits;
    assert Elems([1, 2]) == {1, 2} && Elems([2, 1]) == {1, 2};
    FlushesAgreeIff(ALL, SIGHT, LED, 0, SEEN, VIEWS, CYCLE, 0);
  }
}
