/**
 What the recursion of a flusher leaves known. When the graph is built, each transaction seen is
 done, or `advance` has asked for its pre-requisites, and since then every entry of the queue in
 memory of each of its documents has been looked at and its transaction loaded.
 */
module TxnRecursion {
  import opened TxnGraph
  import opened Tokens
  import opened TxnProtocol
  import opened TxnSafety
  import opened FlushOrder
  import opened FlushWalk
  import opened TxnFlusher
  import opened TxnCareful

  /** At moment `j` `advance` asks for the pre-requisites of `t`. */
  ghost predicate Asks(p: Program, run: seq<World>, j: nat, r: RunnerId, t: Id) {
    && Moved(p, run, j, r, Return) && Inside(run[j], r) && run[j].s.runners[r].at.t == t
    && StopsForPreReqs(p, run[j].flushers[r], run[j].s.runners[r])
  }

  function CopiesAt(w: World, r: RunnerId): map<Id, Txn> {
    if r in w.s.runners then w.s.runners[r].copies else map[]
  }

  /** At some moment since `j` the queue in memory held only entries known by now, or still to be looked at. */
  ghost predicate LookedAt(run: seq<World>, j: nat, i: nat, r: RunnerId, d: DocKey, left: seq<Token>)
    requires i < |run|
  {
    exists k :: j < k <= i && Covered(InMemory(run[k], r, d), CopiesAt(run[i], r), left)
  }

  predicate Covered(q: seq<Token>, copies: map<Id, Txn>, left: seq<Token>) {
    forall x :: x in q ==> x.id in copies || x in left
  }

  /** A call of `recurse` that has these documents and entries still to look at. */
  ghost predicate FrameOk(p: Program, run: seq<World>, i: nat, r: RunnerId, frame: Frame)
    requires i < |run|
  {
    frame.t in p && exists j: nat :: j < i && FrameSince(p, run, j, i, r, frame)
  }

  ghost predicate FrameSince(p: Program, run: seq<World>, j: nat, i: nat, r: RunnerId, frame: Frame)
    requires i < |run| && frame.t in p
  {
    Asks(p, run, j, r, frame.t)
    && forall d :: d in DocKeys(p[frame.t]) ==> d in frame.docs || LookedAt(run, j, i, r, d, frame.entries)
  }

  /** All of the transaction's documents have been looked at since it asked for pre-requisites. */
  ghost predicate Explored(p: Program, run: seq<World>, i: nat, r: RunnerId, t: Id)
    requires i < |run|
  {
    FrameOk(p, run, i, r, Frame(t, [], []))
  }

  function StackOf(task: Task): seq<Frame> {
    match task
    case Recursing(stack) => stack
    case Entering(stack, _) => stack
    case Flushing(_) => []
  }

  predicate InStack(stack: seq<Frame>, t: Id) {
    exists n :: 0 <= n < |stack| && stack[n].t == t
  }

  ghost predicate FramesOk(p: Program, run: seq<World>, i: nat, r: RunnerId, stack: seq<Frame>)
    requires i < |run|
  {
    forall n :: 0 <= n < |stack| ==> FrameOk(p, run, i, r, stack[n])
  }

  ghost predicate Accounted(p: Program, run: seq<World>, i: nat, r: RunnerId, task: Task, t: Id)
    requires i < |run| && t in CopiesAt(run[i], r)
  {
    || Done(CopiesAt(run[i], r)[t]) || (task.Entering? && task.t == t) || InStack(StackOf(task), t)
    || Explored(p, run, i, r, t)
  }

  /** Every transaction seen is done, being advanced, being looked into, or explored. */
  ghost predicate Exploring(p: Program, run: seq<World>, i: nat, r: RunnerId)
    requires i < |run| && r in run[i].flushers
  {
    var task := run[i].flushers[r].task;
    && FramesOk(p, run, i, r, StackOf(task))
    && forall t :: t in CopiesAt(run[i], r) ==> Accounted(p, run, i, r, task, t)
  }

  // ---------------------------------------------------------------------------------------
  // Frames as time goes by

  lemma LookedLater(run: seq<World>, j: nat, i: nat, r: RunnerId, d: DocKey, left: seq<Token>, left': seq<Token>)
    requires i + 1 < |run| && LookedAt(run, j, i, r, d, left)
    requires forall t :: t in CopiesAt(run[i], r) ==> t in CopiesAt(run[i + 1], r)
    requires forall x :: x in left ==> x in left' || x.id in CopiesAt(run[i + 1], r)
    ensures LookedAt(run, j, i + 1, r, d, left')
  {
    hide InMemory, CopiesAt;
    var k :| j < k <= i && Covered(InMemory(run[k], r, d), CopiesAt(run[i], r), left);
    assert Covered(InMemory(run[k], r, d), CopiesAt(run[i + 1], r), left');
  }

  lemma LooksNow(run: seq<World>, j: nat, i: nat, r: RunnerId, d: DocKey, left: seq<Token>)
    requires j < i < |run| && left == InMemory(run[i], r, d)
    ensures LookedAt(run, j, i, r, d, left)
  {
    hide InMemory, CopiesAt;
    assert Covered(InMemory(run[i], r, d), CopiesAt(run[i], r), left);
  }

  /** Entries may go once they are known, and a document once its queue is at hand. */
  lemma FrameLater(p: Program, run: seq<World>, i: nat, r: RunnerId, frame: Frame, frame': Frame)
    requires i + 1 < |run| && FrameOk(p, run, i, r, frame) && frame'.t == frame.t
    requires forall t :: t in CopiesAt(run[i], r) ==> t in CopiesAt(run[i + 1], r)
    requires forall x :: x in frame.entries ==> x in frame'.entries || x.id in CopiesAt(run[i + 1], r)
    requires forall d :: d in frame.docs ==> d in frame'.docs || frame'.entries == InMemory(run[i + 1], r, d)
    ensures FrameOk(p, run, i + 1, r, frame')
  {
    hide InMemory, CopiesAt, Asks, LookedAt, DocKeys;
    var j: nat :| j < i && FrameSince(p, run, j, i, r, frame);
    forall d | d in DocKeys(p[frame.t]) ensures d in frame'.docs || LookedAt(run, j, i + 1, r, d, frame'.entries) {
      if d in frame.docs {
        if d !in frame'.docs { LooksNow(run, j, i + 1, r, d, frame'.entries); }
      } else {
        LookedLater(run, j, i, r, d, frame.entries, frame'.entries);
      }
    }
    assert FrameSince(p, run, j, i + 1, r, frame');
  }

  lemma FrameBegins(p: Program, run: seq<World>, i: nat, r: RunnerId, t: Id)
    requires i + 1 < |run| && t in p && Asks(p, run, i, r, t)
    ensures FrameOk(p, run, i + 1, r, Frame(t, DocKeys(p[t]), []))
  {
    hide Asks, LookedAt, DocKeys;
    assert FrameSince(p, run, i, i + 1, r, Frame(t, DocKeys(p[t]), []));
  }

  // ---------------------------------------------------------------------------------------
  // One step

  /** What is known stays known, and what is done stays done. */
  ghost predicate Keeps(run: seq<World>, i: nat, r: RunnerId) {
    i + 1 < |run| && forall t :: t in CopiesAt(run[i], r) ==>
      t in CopiesAt(run[i + 1], r) && (Done(CopiesAt(run[i], r)[t]) ==> Done(CopiesAt(run[i + 1], r)[t]))
  }

  lemma SameFrame(p: Program, run: seq<World>, i: nat, r: RunnerId, frame: Frame)
    requires Keeps(run, i, r) && FrameOk(p, run, i, r, frame)
    ensures FrameOk(p, run, i + 1, r, frame)
  {
    hide FrameOk, CopiesAt;
    FrameLater(p, run, i, r, frame, frame);
  }

  /** The task stays the same, and no transaction is new. */
  lemma SameTask(p: Program, run: seq<World>, i: nat, r: RunnerId)
    requires Keeps(run, i, r) && r in run[i].flushers && r in run[i + 1].flushers && Exploring(p, run, i, r)
    requires StackOf(run[i + 1].flushers[r].task) == StackOf(run[i].flushers[r].task)
    requires forall t :: t in CopiesAt(run[i + 1], r) ==>
      || t in CopiesAt(run[i], r) || (run[i + 1].flushers[r].task.Entering? && run[i + 1].flushers[r].task.t == t)
    requires
      var task, task' := run[i].flushers[r].task, run[i + 1].flushers[r].task;
      task.Entering? && task.t in CopiesAt(run[i + 1], r) ==>
        (task'.Entering? && task'.t == task.t) || Done(CopiesAt(run[i + 1], r)[task.t])
    ensures Exploring(p, run, i + 1, r)
  {
    var next := i + 1;
    hide FrameOk, CopiesAt, Done;
    var task, task' := run[i].flushers[r].task, run[next].flushers[r].task;
    forall n | 0 <= n < |StackOf(task')| ensures FrameOk(p, run, next, r, StackOf(task')[n]) {
      SameFrame(p, run, i, r, StackOf(task)[n]);
    }
    forall t | t in CopiesAt(run[next], r) ensures Accounted(p, run, next, r, task', t) {
      if t in CopiesAt(run[i], r) {
        assert Accounted(p, run, i, r, task, t);
        if Explored(p, run, i, r, t) { SameFrame(p, run, i, r, Frame(t, [], [])); }
      }
    }
  }

  /** The last frame is replaced. */
  lemma NewTop(p: Program, run: seq<World>, i: nat, r: RunnerId, stack: seq<Frame>, frame: Frame, frame': Frame)
    requires Keeps(run, i, r) && r in run[i].flushers && r in run[i + 1].flushers && Exploring(p, run, i, r)
    requires run[i].flushers[r].task == Recursing(stack + [frame]) && frame'.t == frame.t
    requires StackOf(run[i + 1].flushers[r].task) == stack + [frame']
    requires FrameOk(p, run, i, r, frame) ==> FrameOk(p, run, i + 1, r, frame')
    requires forall t :: t in CopiesAt(run[i + 1], r) ==>
      || t in CopiesAt(run[i], r) || (run[i + 1].flushers[r].task.Entering? && run[i + 1].flushers[r].task.t == t)
    ensures Exploring(p, run, i + 1, r)
  {
    var next := i + 1;
    hide FrameOk, CopiesAt, Done;
    var old', new' := stack + [frame], stack + [frame'];
    var task, task' := run[i].flushers[r].task, run[next].flushers[r].task;
    assert old'[|stack|] == frame;
    forall n | 0 <= n < |new'| ensures FrameOk(p, run, next, r, new'[n]) && new'[n].t == old'[n].t {
      if n < |stack| { SameFrame(p, run, i, r, old'[n]); }
    }
    forall t | t in CopiesAt(run[next], r) ensures Accounted(p, run, next, r, task', t) {
      if t in CopiesAt(run[i], r) {
        assert Accounted(p, run, i, r, task, t);
        if Explored(p, run, i, r, t) { SameFrame(p, run, i, r, Frame(t, [], [])); }
        if n :| 0 <= n < |old'| && old'[n].t == t { assert new'[n].t == t; }
      }
    }
  }

  /** `recurse` begins on a transaction that asks for its pre-requisites. */
  lemma Pushed(p: Program, run: seq<World>, i: nat, r: RunnerId, stack: seq<Frame>, t: Id)
    requires Keeps(run, i, r) && r in run[i].flushers && r in run[i + 1].flushers && Exploring(p, run, i, r)
    requires run[i].flushers[r].task == Entering(stack, t) && t in p && Asks(p, run, i, r, t)
    requires run[i + 1].flushers[r].task == Recursing(stack + [Frame(t, DocKeys(p[t]), [])])
    requires forall t :: t in CopiesAt(run[i + 1], r) ==> t in CopiesAt(run[i], r)
    ensures Exploring(p, run, i + 1, r)
  {
    var next := i + 1;
    hide FrameOk, CopiesAt, Done, DocKeys, Asks;
    var frame := Frame(t, DocKeys(p[t]), []);
    var new' := stack + [frame];
    FrameBegins(p, run, i, r, t);
    assert new'[|stack|] == frame;
    forall n | 0 <= n < |new'| ensures FrameOk(p, run, next, r, new'[n]) {
      if n < |stack| { SameFrame(p, run, i, r, stack[n]); }
    }
    forall x | x in CopiesAt(run[next], r) ensures Accounted(p, run, next, r, Recursing(new'), x) {
      assert Accounted(p, run, i, r, Entering(stack, t), x);
      if Explored(p, run, i, r, x) { SameFrame(p, run, i, r, Frame(x, [], [])); }
      if n :| 0 <= n < |stack| && stack[n].t == x { assert new'[n].t == x; }
    }
  }

  /** `recurse` has looked at everything and returns. */
  lemma Popped(p: Program, run: seq<World>, i: nat, r: RunnerId, stack: seq<Frame>, frame: Frame)
    requires Keeps(run, i, r) && r in run[i].flushers && r in run[i + 1].flushers && Exploring(p, run, i, r)
    requires run[i].flushers[r].task == Recursing(stack + [frame]) && run[i + 1].flushers[r].task == Recursing(stack)
    requires frame.docs == [] && forall x :: x in frame.entries ==> x.id in CopiesAt(run[i], r)
    requires forall t :: t in CopiesAt(run[i + 1], r) ==> t in CopiesAt(run[i], r)
    ensures Exploring(p, run, i + 1, r)
  {
    var next := i + 1;
    hide FrameOk, CopiesAt, Done;
    var old' := stack + [frame];
    assert old'[|stack|] == frame;
    FrameLater(p, run, i, r, frame, Frame(frame.t, [], []));
    forall n | 0 <= n < |stack| ensures FrameOk(p, run, next, r, stack[n]) {
      assert old'[n] == stack[n];
      SameFrame(p, run, i, r, stack[n]);
    }
    forall t | t in CopiesAt(run[next], r) ensures Accounted(p, run, next, r, Recursing(stack), t) {
      assert Accounted(p, run, i, r, Recursing(old'), t);
      if Explored(p, run, i, r, t) { SameFrame(p, run, i, r, Frame(t, [], [])); }
      if n :| 0 <= n < |old'| && old'[n].t == t { assert n < |stack| ==> stack[n].t == t; }
    }
  }

  // ---------------------------------------------------------------------------------------
  // Each move

  lemma {:induction false} OthersExplore(p: Program, run: seq<World>, i: nat, q: RunnerId, m: TxnFlusher.Move,
      r: RunnerId)
    requires Moved(p, run, i, q, m) && q != r && r in run[i].flushers && r in run[i].s.runners
    requires Exploring(p, run, i, r)
    ensures r in run[i + 1].flushers && Exploring(p, run, i + 1, r)
  {
    OthersKeep(p, run[i], q, m, r);
    hide Legal, After;
    SameTask(p, run, i, r);
  }

  lemma {:induction false} OthersStay(p: Program, run: seq<World>, i: nat, q: RunnerId, m: TxnFlusher.Move, r: RunnerId)
    requires Moved(p, run, i, q, m) && q != r && r in run[i + 1].flushers
    ensures r in run[i].flushers && run[i].flushers[r] == run[i + 1].flushers[r]
  {
    OthersKeep(p, run[i], q, m, r);
    hide Legal, After;
  }

  lemma {:induction false} ActExplores(p: Program, run: seq<World>, i: nat, r: RunnerId, a: Action)
    requires Moved(p, run, i, r, Act(a)) && TxnSafety.Inv(p, run[i].s)
    requires r in run[i].flushers && r in run[i + 1].flushers && Exploring(p, run, i, r)
    ensures Exploring(p, run, i + 1, r)
  {
    var w := run[i];
    ActForward(p, w.s, r, a);
    RememberTask(p, w.s, w.flushers[r], w.s.runners[r].at, a);
    ActTask(p, w, r, a);
    hide Legal, After, TxnSafety.Inv, Remember, Do, Enabled;
    SameTask(p, run, i, r);
  }

  lemma ActTask(p: Program, w: World, r: RunnerId, a: Action)
    requires Legal(p, w, r, Act(a)) && r in After(p, w, r, Act(a)).flushers
    ensures r in w.flushers && r in w.s.runners && !w.s.runners[r].at.Idle? && Enabled(p, w.s, r, a) && !Outside(a)
    ensures After(p, w, r, Act(a)).s == Do(p, w.s, r, a)
    ensures After(p, w, r, Act(a)).flushers[r] == Remember(p, w.s, w.flushers[r], w.s.runners[r].at, a)
  {
    hide Obeys, Do, Enabled, Remember;
  }

  /** `advance` returns: its transaction is done, or its pre-requisites are looked for. */
  lemma {:induction false} ReturnExplores(p: Program, run: seq<World>, i: nat, r: RunnerId)
    requires Moved(p, run, i, r, Return) && TxnSafety.Inv(p, run[i].s) && Settles(run[i], r)
    requires r in run[i].flushers && Exploring(p, run, i, r) && !run[i].flushers[r].task.Flushing?
    ensures r in run[i + 1].flushers && Exploring(p, run, i + 1, r)
  {
    var w := run[i];
    var task := w.flushers[r].task;
    if Inside(w, r) { ReturnsSettled(p, w, r); }
    hide TxnSafety.Inv, StopsForPreReqs, DocKeys, Returns, FramesOk, Accounted, Explored, Exploring, InStack, Keeps;
    ReturnKeeps(p, run, i, r);
    if task.Entering? && Inside(w, r) && StopsForPreReqs(p, w.flushers[r], w.s.runners[r]) {
      StopsInside(p, w.flushers[r], w.s.runners[r]);
      Pushed(p, run, i, r, task.stack, task.t);
    } else {
      SameTask(p, run, i, r);
    }
  }

  lemma StopsInside(p: Program, f: Flusher, run: Runner)
    requires !run.at.Idle? && run.at.t in run.copies && StopsForPreReqs(p, f, run)
    ensures run.at.t in p
  {
    hide PreReqs, Found, DocKeys;
  }

  lemma ReturnKeeps(p: Program, run: seq<World>, i: nat, r: RunnerId)
    requires Moved(p, run, i, r, Return)
    ensures Keeps(run, i, r) && CopiesAt(run[i + 1], r) == CopiesAt(run[i], r)
  {
    hide StopsForPreReqs, DocKeys, Returns, Continue;
  }

  lemma {:induction false} NextDocExplores(p: Program, run: seq<World>, i: nat, r: RunnerId)
    requires Moved(p, run, i, r, NextDoc) && r in run[i].flushers && Exploring(p, run, i, r)
    ensures r in run[i + 1].flushers && Exploring(p, run, i + 1, r)
  {
    hide Exploring, FrameOk;
    var f := run[i].flushers[r];
    var stack, frame := f.task.stack[..|f.task.stack| - 1], Top(f);
    var frame' := Frame(frame.t, frame.docs[1..], View(f.queue, frame.docs[0]));
    assert f.task.stack == stack + [frame];
    if FrameOk(p, run, i, r, frame) { FrameLater(p, run, i, r, frame, frame'); }
    NewTop(p, run, i, r, stack, frame, frame');
  }

  lemma {:induction false} LoadNextExplores(p: Program, run: seq<World>, i: nat, r: RunnerId, k: nat)
    requires Moved(p, run, i, r, LoadNext(k)) && r in run[i].flushers && Exploring(p, run, i, r)
    ensures r in run[i + 1].flushers && Exploring(p, run, i + 1, r)
  {
    hide Exploring, FrameOk, EnabledAt, DoAt;
    var f := run[i].flushers[r];
    var stack, frame := f.task.stack[..|f.task.stack| - 1], Top(f);
    var frame' := frame.(entries := frame.entries[k + 1..]);
    assert f.task.stack == stack + [frame];
    forall x | x in frame.entries ensures x in frame'.entries || x.id in CopiesAt(run[i + 1], r) {
      var n :| 0 <= n < |frame.entries| && frame.entries[n] == x;
      if n < k { assert x in frame.entries[..k]; }
      if n > k { assert frame'.entries[n - k - 1] == x; }
    }
    if FrameOk(p, run, i, r, frame) { FrameLater(p, run, i, r, frame, frame'); }
    NewTop(p, run, i, r, stack, frame, frame');
  }

  lemma {:induction false} LeaveExplores(p: Program, run: seq<World>, i: nat, r: RunnerId)
    requires Moved(p, run, i, r, Leave) && r in run[i].flushers && Exploring(p, run, i, r)
    ensures r in run[i + 1].flushers && Exploring(p, run, i + 1, r)
  {
    hide Exploring;
    var f := run[i].flushers[r];
    var stack := f.task.stack[..|f.task.stack| - 1];
    assert f.task.stack == stack + [Top(f)];
    Popped(p, run, i, r, stack, Top(f));
  }

  lemma {:induction false} BeginExplores(p: Program, run: seq<World>, i: nat, r: RunnerId)
    requires Moved(p, run, i, r, TxnFlusher.Begin) && r in run[i].flushers && Exploring(p, run, i, r)
    ensures r in run[i + 1].flushers && Exploring(p, run, i + 1, r)
  {
    hide Exploring, EnabledAt, DoAt;
    SameTask(p, run, i, r);
  }

  /** A goal is submitted or loaded, and entered. */
  lemma {:induction false} EntryExplores(p: Program, run: seq<World>, i: nat, r: RunnerId, m: TxnFlusher.Move)
    requires Moved(p, run, i, r, m) && r !in run[i].flushers && r in run[i + 1].flushers
    ensures Exploring(p, run, i + 1, r)
  {
    hide Obeys, StopsForPreReqs, DocKeys, Returns, CallsFor, EnabledAt, DoAt, AllKnown, View, Explored, FrameOk;
  }

  lemma {:induction false} Explores(p: Program, run: seq<World>, i: nat, r: RunnerId, m: TxnFlusher.Move)
    requires i + 1 < |run| && Moved(p, run, i, r, m) && TxnSafety.Inv(p, run[i].s)
    requires r in run[i + 1].flushers && !run[i + 1].flushers[r].task.Flushing?
    requires r in run[i].flushers ==>
      Settles(run[i], r) && (!run[i].flushers[r].task.Flushing? ==> Exploring(p, run, i, r))
    ensures Exploring(p, run, i + 1, r)
  {
    hide Moved, Exploring, Settles, TxnSafety.Inv;
    if r !in run[i].flushers {
      EntryExplores(p, run, i, r, m);
    } else {
      NotYetFlushing(p, run, i, r, m);
      match m
      case Act(a) => ActExplores(p, run, i, r, a);
      case Return => ReturnExplores(p, run, i, r);
      case NextDoc => NextDocExplores(p, run, i, r);
      case LoadNext(k) => LoadNextExplores(p, run, i, r, k);
      case Leave => LeaveExplores(p, run, i, r);
      case Begin => BeginExplores(p, run, i, r);
      case _ =>
    }
  }

  /** A flush does not go back to recursion, and a flusher that starts or gives up is gone. */
  lemma {:induction false} NotYetFlushing(p: Program, run: seq<World>, i: nat, r: RunnerId, m: TxnFlusher.Move)
    requires Moved(p, run, i, r, m) && r in run[i].flushers
    requires r in run[i + 1].flushers && !run[i + 1].flushers[r].task.Flushing?
    ensures !run[i].flushers[r].task.Flushing?
    ensures m.Act? || m.Return? || m.NextDoc? || m.LoadNext? || m.Leave? || m.Begin?
  {
    if m.Act? { RememberTask(p, run[i].s, run[i].flushers[r], run[i].s.runners[r].at, m.a); }
    hide Obeys, StopsForPreReqs, DocKeys, Returns, CallsFor, Enabled, Do, AllKnown, View, Remember;
  }

  // ---------------------------------------------------------------------------------------
  // Histories

  lemma {:induction false} HistoryExplores(p: Program, run: seq<World>, i: nat, r: RunnerId)
    requires IsHistory(p, run) && i < |run| && r in run[i].flushers && !run[i].flushers[r].task.Flushing?
    ensures Exploring(p, run, i, r)
  {
    hide Exploring, TxnSafety.Inv, Moved, Steps, Done;
    if i > 0 {
      var h := i - 1;
      var q, m := StepOf(p, run, h);
      HistoryInv(p, run, h);
      if q != r { OthersStay(p, run, h, q, m, r); }
      if r in run[h].flushers {
        HistoryStands(p, run, h, r);
        if !run[h].flushers[r].task.Flushing? { HistoryExplores(p, run, h, r); }
      }
      if q == r { Explores(p, run, h, r, m); } else { OthersExplore(p, run, h, q, m, r); }
    }
  }

  /**
   When a flusher builds its graph, each transaction it has seen is done, or asked for its
   pre-requisites at some moment; and since then, for each document of that transaction, there was a
   moment at which all transactions in the queue in memory were among those now seen.
   */
  lemma {:induction false} FlushKnows(p: Program, run: seq<World>, i: nat, r: RunnerId, m: map<Id, seq<Id>>, t: Id)
    requires IsHistory(p, run) && Moved(p, run, i, r, Flush(m)) && t in CopiesAt(run[i], r)
    ensures
      || Done(CopiesAt(run[i], r)[t])
      || (t in p && exists j: nat ::
            j < i && Asks(p, run, j, r, t) && forall d :: d in DocKeys(p[t]) ==> LookedAt(run, j, i, r, d, []))
  {
    FlushesFromRecursion(p, run, i, r, m);
    HistoryExplores(p, run, i, r);
    hide IsHistory, Moved, Asks, LookedAt, DocKeys, CopiesAt, Done;
    assert Accounted(p, run, i, r, Recursing([]), t);
  }

  lemma FlushesFromRecursion(p: Program, run: seq<World>, i: nat, r: RunnerId, m: map<Id, seq<Id>>)
    requires Moved(p, run, i, r, Flush(m))
    ensures r in run[i].flushers && run[i].flushers[r].task == Recursing([])
  {
    hide IsQueueGraph, CallsFor;
  }
}
