/**
 Which pulls of a flusher are careful: those of a transaction with nothing of others ahead in the
 queues in memory, and those of a flush that finds no more in them than when its graph was built.
 */
module TxnCareful {
  import opened TxnGraph
  import opened Tokens
  import opened TxnProtocol
  import opened TxnSafety
  import opened TxnQueues
  import opened FlushOrder
  import opened FlushWalk
  import opened TxnFlusher

  /** The flusher is about to pull entries of document `d`; `own` says whether its own may go. */
  ghost predicate Pulls(p: Program, w: World, r: RunnerId, a: Action, d: DocKey, dontPull: Option<Token>, own: bool) {
    && Legal(p, w, r, Act(a)) && d in w.s.docs
    && var at, c := w.s.runners[r].at, w.s.runners[r].copies[w.s.runners[r].at.t];
    || (a.PullAborted? && d == a.doc && dontPull == None && own)
    || (a.ApplyOp? && at.ApplyingOp? && at.t in p && at.op < |p[at.t]| && d == p[at.t][at.op].doc
        && dontPull == Kept(p[at.t], at.op, Token(at.t, c.nonce)) && own == IsPullOp(p[at.t], at.op))
  }

  function InMemory(w: World, r: RunnerId, d: DocKey): seq<Token> {
    if r in w.flushers then View(w.flushers[r].queue, d) else []
  }

  ghost function PullSet(w: World, r: RunnerId): map<Id, Nonce>
    requires Inside(w, r)
  {
    PullMap(w.flushers[r].call.value, w.s.runners[r].copies[w.s.runners[r].at.t].nonce)
  }

  /**
   A pull is careful exactly when each entry that, in the queue in memory, stands up to the last valid
   entry of a transaction it may pull, or is an outdated one of these, and is still stored, is one
   the flusher knows to be outdated or done, or its own at the right moment.
   */
  lemma {:induction false} CarefulIff(p: Program, w: World, r: RunnerId, a: Action, d: DocKey, dontPull: Option<Token>,
      own: bool)
    requires Pulls(p, w, r, a, d, dontPull, own)
    ensures
      var q, copies := InMemory(w, r, d), w.s.runners[r].copies;
      Careful(p, w.s, r, a) <==>
        forall i :: 0 <= i < |q| && Taken(q, PullSet(w, r), dontPull, i) && q[i] in w.s.docs[d].queue ==>
          MayPull(copies, w.s.runners[r].at.t, own, q[i])
  {
    var q, pull := InMemory(w, r, d), PullSet(w, r);
    var gone := Pulled(q, pull, dontPull);
    forall x ensures x in gone <==> exists i :: 0 <= i < |q| && q[i] == x && Taken(q, pull, dontPull, i) {
      PulledIff(q, pull, dontPull, x);
    }
    hide EnabledAt, Pulled, Taken, MayPull, IsPullOp, StopsForPreReqs;
    assert Careful(p, w.s, r, a) <==>
      PullsOk(w.s.runners[r].copies, w.s.runners[r].at.t, own, Without(w.s.docs[d].queue, gone), w.s.docs[d].queue);
  }

  // ---------------------------------------------------------------------------------------
  // A transaction alone

  /** Nothing of others is ahead of the transaction's own entry. */
  ghost predicate Alone(q: seq<Token>, token: Token) {
    DistinctTokens(q) && forall i :: !OtherAhead(q, token, i)
  }

  /** Outside a flush, a transaction pulls itself alone: with nothing of others ahead that is careful. */
  lemma {:induction false} AloneIsCareful(p: Program, w: World, r: RunnerId, a: Action, d: DocKey,
      dontPull: Option<Token>, own: bool)
    requires Inv(p, w.s) && Pulls(p, w, r, a, d, dontPull, own) && w.flushers[r].call.value.pull == None
    requires
      var t := w.s.runners[r].at.t;
      Alone(InMemory(w, r, d), Token(t, w.s.runners[r].copies[t].nonce))
    ensures Careful(p, w.s, r, a)
  {
    CarefulIff(p, w, r, a, d, dontPull, own);
    var t := w.s.runners[r].at.t;
    var q, copies, pull := InMemory(w, r, d), w.s.runners[r].copies, PullSet(w, r);
    HasNonce(p, w, r, a);
    var token := Token(t, copies[t].nonce);
    forall i | 0 <= i < |q| && Taken(q, pull, dontPull, i) ensures MayPull(copies, t, own, q[i]) {
      TakenAlone(q, t, copies[t].nonce, dontPull, i);
      OwnAtTheEnd(p, w, r, a, d, dontPull, own);
    }
  }

  /** A transaction that applies or aborts has its nonce. */
  lemma {:induction false} HasNonce(p: Program, w: World, r: RunnerId, a: Action)
    requires Inv(p, w.s) && Legal(p, w, r, Act(a)) && (a.PullAborted? || a.ApplyOp?)
    ensures w.s.runners[r].copies[w.s.runners[r].at.t].nonce != 0
  {
    var t := w.s.runners[r].at.t;
    assert RunnerOk(p, w.s.txns, w.s.runners[r]) && TxnsOk(p, w.s.txns);
    assert CopyOk(w.s.runners[r].copies[t], w.s.txns[t]) && StoredOk(p[t], w.s.txns[t]);
    hide Obeys, Planned, Thinner;
  }

  /** What goes alone: the transaction's entries; the valid one only where it is not to be kept. */
  lemma TakenAlone(q: seq<Token>, t: Id, nonce: Nonce, dontPull: Option<Token>, i: nat)
    requires i < |q| && Taken(q, map[t := nonce], dontPull, i) && Alone(q, Token(t, nonce))
    ensures q[i].id == t && (q[i].nonce == nonce ==> dontPull != Some(q[i]))
  {
    if j :| i < j && LastOf(q, map[t := nonce], j) {
      assert q[j] == Token(t, nonce);
      assert !OtherAhead(q, Token(t, nonce), i);
      assert Token(t, nonce) !in q[..i];
    }
  }

  /** The own entry is to be kept exactly as long as it may not go. */
  lemma OwnAtTheEnd(p: Program, w: World, r: RunnerId, a: Action, d: DocKey, dontPull: Option<Token>, own: bool)
    requires Pulls(p, w, r, a, d, dontPull, own)
    ensures
      var t := w.s.runners[r].at.t;
      dontPull != Some(Token(t, w.s.runners[r].copies[t].nonce)) <==> own
  {
    hide Obeys, EnabledAt, IsPullOp;
  }

  // ---------------------------------------------------------------------------------------
  // What a flusher knows

  predicate Done(c: Txn) { c.state == Applied || c.state == Aborted }

  /** All transactions it has seen have their nonce, except one that it has just been called for. */
  ghost predicate Settles(w: World, r: RunnerId) {
    r in w.flushers && r in w.s.runners && var f, run := w.flushers[r], w.s.runners[r];
    && (forall x :: x in run.copies ==>
          run.copies[x].state != Preparing || (f.task.Entering? && f.task.t == x))
    && (f.task.Entering? && f.call.Some? ==> f.call.value.id == f.task.t)
    && (f.call.Some? && run.at.Idle? ==> f.call.value.id in run.copies && Done(run.copies[f.call.value.id]))
  }

  /** The nonces the graph was built with are still those of the transactions. */
  ghost predicate Agree(seen: map<Id, Nonce>, copies: map<Id, Txn>) {
    forall x :: x in seen ==> x in copies && copies[x].state != Preparing && copies[x].nonce == seen[x]
  }

  /** A flush from the queues `base` is at its call `n`: all called before are done. */
  ghost predicate FlushAt(w: World, r: RunnerId, m: map<Id, seq<Id>>, base: Queues, seen: map<Id, Nonce>,
    calls: seq<Call>, n: nat)
  {
    r in w.flushers && r in w.s.runners && var f, run := w.flushers[r], w.s.runners[r];
    && IsQueueGraph(seen, base, m) && calls == CallsFor(seen, base, m, f.goal)
    && n <= |calls| && f.task == Flushing(calls[n..])
    && (f.call.Some? ==> n < |calls| && f.call.value == calls[n])
    && (f.call.Some? && run.at.Idle? ==> f.call.value.id in run.copies && Done(run.copies[f.call.value.id]))
    && Agree(seen, run.copies)
    && forall q :: 0 <= q < n ==> calls[q].id in run.copies && Done(run.copies[calls[q].id])
  }

  /** A copy moves forward: it keeps its nonce, and what is done stays done. */
  ghost predicate Forward(c: Txn, c': Txn) {
    && (c.state != Preparing ==> c'.state != Preparing && c'.nonce == c.nonce)
    && (Done(c) ==> Done(c'))
  }

  lemma {:induction false} ActForward(p: Program, s: System, r: RunnerId, a: Action)
    requires TxnSafety.Inv(p, s) && Enabled(p, s, r, a) && !Outside(a)
    ensures
      var s' := Do(p, s, r, a);
      r in s.runners && r in s'.runners && s'.runners[r].copies.Keys == s.runners[r].copies.Keys
      && (forall x :: x in s.runners[r].copies ==> Forward(s.runners[r].copies[x], s'.runners[r].copies[x]))
      && (a.SetApplied? ==> s'.runners[r].at.Idle? && s.runners[r].at.t in s'.runners[r].copies
                            && Done(s'.runners[r].copies[s.runners[r].at.t]))
  {
    EnabledRunner(p, s, r, a);
    assert RunnerOk(p, s.txns, s.runners[r]) && TxnsOk(p, s.txns);
    IsActing(p, s, r, a);
    var t := s.runners[r].at.t;
    assert CopyOk(s.runners[r].copies[t], s.txns[t]) && StoredOk(p[t], s.txns[t]);
    hide TxnSafety.Inv, RunnerOk, TxnsOk, Planned, Revnos, RevnosFor, Covers, CoversWith, WithToken, Matches, Thinner,
      OnlyDocs;
  }

  /** Runners that do not move keep their places and their memory. */
  lemma {:induction false} OthersKeep(p: Program, w: World, q: RunnerId, mv: Move, r: RunnerId)
    requires Legal(p, w, q, mv) && r != q
    ensures
      var w' := After(p, w, q, mv);
      && (r in w'.flushers <==> r in w.flushers) && (r in w.flushers ==> w'.flushers[r] == w.flushers[r])
      && (r in w.s.runners ==> r in w'.s.runners && w'.s.runners[r] == w.s.runners[r])
  {
    hide Obeys, StopsForPreReqs, CanFlush, CallsFor, Continue, Remember, Enabled, EnabledAt;
    if mv.Act? {
      ActKeepsOthers(p, w.s, q, mv.a, r);
    }
  }

  lemma {:induction false} ActKeepsOthers(p: Program, s: System, q: RunnerId, a: Action, r: RunnerId)
    requires Enabled(p, s, q, a) && !Outside(a) && r != q
    ensures r in s.runners ==> r in Do(p, s, q, a).runners && Do(p, s, q, a).runners[r] == s.runners[r]
  {
    hide Revnos, RevnosFor, Covers, CoversWith, WithToken, Matches, Thinner, OnlyDocs;
  }

  /** `advance` returns with the transaction done, or waiting with its nonce. */
  lemma {:induction false} ReturnsSettled(p: Program, w: World, r: RunnerId)
    requires TxnSafety.Inv(p, w.s) && Legal(p, w, r, Return) && Inside(w, r)
    ensures
      var c := w.s.runners[r].copies[w.s.runners[r].at.t];
      c.state != Preparing && (!StopsForPreReqs(p, w.flushers[r], w.s.runners[r]) ==> Done(c))
  {
    assert RunnerOk(p, w.s.txns, w.s.runners[r]);
    hide PreReqs, Found, DocKeys, CopyOk;
  }

  lemma {:induction false} SettlesAct(p: Program, w: World, r: RunnerId, a: Action)
    requires TxnSafety.Inv(p, w.s) && Legal(p, w, r, Act(a)) && Settles(w, r) && r in After(p, w, r, Act(a)).flushers
    ensures Settles(After(p, w, r, Act(a)), r)
  {
    ActForward(p, w.s, r, a);
    RememberTask(p, w.s, w.flushers[r], w.s.runners[r].at, a);
    hide TxnSafety.Inv, Obeys, Do, Enabled, Remember;
  }

  lemma RememberTask(p: Program, s: System, f: Flusher, at: Position, a: Action)
    requires !at.Idle?
    ensures
      var f' := Remember(p, s, f, at, a);
      f'.task == f.task && f'.call == f.call && f'.goal == f.goal
  {
    hide DocKeys, WithToken, OpDocs;
  }

  lemma {:induction false} SettlesReturn(p: Program, w: World, r: RunnerId)
    requires TxnSafety.Inv(p, w.s) && Legal(p, w, r, Return) && Settles(w, r)
    ensures Settles(After(p, w, r, Return), r)
  {
    if Inside(w, r) { ReturnsSettled(p, w, r); }
    hide TxnSafety.Inv, StopsForPreReqs, DocKeys, Returns;
  }

  lemma {:induction false} SettlesElse(p: Program, w: World, r: RunnerId, mv: Move)
    requires TxnSafety.Inv(p, w.s) && Legal(p, w, r, mv) && !mv.Act? && !mv.Return?
    requires r in w.flushers ==> Settles(w, r)
    requires r in After(p, w, r, mv).flushers
    ensures Settles(After(p, w, r, mv), r)
  {
    hide TxnSafety.Inv, StopsForPreReqs, DocKeys, Returns, IsQueueGraph, CallsFor, EnabledAt, DoAt, AllKnown, View;
  }

  lemma {:induction false} SettlesNext(p: Program, w: World, q: RunnerId, mv: Move, r: RunnerId)
    requires TxnSafety.Inv(p, w.s) && Legal(p, w, q, mv) && r in After(p, w, q, mv).flushers
    requires r in w.flushers ==> Settles(w, r)
    ensures Settles(After(p, w, q, mv), r)
  {
    hide TxnSafety.Inv, Legal, After;
    if r != q {
      OthersKeep(p, w, q, mv, r);
    } else if mv.Act? {
      ActsInside(p, w, q, mv);
      SettlesAct(p, w, q, mv.a);
    } else if mv.Return? {
      ActsInside(p, w, q, mv);
      SettlesReturn(p, w, q);
    } else {
      SettlesElse(p, w, q, mv);
    }
  }

  lemma ActsInside(p: Program, w: World, r: RunnerId, mv: Move)
    requires Legal(p, w, r, mv) && (mv.Act? || mv.Return?)
    ensures r in w.flushers
  {
    hide Obeys, Returns, Enabled;
  }

  // ---------------------------------------------------------------------------------------
  // Where a flush stands

  /** When the graph is built, the flush is at its first call. */
  lemma {:induction false} FlushBegins(p: Program, w: World, r: RunnerId, m: map<Id, seq<Id>>)
    requires Legal(p, w, r, Flush(m)) && Settles(w, r)
    ensures
      var w', f, seen := After(p, w, r, Flush(m)), w.flushers[r], Nonces(w.s.runners[r].copies);
      IsQueueGraph(seen, f.queue, m) && FlushAt(w', r, m, f.queue, seen, CallsFor(seen, f.queue, m, f.goal), 0)
  {
    hide IsQueueGraph, CallsFor;
    var f, seen := w.flushers[r], Nonces(w.s.runners[r].copies);
    var calls := CallsFor(seen, f.queue, m, f.goal);
    assert calls[0..] == calls;
  }

  lemma {:induction false} FlushAct(p: Program, w: World, r: RunnerId, a: Action, m: map<Id, seq<Id>>, base: Queues,
      seen: map<Id, Nonce>, calls: seq<Call>, n: nat)
    requires TxnSafety.Inv(p, w.s) && Legal(p, w, r, Act(a)) && FlushAt(w, r, m, base, seen, calls, n)
    requires r in After(p, w, r, Act(a)).flushers
    ensures FlushAt(After(p, w, r, Act(a)), r, m, base, seen, calls, n)
  {
    ActForward(p, w.s, r, a);
    RememberTask(p, w.s, w.flushers[r], w.s.runners[r].at, a);
    hide TxnSafety.Inv, Obeys, Do, Enabled, Remember, IsQueueGraph, CallsFor;
  }

  lemma {:induction false} FlushReturn(p: Program, w: World, r: RunnerId, m: map<Id, seq<Id>>, base: Queues,
      seen: map<Id, Nonce>, calls: seq<Call>, n: nat)
    requires TxnSafety.Inv(p, w.s) && Legal(p, w, r, Return) && FlushAt(w, r, m, base, seen, calls, n)
    ensures FlushAt(After(p, w, r, Return), r, m, base, seen, calls, n + 1)
  {
    if Inside(w, r) {
      ReturnsSettled(p, w, r);
      assert !StopsForPreReqs(p, w.flushers[r], w.s.runners[r]);
    }
    assert calls[n..][1..] == calls[n + 1..];
    hide TxnSafety.Inv, StopsForPreReqs, DocKeys, Returns, IsQueueGraph, CallsFor;
  }

  lemma {:induction false} FlushElse(p: Program, w: World, r: RunnerId, mv: Move, m: map<Id, seq<Id>>, base: Queues,
      seen: map<Id, Nonce>, calls: seq<Call>, n: nat)
    requires Legal(p, w, r, mv) && FlushAt(w, r, m, base, seen, calls, n) && !mv.Act? && !mv.Return?
    requires r in After(p, w, r, mv).flushers
    ensures FlushAt(After(p, w, r, mv), r, m, base, seen, calls, n)
  {
    hide StopsForPreReqs, DocKeys, Returns, IsQueueGraph, CallsFor, EnabledAt, DoAt, AllKnown, View;
  }

  /** A flush stays at its call, or goes on to the next. */
  lemma {:induction false} FlushNext(p: Program, w: World, q: RunnerId, mv: Move, r: RunnerId, m: map<Id, seq<Id>>,
      base: Queues, seen: map<Id, Nonce>, calls: seq<Call>, n: nat)
    requires TxnSafety.Inv(p, w.s) && Legal(p, w, q, mv) && FlushAt(w, r, m, base, seen, calls, n)
    requires r in After(p, w, q, mv).flushers
    ensures
      || FlushAt(After(p, w, q, mv), r, m, base, seen, calls, n)
      || FlushAt(After(p, w, q, mv), r, m, base, seen, calls, n + 1)
  {
    if r != q {
      hide TxnSafety.Inv, Legal, After, IsQueueGraph, CallsFor, Agree;
      OthersKeep(p, w, q, mv, r);
    } else {
      hide TxnSafety.Inv, Legal, After, FlushAt;
      if mv.Act? {
        FlushAct(p, w, q, mv.a, m, base, seen, calls, n);
      } else if mv.Return? {
        FlushReturn(p, w, q, m, base, seen, calls, n);
      } else {
        FlushElse(p, w, q, mv, m, base, seen, calls, n);
      }
    }
  }

  /** The queues in memory at moment `j`, when the flush began, are what the graph was built from. */
  ghost predicate Built(run: seq<World>, i: nat, r: RunnerId, m: map<Id, seq<Id>>, seen: map<Id, Nonce>,
    calls: seq<Call>, n: nat, j: nat)
  {
    && j < i < |run| && r in run[j].flushers && r in run[i].flushers
    && run[j].flushers[r].task == Recursing([])
    && FlushAt(run[i], r, m, run[j].flushers[r].queue, seen, calls, n)
  }

  ghost predicate FlushBuilt(run: seq<World>, i: nat, r: RunnerId) {
    exists m, seen, calls, n: nat, j: nat :: Built(run, i, r, m, seen, calls, n, j)
  }

  /** Every flusher of a history knows what it has seen, and in a flush stands where its graph put it. */
  lemma {:induction false} HistoryStands(p: Program, run: seq<World>, i: nat, r: RunnerId)
    requires IsHistory(p, run) && i < |run| && r in run[i].flushers
    ensures TxnSafety.Inv(p, run[i].s) && Settles(run[i], r)
    ensures run[i].flushers[r].task.Flushing? ==> FlushBuilt(run, i, r)
  {
    HistoryIsRun(p, run);
    RunInv(p, Systems(run), i);
    if i > 0 {
      var h := i - 1;
      assert Steps(p, run[h], run[h + 1]);
      var q, mv :| Legal(p, run[h], q, mv) && run[h + 1] == After(p, run[h], q, mv);
      hide Legal, After, IsRun, TxnSafety.Inv, Settles, FlushBuilt, Steps, Init;
      RunInv(p, Systems(run), h);
      if r in run[h].flushers { HistoryStands(p, run, h, r); }
      SettlesNext(p, run[h], q, mv, r);
      if run[i].flushers[r].task.Flushing? { BuiltNext(p, run, h, q, mv, r); }
    }
  }

  lemma {:induction false} BuiltNext(p: Program, run: seq<World>, h: nat, q: RunnerId, mv: Move, r: RunnerId)
    requires h + 1 < |run| && TxnSafety.Inv(p, run[h].s) && Legal(p, run[h], q, mv) &&
      run[h + 1] == After(p, run[h], q, mv)
    requires r in run[h + 1].flushers && run[h + 1].flushers[r].task.Flushing?
    requires r in run[h].flushers ==>
      Settles(run[h], r) && (run[h].flushers[r].task.Flushing? ==> FlushBuilt(run, h, r))
    ensures FlushBuilt(run, h + 1, r)
  {
    TaskBefore(p, run[h], q, mv, r);
    hide Legal, After, TxnSafety.Inv, Settles, FlushAt;
    if run[h].flushers[r].task.Flushing? {
      var m, seen, calls, n: nat, j: nat :| Built(run, h, r, m, seen, calls, n, j);
      FlushNext(p, run[h], q, mv, r, m, run[j].flushers[r].queue, seen, calls, n);
      assert Built(run, h + 1, r, m, seen, calls, n, j) || Built(run, h + 1, r, m, seen, calls, n + 1, j);
    } else {
      FlushBegins(p, run[h], r, mv.m);
      var f, seen := run[h].flushers[r], Nonces(run[h].s.runners[r].copies);
      assert Built(run, h + 1, r, mv.m, seen, CallsFor(seen, f.queue, mv.m, f.goal), 0, h);
    }
  }

  /** A flush begins with the building of its graph. */
  lemma {:induction false} TaskBefore(p: Program, w: World, q: RunnerId, mv: Move, r: RunnerId)
    requires Legal(p, w, q, mv) && r in After(p, w, q, mv).flushers && After(p, w, q, mv).flushers[r].task.Flushing?
    ensures r in w.flushers
    ensures
      || w.flushers[r].task.Flushing?
      || (q == r && mv.Flush? && r in w.s.runners && w.flushers[r].task == Recursing([]))
  {
    if r != q {
      hide Legal, After;
      OthersKeep(p, w, q, mv, r);
    } else if mv.Act? {
      ActsInside(p, w, q, mv);
      ActTask(p, w, q, mv.a);
    } else {
      hide StopsForPreReqs, DocKeys, Returns, IsQueueGraph, CallsFor, EnabledAt, DoAt, AllKnown, View;
    }
  }

  lemma ActTask(p: Program, w: World, r: RunnerId, a: Action)
    requires Legal(p, w, r, Act(a)) && r in w.flushers && r in After(p, w, r, Act(a)).flushers
    ensures After(p, w, r, Act(a)).flushers[r].task == w.flushers[r].task
  {
    RememberTask(p, w.s, w.flushers[r], w.s.runners[r].at, a);
    hide Obeys, Do, Enabled, Remember;
  }

  // ---------------------------------------------------------------------------------------
  // A flush that finds no more than it knew

  /**
   The queue `q` in memory, against the queue `b` the graph was built from: what is left of the old
   entries, all of transactions seen, in the old order, and behind them new ones, none of them a
   valid entry of a transaction that may be pulled.
   */
  ghost predicate Known(seen: map<Id, Nonce>, b: seq<Token>, q: seq<Token>, pull: map<Id, Nonce>) {
    && DistinctTokens(q) && KeepsOrder(seen, b, q)
    && exists k :: 0 <= k <= |q| && (forall x :: x in q[..k] ==> x.id in seen)
                   && forall x :: x in q[k..] ==> !Valid(pull, x)
  }

  lemma {:induction false} KnownPullsSeen(seen: map<Id, Nonce>, b: seq<Token>, q: seq<Token>, pull: map<Id, Nonce>,
      dontPull: Option<Token>, x: Token)
    requires Known(seen, b, q, pull) && x in Pulled(q, pull, dontPull) && forall y :: y in pull ==> y in seen
    ensures x.id in seen
  {
    var k :| 0 <= k <= |q| && (forall y :: y in q[..k] ==> y.id in seen) && forall y :: y in q[k..] ==> !Valid(pull, y);
    assert q == q[..k] + q[k..];
    forall y | y in pull ensures Token(y, pull[y]) !in q[k..] { assert Valid(pull, Token(y, pull[y])); }
    hide Pulled, KeepsOrder, DistinctTokens;
    PulledSeen(seen, q[..k], q[k..], pull, dontPull, x);
  }

  /** The entry is outdated, of a transaction called before, or the own one in time. */
  ghost predicate Takeable(seen: map<Id, Nonce>, calls: seq<Call>, n: nat, dontPull: Option<Token>, x: Token)
    requires n < |calls| && x.id in seen && calls[n].id in seen
  {
    || seen[x.id] != x.nonce
    || FlushWalk.Called(calls[..n], x.id)
    || (x == Token(calls[n].id, seen[calls[n].id]) && dontPull != Some(x))
  }

  /** What such a call takes: outdated entries, those of transactions called before, and the own one in time. */
  lemma {:induction false} KnownTakes(seen: map<Id, Nonce>, base: Queues, m: map<Id, seq<Id>>, calls: seq<Call>, n: nat,
      d: DocKey, q: seq<Token>, dontPull: Option<Token>, x: Token)
    requires IsFlush(seen, base, m, calls) && n < |calls| && calls[n].pull.Some? && calls[n].id in seen && d in base
    requires Known(seen, base[d], q, calls[n].pull.value) && x in Pulled(q, calls[n].pull.value, dontPull)
    ensures x.id in seen && Takeable(seen, calls, n, dontPull, x)
  {
    hide IsFlush, Pulled, KeepsOrder;
    PullIsSeen(seen, base, m, calls, n);
    KnownPullsSeen(seen, base[d], q, calls[n].pull.value, dontPull, x);
    if seen[x.id] == x.nonce {
      PullsOnlyAdvanced(seen, base, m, calls, n, d, q, dontPull, x);
      if x.id == calls[n].id && dontPull == Some(x) { OwnEntryStays(seen, base, m, calls, n, d, q, x); }
    }
  }

  lemma {:induction false} IsFlushOf(seen: map<Id, Nonce>, base: Queues, m: map<Id, seq<Id>>, goal: Id)
    requires IsQueueGraph(seen, base, m) && LeadsTo(m, goal)
    ensures IsFlush(seen, base, m, CallsFor(seen, base, m, goal))
  {
    hide IsQueueGraph, LeadsTo;
    GraphIsClosed(seen, base, m);
    ComponentsSeen(seen, base, m);
  }

  lemma CallFacts(w: World, r: RunnerId, m: map<Id, seq<Id>>, base: Queues, seen: map<Id, Nonce>, calls: seq<Call>,
      n: nat)
    requires FlushAt(w, r, m, base, seen, calls, n) && Inside(w, r)
    ensures n < |calls| && w.flushers[r].call.value == calls[n] && IsQueueGraph(seen, base, m)
    ensures calls == CallsFor(seen, base, m, w.flushers[r].goal)
    ensures calls[n].pull.Some? ==> PullSet(w, r) == calls[n].pull.value
  {
    hide IsQueueGraph, CallsFor;
  }

  lemma {:induction false} KnownMayGo(p: Program, w: World, r: RunnerId, a: Action, d: DocKey, dontPull: Option<Token>,
      own: bool, m: map<Id, seq<Id>>, base: Queues, seen: map<Id, Nonce>, calls: seq<Call>, n: nat, x: Token)
    requires TxnSafety.Inv(p, w.s) && Pulls(p, w, r, a, d, dontPull, own)
    requires FlushAt(w, r, m, base, seen, calls, n) && n < |calls|
    requires x.id in seen && calls[n].id in seen && Takeable(seen, calls, n, dontPull, x)
    ensures MayPull(w.s.runners[r].copies, w.s.runners[r].at.t, own, x)
  {
    OwnAtTheEnd(p, w, r, a, d, dontPull, own);
    assert RunnerOk(p, w.s.txns, w.s.runners[r]) && TxnsOk(p, w.s.txns);
    hide IsQueueGraph, CallsFor, Obeys, EnabledAt, IsPullOp, PositionOk, Planned;
    assert CopyOk(w.s.runners[r].copies[x.id], w.s.txns[x.id]) && StoredOk(p[x.id], w.s.txns[x.id]);
    if FlushWalk.Called(calls[..n], x.id) {
      var i :| 0 <= i < n && calls[i].id == x.id;
    }
  }

  /** The flusher, at a call of its flush, finds no more in the queue of `d` than when its graph was built. */
  ghost predicate FindsNoMore(w: World, r: RunnerId, d: DocKey, m: map<Id, seq<Id>>, base: Queues, seen: map<Id, Nonce>,
    calls: seq<Call>, n: nat)
  {
    && FlushAt(w, r, m, base, seen, calls, n) && Inside(w, r)
    && var f := w.flushers[r];
    LeadsTo(m, f.goal) && f.call.value.pull.Some? && f.call.value.id in seen
    && d in base && Known(seen, base[d], View(f.queue, d), f.call.value.pull.value)
  }

  lemma NoMoreFacts(w: World, r: RunnerId, d: DocKey, m: map<Id, seq<Id>>, base: Queues, seen: map<Id, Nonce>,
      calls: seq<Call>, n: nat)
    requires FindsNoMore(w, r, d, m, base, seen, calls, n)
    ensures n < |calls| && IsFlush(seen, base, m, calls) && calls[n].pull.Some? && calls[n].id in seen && d in base
    ensures Inside(w, r) && PullSet(w, r) == calls[n].pull.value
    ensures Known(seen, base[d], InMemory(w, r, d), calls[n].pull.value) && FlushAt(w, r, m, base, seen, calls, n)
  {
    hide IsQueueGraph, CallsFor, LeadsTo, Known, IsFlush;
    CallFacts(w, r, m, base, seen, calls, n);
    IsFlushOf(seen, base, m, w.flushers[r].goal);
  }

  ghost predicate TakesCare(p: Program, s: System, r: RunnerId, a: Action) {
    Enabled(p, s, r, a) && Careful(p, s, r, a)
  }

  /** It pulls carefully. */
  lemma {:induction false} NoMoreIsCareful(p: Program, w: World, r: RunnerId, a: Action, d: DocKey,
      dontPull: Option<Token>, own: bool, m: map<Id, seq<Id>>, base: Queues, seen: map<Id, Nonce>, calls: seq<Call>,
      n: nat)
    requires TxnSafety.Inv(p, w.s) && Pulls(p, w, r, a, d, dontPull, own)
    requires FindsNoMore(w, r, d, m, base, seen, calls, n)
    ensures TakesCare(p, w.s, r, a)
  {
    hide *;
    NoMoreFacts(w, r, d, m, base, seen, calls, n);
    IsInside(p, w, r, a, d, dontPull, own);
    CarefulIff(p, w, r, a, d, dontPull, own);
    var q, copies, t := InMemory(w, r, d), w.s.runners[r].copies, w.s.runners[r].at.t;
    forall i | 0 <= i < |q| && Taken(q, PullSet(w, r), dontPull, i) ensures MayPull(copies, t, own, q[i]) {
      PulledIff(q, PullSet(w, r), dontPull, q[i]);
      KnownTakes(seen, base, m, calls, n, d, q, dontPull, q[i]);
      KnownMayGo(p, w, r, a, d, dontPull, own, m, base, seen, calls, n, q[i]);
    }
    IsCare(p, w.s, r, a);
  }

  lemma IsCare(p: Program, s: System, r: RunnerId, a: Action)
    requires Enabled(p, s, r, a)
    ensures TakesCare(p, s, r, a) <==> Careful(p, s, r, a)
  {
  }

  lemma IsInside(p: Program, w: World, r: RunnerId, a: Action, d: DocKey, dontPull: Option<Token>, own: bool)
    requires Pulls(p, w, r, a, d, dontPull, own)
    ensures Inside(w, r) && d in w.s.docs && r in w.s.runners && !w.s.runners[r].at.Idle?
    ensures Enabled(p, w.s, r, a)
  {
    hide Obeys, Enabled;
  }

  // ---------------------------------------------------------------------------------------
  // Quiet histories

  /** Nothing stands in the way of a careful pull from `d`. */
  ghost predicate Quiet(w: World, r: RunnerId, d: DocKey) {
    Inside(w, r) && var f, t := w.flushers[r], w.s.runners[r].at.t;
    || (f.call.value.pull == None && Alone(View(f.queue, d), Token(t, w.s.runners[r].copies[t].nonce)))
    || exists m, base, seen, calls, n: nat :: FindsNoMore(w, r, d, m, base, seen, calls, n)
  }

  ghost predicate QuietStep(p: Program, w: World, r: RunnerId, mv: Move)
    requires Legal(p, w, r, mv)
  {
    mv.Act? ==>
      && (mv.a.PullAborted? ==> Quiet(w, r, mv.a.doc))
      && (mv.a.ApplyOp? && w.s.runners[r].at.ApplyingOp? && w.s.runners[r].at.t in p
          && w.s.runners[r].at.op < |p[w.s.runners[r].at.t]| ==>
            Quiet(w, r, p[w.s.runners[r].at.t][w.s.runners[r].at.op].doc))
  }

  ghost predicate QuietSteps(p: Program, w: World, w': World) {
    exists r, mv :: Legal(p, w, r, mv) && w' == After(p, w, r, mv) && QuietStep(p, w, r, mv)
  }

  /** A history over existing documents in which no pull meets entries it should not. */
  ghost predicate IsQuietHistory(p: Program, run: seq<World>) {
    && run != [] && First(run[0]) && Existing(run[0].s)
    && forall i :: 0 <= i < |run| - 1 ==> QuietSteps(p, run[i], run[i + 1])
  }

  lemma {:induction false} QuietIsCareful(p: Program, w: World, r: RunnerId, mv: Move)
    requires TxnSafety.Inv(p, w.s) && Legal(p, w, r, mv) && QuietStep(p, w, r, mv)
    ensures Enabled(p, w.s, r, ActionOf(w, r, mv)) && After(p, w, r, mv).s == Do(p, w.s, r, ActionOf(w, r, mv))
    ensures Careful(p, w.s, r, ActionOf(w, r, mv))
  {
    StepIsAction(p, w, r, mv);
    if mv.Act? && mv.a.PullAborted? {
      PullsAborted(p, w, r, mv.a);
      QuietPull(p, w, r, mv.a, mv.a.doc, None, true);
    } else if mv.Act? && mv.a.ApplyOp? {
      var d, dontPull, own := PullsApplied(p, w, r, mv.a);
      QuietPull(p, w, r, mv.a, d, dontPull, own);
    } else {
      hide Enabled, Do, Legal, After;
    }
  }

  lemma PullsAborted(p: Program, w: World, r: RunnerId, a: Action)
    requires Legal(p, w, r, Act(a)) && a.PullAborted?
    ensures Pulls(p, w, r, a, a.doc, None, true)
  {
    hide StopsForPreReqs, Pulled, Without;
  }

  lemma PullsApplied(p: Program, w: World, r: RunnerId, a: Action)
      returns (d: DocKey, dontPull: Option<Token>, own: bool)
    requires Legal(p, w, r, Act(a)) && a.ApplyOp?
    ensures Pulls(p, w, r, a, d, dontPull, own)
    ensures
      var at := w.s.runners[r].at;
      at.ApplyingOp? && at.t in p && at.op < |p[at.t]| && d == p[at.t][at.op].doc
  {
    hide StopsForPreReqs, Pulled, Without, IsPullOp;
    var at := w.s.runners[r].at;
    d := p[at.t][at.op].doc;
    dontPull := Kept(p[at.t], at.op, Token(at.t, w.s.runners[r].copies[at.t].nonce));
    own := IsPullOp(p[at.t], at.op);
  }

  lemma {:induction false} QuietPull(p: Program, w: World, r: RunnerId, a: Action, d: DocKey, dontPull: Option<Token>,
      own: bool)
    requires TxnSafety.Inv(p, w.s) && Pulls(p, w, r, a, d, dontPull, own) && Quiet(w, r, d)
    ensures TakesCare(p, w.s, r, a)
  {
    hide Pulls, TxnSafety.Inv, Careful, FindsNoMore, Alone, Enabled;
    IsInside(p, w, r, a, d, dontPull, own);
    if w.flushers[r].call.value.pull == None
       && Alone(InMemory(w, r, d), Token(w.s.runners[r].at.t, w.s.runners[r].copies[w.s.runners[r].at.t].nonce)) {
      AloneIsCareful(p, w, r, a, d, dontPull, own);
    } else {
      var m, base, seen, calls, n: nat :| FindsNoMore(w, r, d, m, base, seen, calls, n);
      NoMoreIsCareful(p, w, r, a, d, dontPull, own, m, base, seen, calls, n);
    }
  }

  /** Quiet histories are careful runs. */
  lemma {:induction false} QuietHistoryIsCareful(p: Program, run: seq<World>)
    requires IsQuietHistory(p, run)
    ensures IsHistory(p, run) && IsCarefulRun(p, Systems(run))
  {
    var plain := Systems(run);
    forall i | 0 <= i < |run| - 1 ensures Steps(p, run[i], run[i + 1]) {
      assert QuietSteps(p, run[i], run[i + 1]);
    }
    HistoryIsRun(p, run);
    forall i | 0 <= i < |plain| - 1 ensures CarefulNext(p, plain[i], plain[i + 1]) {
      RunInv(p, plain, i);
      assert QuietSteps(p, run[i], run[i + 1]);
      hide IsRun, IsHistory, IsQuietHistory, TxnSafety.Inv;
      QuietStepCareful(p, run[i], run[i + 1]);
    }
  }

  lemma {:induction false} QuietStepCareful(p: Program, w: World, w': World)
    requires TxnSafety.Inv(p, w.s) && QuietSteps(p, w, w')
    ensures CarefulNext(p, w.s, w'.s)
  {
    hide TxnSafety.Inv, Legal, After, QuietStep, Careful, Enabled, Do;
    var r, mv :| Legal(p, w, r, mv) && w' == After(p, w, r, mv) && QuietStep(p, w, r, mv);
    QuietIsCareful(p, w, r, mv);
  }

  /** So no rescan ever panics in them, and prepared transactions keep their entries. */
  lemma {:induction false} QuietNeverPanics(p: Program, run: seq<World>, i: nat, r: RunnerId)
    requires IsQuietHistory(p, run) && i < |run|
    ensures !RescanPanics(run[i].s, r)
    ensures forall t, k :: t in run[i].s.txns && run[i].s.txns[t].state == Prepared && t in p && 0 <= k < |p[t]| ==>
      Queued(run[i].s, p[t][k].doc, Token(t, run[i].s.txns[t].nonce))
  {
    QuietHistoryIsCareful(p, run);
    var plain := Systems(run);
    hide IsQuietHistory, IsHistory, IsCarefulRun;
    if RescanPanics(plain[i], r) { CarefulRescanNeverPanics(p, plain, i, r); }
    forall t, k | t in plain[i].txns && plain[i].txns[t].state == Prepared && t in p && 0 <= k < |p[t]|
      ensures Queued(plain[i], p[t][k].doc, Token(t, plain[i].txns[t].nonce))
    {
      PreparedStaysQueued(p, plain, i, t, k);
    }
  }
}
