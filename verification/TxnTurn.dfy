/**
 Which transactions plan in turn: all those that `advance` takes on without force. It has read each
 revision together with a queue in which nothing of others is ahead.
 */
module TxnTurn {
  import opened TxnGraph
  import opened Tokens
  import opened TxnProtocol
  import opened TxnSafety
  import opened TxnQueues
  import opened TxnOrder
  import opened FlushOrder
  import opened FlushWalk
  import opened TxnFlusher
  import opened TxnCareful

  // ---------------------------------------------------------------------------------------
  // No entry stands in a queue twice

  ghost predicate DistinctWorld(w: World) {
    && (forall d :: d in w.s.docs ==> DistinctTokens(w.s.docs[d].queue))
    && (forall r, d :: r in w.flushers && d in w.flushers[r].queue ==> DistinctTokens(w.flushers[r].queue[d]))
  }

  lemma DistinctWith(q: seq<Token>, x: Token)
    requires DistinctTokens(q)
    ensures DistinctTokens(WithToken(q, x))
  {
  }

  lemma {:induction false} DistinctWithout(q: seq<Token>, gone: seq<Token>)
    requires DistinctTokens(q)
    ensures DistinctTokens(Without(q, gone))
  {
    if q != [] {
      DistinctWithout(q[1..], gone);
      assert q[0] !in q[1..];
    }
  }

  /** How an action inside `advance` changes the queues, stored and in memory. */
  lemma {:induction false} ActQueues(p: Program, w: World, r: RunnerId, a: Action, d: DocKey)
    requires Legal(p, w, r, Act(a)) && d in After(p, w, r, Act(a)).s.docs && d in w.s.docs
    ensures
      var q, q' := w.s.docs[d].queue, After(p, w, r, Act(a)).s.docs[d].queue;
      q' == q || (exists x :: q' == WithToken(q, x)) || (exists gone :: q' == Without(q, gone))
  {
    hide StopsForPreReqs, Pulled, Without, WithToken, Revnos, RevnosFor, Covers, CoversWith, OnlyDocs, DocKeys, Kept,
      Thinner, Remember;
    var at, q, q' := w.s.runners[r].at, w.s.docs[d].queue, After(p, w, r, Act(a)).s.docs[d].queue;
    var f, nonce := w.flushers[r], w.s.runners[r].copies[at.t].nonce;
    match a
    case AddToken => assert q' == q || q' == WithToken(q, Token(at.t, at.nonce));
    case PullAborted(doc, kept) =>
      assert q' == q || q' == Without(q, Pulled(View(f.queue, doc), PullMap(f.call.value, nonce), None));
    case ApplyOp(kept) =>
      assert q' == q || q' == Without(q, Pulled(View(f.queue, d), PullMap(f.call.value, nonce),
                                                Kept(p[at.t], at.op, Token(at.t, nonce))));
    case _ =>
  }

  lemma {:induction false} ActMemory(p: Program, w: World, r: RunnerId, a: Action, d: DocKey)
    requires Legal(p, w, r, Act(a)) && r in w.flushers &&
      d in Remember(p, w.s, w.flushers[r], w.s.runners[r].at, a).queue
    requires DistinctWorld(w)
    ensures DistinctTokens(Remember(p, w.s, w.flushers[r], w.s.runners[r].at, a).queue[d])
  {
    var at := w.s.runners[r].at;
    if a.AddToken? && at.AddingTokens? && at.todo != [] && at.todo[0] in w.s.docs {
      DistinctWith(w.s.docs[at.todo[0]].queue, Token(at.t, at.nonce));
    }
    hide Legal, WithToken, DocKeys, OpDocs;
  }

  lemma {:induction false} DistinctNext(p: Program, w: World, r: RunnerId, mv: Move)
    requires TxnSafety.Inv(p, w.s) && Legal(p, w, r, mv) && DistinctWorld(w)
    ensures DistinctWorld(After(p, w, r, mv))
  {
    var w' := After(p, w, r, mv);
    StepIsAction(p, w, r, mv);
    ActionFacts(p, w.s, r, ActionOf(w, r, mv));
    if mv.Act? {
      ActsInside(p, w, r, mv);
      ActFlushers(p, w, r, mv.a);
      hide Legal, After, DistinctTokens, TxnSafety.Inv, Without, WithToken, Remember;
      forall d | d in w'.s.docs ensures DistinctTokens(w'.s.docs[d].queue) {
        var q := w.s.docs[d].queue;
        ActQueues(p, w, r, mv.a, d);
        if x :| w'.s.docs[d].queue == WithToken(q, x) { DistinctWith(q, x); }
        if gone :| w'.s.docs[d].queue == Without(q, gone) { DistinctWithout(q, gone); }
      }
      forall q, d | q in w'.flushers && d in w'.flushers[q].queue ensures DistinctTokens(w'.flushers[q].queue[d]) {
        if q == r { ActMemory(p, w, r, mv.a, d); }
      }
    } else {
      ElseQueues(p, w, r, mv);
      hide Legal, After, DistinctTokens, TxnSafety.Inv;
    }
  }

  lemma ActFlushers(p: Program, w: World, r: RunnerId, a: Action)
    requires Legal(p, w, r, Act(a)) && r in w.flushers
    ensures
      var w' := After(p, w, r, Act(a));
      && (forall q :: q in w'.flushers && q != r ==> q in w.flushers && w'.flushers[q] == w.flushers[q])
      && (r in w'.flushers ==> w'.flushers[r] == Remember(p, w.s, w.flushers[r], w.s.runners[r].at, a))
  {
    hide Obeys, Do, Enabled, Remember;
  }

  /** Between calls no queue changes, and what is new in memory is empty. */
  lemma {:induction false} ElseQueues(p: Program, w: World, r: RunnerId, mv: Move)
    requires Legal(p, w, r, mv) && !mv.Act?
    ensures After(p, w, r, mv).s.docs == w.s.docs
    ensures
      var w' := After(p, w, r, mv);
      forall q :: q in w'.flushers ==>
        (q in w.flushers && w'.flushers[q].queue == w.flushers[q].queue) || w'.flushers[q].queue == map[]
  {
    hide StopsForPreReqs, DocKeys, Returns, IsQueueGraph, CallsFor, EnabledAt, DoAt, AllKnown, View;
  }

  // ---------------------------------------------------------------------------------------
  // Revisions are read together with queues

  /** By moment `i` the queue `q` of `d` has been read together with its revision `v`. */
  ghost predicate ReadWith(run: seq<World>, i: nat, t: Id, d: DocKey, q: seq<Token>, v: int)
    requires i < |run|
  {
    exists j :: 0 <= j <= i && t in run[j].s.txns && d in run[j].s.docs
      && run[j].s.docs[d].queue == q && run[j].s.docs[d].revno == v
  }

  /** Each revision of `rev` was read with the queue now in memory. */
  ghost predicate AllReadWith(run: seq<World>, i: nat, t: Id, queue: Queues, rev: Revisions)
    requires i < |run|
  {
    forall d :: d in rev ==> d in queue && ReadWith(run, i, t, d, queue[d], rev[d])
  }

  ghost predicate AllHold(queue: Queues, rev: Revisions, token: Token) {
    forall d :: d in rev ==> token in View(queue, d)
  }

  /** The plan comes from revisions read with the queues in memory, all of which hold the entry. */
  ghost predicate PlanWith(run: seq<World>, i: nat, ops: seq<Op>, t: Id, queue: Queues, token: Token, revnos: seq<int>)
    requires i < |run|
  {
    exists rev :: Covers(ops, rev) && revnos == RevnosFor(ops, rev) && AllReadWith(run, i, t, queue, rev)
      && forall k :: 0 <= k < |ops| ==> token in View(queue, ops[k].doc)
  }

  ghost predicate PositionWith(run: seq<World>, i: nat, ops: seq<Op>, f: Flusher, at: Position, c: Txn)
    requires i < |run| && !at.Idle?
  {
    match at
    case AddingTokens(t, nonce, _, rev) =>
      AllReadWith(run, i, t, f.queue, rev) && AllHold(f.queue, rev, Token(t, nonce))
    case LostPrepare(t, rev) => AllReadWith(run, i, t, f.queue, rev)
    case Rescanning(t, _, rev) => AllReadWith(run, i, t, f.queue, rev) && AllHold(f.queue, rev, Token(t, c.nonce))
    case Asserting(t, revnos) => PlanWith(run, i, ops, t, f.queue, Token(t, c.nonce), revnos)
    case Checkpointing(t, revnos) =>
      PlanWith(run, i, ops, t, f.queue, Token(t, c.nonce), revnos)
      && (!IsForced(f) ==> !PreReqs(f.queue, Token(t, c.nonce), DocKeys(ops)))
    case _ => true
  }

  ghost predicate RunnerWith(p: Program, run: seq<World>, i: nat, r: RunnerId)
    requires i < |run|
  {
    var w := run[i];
    r in w.flushers && r in w.s.runners && !w.s.runners[r].at.Idle?
    && w.s.runners[r].at.t in p && w.s.runners[r].at.t in w.s.runners[r].copies ==>
      PositionWith(run, i, p[w.s.runners[r].at.t], w.flushers[r], w.s.runners[r].at,
                   w.s.runners[r].copies[w.s.runners[r].at.t])
  }

  lemma ReadWithLater(run: seq<World>, i: nat, j: nat, t: Id, d: DocKey, q: seq<Token>, v: int)
    requires i <= j < |run| && ReadWith(run, i, t, d, q, v)
    ensures ReadWith(run, j, t, d, q, v)
  {
  }

  lemma AllReadWithLater(run: seq<World>, i: nat, j: nat, t: Id, queue: Queues, rev: Revisions)
    requires i <= j < |run| && AllReadWith(run, i, t, queue, rev)
    ensures AllReadWith(run, j, t, queue, rev)
  {
    hide ReadWith;
    forall d | d in rev ensures d in queue && ReadWith(run, j, t, d, queue[d], rev[d]) {
      ReadWithLater(run, i, j, t, d, queue[d], rev[d]);
    }
  }

  lemma PlanWithLater(run: seq<World>, i: nat, j: nat, ops: seq<Op>, t: Id, queue: Queues, token: Token,
      revnos: seq<int>)
    requires i <= j < |run| && PlanWith(run, i, ops, t, queue, token, revnos)
    ensures PlanWith(run, j, ops, t, queue, token, revnos)
  {
    hide AllReadWith;
    var rev :| Covers(ops, rev) && revnos == RevnosFor(ops, rev) && AllReadWith(run, i, t, queue, rev)
      && forall k :: 0 <= k < |ops| ==> token in View(queue, ops[k].doc);
    AllReadWithLater(run, i, j, t, queue, rev);
  }

  lemma PositionWithLater(run: seq<World>, i: nat, j: nat, ops: seq<Op>, f: Flusher, at: Position, c: Txn)
    requires i <= j < |run| && !at.Idle? && PositionWith(run, i, ops, f, at, c)
    ensures PositionWith(run, j, ops, f, at, c)
  {
    hide AllReadWith, AllHold, PlanWith, PreReqs, DocKeys;
    match at
    case AddingTokens(t, _, _, rev) => AllReadWithLater(run, i, j, t, f.queue, rev);
    case LostPrepare(t, rev) => AllReadWithLater(run, i, j, t, f.queue, rev);
    case Rescanning(t, _, rev) => AllReadWithLater(run, i, j, t, f.queue, rev);
    case Asserting(t, revnos) => PlanWithLater(run, i, j, ops, t, f.queue, Token(t, c.nonce), revnos);
    case Checkpointing(t, revnos) => PlanWithLater(run, i, j, ops, t, f.queue, Token(t, c.nonce), revnos);
    case _ =>
  }

  lemma PlanWithMade(run: seq<World>, i: nat, ops: seq<Op>, t: Id, queue: Queues, token: Token, rev: Revisions)
    requires i < |run| && Covers(ops, rev) && AllReadWith(run, i, t, queue, rev)
    requires forall k :: 0 <= k < |ops| ==> token in View(queue, ops[k].doc)
    ensures PlanWith(run, i, ops, t, queue, token, Revnos(ops, rev))
  {
    hide AllReadWith;
  }

  /** One more document is read. */
  lemma ReadOneMore(run: seq<World>, i: nat, t: Id, queue: Queues, rev: Revisions, d: DocKey)
    requires i < |run| && AllReadWith(run, i, t, queue, rev) && t in run[i].s.txns && d in run[i].s.docs
    ensures
      var doc := run[i].s.docs[d];
      AllReadWith(run, i, t, queue[d := doc.queue], rev[d := doc.revno])
  {
    hide ReadWith;
    var doc := run[i].s.docs[d];
    assert ReadWith(run, i, t, d, doc.queue, doc.revno) by { ReadNow(run, i, t, d); }
  }

  lemma ReadNow(run: seq<World>, i: nat, t: Id, d: DocKey)
    requires i < |run| && t in run[i].s.txns && d in run[i].s.docs
    ensures ReadWith(run, i, t, d, run[i].s.docs[d].queue, run[i].s.docs[d].revno)
  {
  }

  /** The acting runner inside `advance`. */
  ghost predicate Actor(p: Program, run: seq<World>, i: nat, r: RunnerId, a: Action) {
    && i + 1 < |run| && TxnSafety.Inv(p, run[i].s) && Legal(p, run[i], r, Act(a)) &&
      run[i + 1] == After(p, run[i], r, Act(a))
    && RunnerWith(p, run, i, r) && TxnSafety.Inv(p, run[i + 1].s)
    && r in run[i + 1].flushers && r in run[i + 1].s.runners && !run[i + 1].s.runners[r].at.Idle?
  }

  lemma {:induction false} ActorReads(p: Program, run: seq<World>, i: nat, r: RunnerId, a: Action)
    requires Actor(p, run, i, r, a) && (a.AddToken? || a.RescanDoc?)
    ensures RunnerWith(p, run, i + 1, r)
  {
    var w := run[i];
    var at, f, ops := w.s.runners[r].at, w.flushers[r], p[w.s.runners[r].at.t];
    var next := i + 1;
    assert RunnerOk(p, w.s.txns, w.s.runners[r]);
    PositionWithLater(run, i, next, ops, f, at, w.s.runners[r].copies[at.t]);
    hide StopsForPreReqs, DocKeys, TxnSafety.Inv, ReadWith, PlanWith, WithToken, Matches, Thinner, OnlyDocs, CoversWith;
    assert at.todo[0] in w.s.docs;
    if a.AddToken? { HasToken(w.s.docs[at.todo[0]].queue, Token(at.t, at.nonce)); }
    ReadOneMore(run, next, at.t, f.queue, at.rev, at.todo[0]);
  }

  lemma HasToken(q: seq<Token>, x: Token)
    ensures x in WithToken(q, x)
  {
  }

  lemma {:induction false} ActorPlans(p: Program, run: seq<World>, i: nat, r: RunnerId, a: Action)
    requires Actor(p, run, i, r, a) && (a.SaveNonce? || a.ReloadAfterPrepare? || a.FinishRescan?)
    ensures RunnerWith(p, run, i + 1, r)
  {
    var w, next := run[i], i + 1;
    var at, f, ops, c := w.s.runners[r].at, w.flushers[r], p[w.s.runners[r].at.t],
      w.s.runners[r].copies[w.s.runners[r].at.t];
    assert RunnerOk(p, w.s.txns, w.s.runners[r]);
    PositionWithLater(run, i, next, ops, f, at, c);
    var token :=
      if a.SaveNonce? then Token(at.t, at.nonce)
      else if a.FinishRescan? then Token(at.t, c.nonce) else Token(at.t, w.s.txns[at.t].nonce);
    hide StopsForPreReqs, TxnSafety.Inv, ReadWith, PlanWith, WithToken, Matches, Thinner, OnlyDocs, DocKeys, View,
      AllReadWith, Revnos;
    DocKeysAll(ops);
    if AllHold(f.queue, at.rev, token) || (a.ReloadAfterPrepare? && Found(f.queue, token, DocKeys(ops))) {
      PlanWithMade(run, next, ops, at.t, f.queue, token, at.rev);
    }
  }

  lemma DocKeysAll(ops: seq<Op>)
    ensures forall k :: 0 <= k < |ops| ==> ops[k].doc in DocKeys(ops)
  {
  }

  /** The search for revisions begins, or a plan passes its assertions. */
  lemma {:induction false} ActorBegins(p: Program, run: seq<World>, i: nat, r: RunnerId, a: Action)
    requires Actor(p, run, i, r, a) && (a.StartPrepare? || a.StartRescan? || a.AssertHolds?)
    ensures RunnerWith(p, run, i + 1, r)
  {
    var w, next := run[i], i + 1;
    var at, f, ops, c := w.s.runners[r].at, w.flushers[r], p[w.s.runners[r].at.t],
      w.s.runners[r].copies[w.s.runners[r].at.t];
    PositionWithLater(run, i, next, ops, f, at, c);
    hide TxnSafety.Inv, ReadWith, PlanWith, OnlyDocs, DocKeys, View, PreReqs, Found, CoversWith;
  }

  /** All else leads to positions that say nothing of revisions. */
  lemma {:induction false} ActorElse(p: Program, run: seq<World>, i: nat, r: RunnerId, a: Action)
    requires Actor(p, run, i, r, a)
    requires !a.AddToken? && !a.RescanDoc? && !a.SaveNonce? && !a.ReloadAfterPrepare? && !a.FinishRescan?
    requires !a.StartPrepare? && !a.StartRescan? && !a.AssertHolds?
    ensures RunnerWith(p, run, i + 1, r)
  {
    ElseSilent(p, run[i].s, r, a);
    ActStep(p, run[i], r, a);
    hide TxnSafety.Inv, Legal, After, AllReadWith, AllHold, PlanWith, PreReqs, DocKeys, Enabled, Do;
  }

  lemma ActStep(p: Program, w: World, r: RunnerId, a: Action)
    requires Legal(p, w, r, Act(a))
    ensures Enabled(p, w.s, r, a) && !Outside(a) && After(p, w, r, Act(a)).s == Do(p, w.s, r, a)
  {
    hide Obeys, Do, Enabled, Remember;
  }

  lemma {:induction false} ElseSilent(p: Program, s: System, r: RunnerId, a: Action)
    requires Enabled(p, s, r, a) && !Outside(a)
    requires !a.AddToken? && !a.RescanDoc? && !a.SaveNonce? && !a.ReloadAfterPrepare? && !a.FinishRescan?
    requires !a.StartPrepare? && !a.StartRescan? && !a.AssertHolds?
    ensures
      var s' := Do(p, s, r, a);
      r in s'.runners ==>
        var at := s'.runners[r].at;
        !at.AddingTokens? && !at.LostPrepare? && !at.Rescanning? && !at.Asserting? && !at.Checkpointing?
  {
    hide WithToken, Matches, Thinner, OnlyDocs, CoversWith, Covers, Revnos, RevnosFor;
  }

  lemma {:induction false} RunnerWithNext(p: Program, run: seq<World>, i: nat, q: RunnerId, mv: Move, r: RunnerId)
    requires i + 1 < |run| && TxnSafety.Inv(p, run[i].s) && TxnSafety.Inv(p, run[i + 1].s)
    requires Legal(p, run[i], q, mv) && run[i + 1] == After(p, run[i], q, mv) && RunnerWith(p, run, i, r)
    requires r in run[i].flushers ==> r in run[i].s.runners
    ensures RunnerWith(p, run, i + 1, r)
  {
    if r != q {
      OthersKeep(p, run[i], q, mv, r);
      hide Legal, After, TxnSafety.Inv, PositionWith;
      OtherWith(p, run, i, r);
    } else if mv.Act? {
      if r in run[i + 1].flushers && r in run[i + 1].s.runners && !run[i + 1].s.runners[r].at.Idle? {
        hide Legal, After, TxnSafety.Inv, RunnerWith;
        assert Actor(p, run, i, r, mv.a);
        if mv.a.AddToken? || mv.a.RescanDoc? {
          ActorReads(p, run, i, r, mv.a);
        } else if mv.a.SaveNonce? || mv.a.ReloadAfterPrepare? || mv.a.FinishRescan? {
          ActorPlans(p, run, i, r, mv.a);
        } else if mv.a.StartPrepare? || mv.a.StartRescan? || mv.a.AssertHolds? {
          ActorBegins(p, run, i, r, mv.a);
        } else {
          ActorElse(p, run, i, r, mv.a);
        }
      }
    } else {
      ElsePosition(p, run[i], r, mv);
      hide Legal, After, TxnSafety.Inv;
    }
  }

  lemma OtherWith(p: Program, run: seq<World>, i: nat, r: RunnerId)
    requires i + 1 < |run| && RunnerWith(p, run, i, r)
    requires r in run[i].flushers ==> r in run[i].s.runners
    requires r in run[i + 1].flushers <==> r in run[i].flushers
    requires r in run[i].flushers ==> run[i + 1].flushers[r] == run[i].flushers[r]
    requires r in run[i].s.runners ==> r in run[i + 1].s.runners && run[i + 1].s.runners[r] == run[i].s.runners[r]
    ensures RunnerWith(p, run, i + 1, r)
  {
    var w := run[i];
    if r in w.flushers && !w.s.runners[r].at.Idle? && w.s.runners[r].at.t in p
       && w.s.runners[r].at.t in w.s.runners[r].copies {
      var at := w.s.runners[r].at;
      PositionWithLater(run, i, i + 1, p[at.t], w.flushers[r], at, w.s.runners[r].copies[at.t]);
    }
    hide PositionWith;
  }

  /** Outside `advance` a runner stands nowhere in particular. */
  lemma {:induction false} ElsePosition(p: Program, w: World, r: RunnerId, mv: Move)
    requires Legal(p, w, r, mv) && !mv.Act?
    ensures
      var w' := After(p, w, r, mv);
      r in w'.flushers && r in w'.s.runners ==> w'.s.runners[r].at.Idle? || w'.s.runners[r].at.Advancing?
  {
    hide StopsForPreReqs, DocKeys, Returns, IsQueueGraph, CallsFor, EnabledAt, DoAt, AllKnown, View;
  }

  /** Along a history. */
  lemma {:induction false} HistoryReads(p: Program, run: seq<World>, i: nat)
    requires IsHistory(p, run) && i < |run| && DistinctWorld(run[0])
    ensures TxnSafety.Inv(p, run[i].s) && DistinctWorld(run[i])
    ensures forall r :: RunnerWith(p, run, i, r) && (r in run[i].flushers ==> r in run[i].s.runners)
  {
    HistoryIsRun(p, run);
    RunInv(p, Systems(run), i);
    if i > 0 {
      var h := i - 1;
      HistoryReads(p, run, h);
      assert Steps(p, run[h], run[h + 1]);
      var q, mv :| Legal(p, run[h], q, mv) && run[h + 1] == After(p, run[h], q, mv);
      hide Legal, After, IsRun, TxnSafety.Inv, DistinctWorld, RunnerWith, Steps, Init, Settles;
      DistinctNext(p, run[h], q, mv);
      forall r ensures RunnerWith(p, run, i, r) && (r in run[i].flushers ==> r in run[i].s.runners) {
        RunnerWithNext(p, run, h, q, mv, r);
        if r in run[i].flushers { HistoryStands(p, run, i, r); FlusherRuns(run[i], r); }
      }
    }
  }

  lemma FlusherRuns(w: World, r: RunnerId)
    requires Settles(w, r)
    ensures r in w.s.runners
  {
  }

  // ---------------------------------------------------------------------------------------
  // Plans without force

  lemma NoneAhead(q: seq<Token>, token: Token)
    requires Alone(q, token)
    ensures forall x :: Ahead(q, x, token) ==> x.id == token.id
  {
    forall x | Ahead(q, x, token) ensures x.id == token.id {
      var a, b :| 0 <= a < b < |q| && q[a] == x && q[b] == token;
      assert token !in q[..a];
      assert !OtherAhead(q, token, a);
    }
  }

  lemma NoPreReqs(queue: Queues, token: Token, docs: seq<DocKey>, d: DocKey)
    requires !PreReqs(queue, token, docs) && d in docs
    ensures forall i :: !OtherAhead(View(queue, d), token, i)
  {
  }

  /** Nothing of others ahead in the queue that was read: the revision was read in turn. */
  lemma ReadIsInTurn(run: seq<World>, n: nat, t: Id, nonce: Nonce, d: DocKey, q: seq<Token>, v: int)
    requires n < |run| && ReadWith(run, n, t, d, q, v) && Alone(q, Token(t, nonce)) && Token(t, nonce) in q
    ensures ReadInTurn(Systems(run), n, t, nonce, d, v)
  {
    var j :| 0 <= j <= n && t in run[j].s.txns && d in run[j].s.docs
      && run[j].s.docs[d].queue == q && run[j].s.docs[d].revno == v;
    var token := Token(t, nonce);
    NoneAhead(q, token);
    assert InTurn(Systems(run)[j], t, nonce, d);
  }

  /** A transaction that is planned without force plans in turn. */
  lemma {:induction false} UnforcedInTurn(p: Program, run: seq<World>, n: nat, r: RunnerId, t: Id)
    requires IsHistory(p, run) && DistinctWorld(run[0]) && n + 1 < |run|
    requires Legal(p, run[n], r, Act(TxnProtocol.Checkpoint)) &&
      run[n + 1] == After(p, run[n], r, Act(TxnProtocol.Checkpoint))
    requires r in run[n].flushers && !IsForced(run[n].flushers[r]) && Checkpointed(run[n].s, run[n + 1].s, t)
    ensures t in p && PlannedInTurn(Systems(run), n, p[t], t, run[n + 1].s.txns[t])
  {
    HistoryReads(p, run, n);
    var w, x := run[n], run[n + 1].s.txns[t];
    var at, f := w.s.runners[r].at, w.flushers[r];
    CheckpointIs(p, w, r, t);
    assert RunnerOk(p, w.s.txns, w.s.runners[r]) && CopyOk(w.s.runners[r].copies[t], w.s.txns[t]);
    assert RunnerWith(p, run, n, r);
    hide Legal, After, IsHistory, TxnSafety.Inv, DistinctTokens, DocKeys, ReadWith, RunnerWith, RunnerOk;
    var ops, token := p[t], Token(t, x.nonce);
    var rev :| Covers(ops, rev) && x.revnos == RevnosFor(ops, rev) && AllReadWith(run, n, t, f.queue, rev)
      && forall k :: 0 <= k < |ops| ==> token in View(f.queue, ops[k].doc);
    DocKeysAll(ops);
    forall k | 0 <= k < |ops| && ops[k].change
      ensures ReadInTurn(Systems(run), n, t, x.nonce, ops[k].doc, rev[ops[k].doc])
    {
      var d := ops[k].doc;
      NoPreReqs(f.queue, token, DocKeys(ops), d);
      ReadIsInTurn(run, n, t, x.nonce, d, f.queue[d], rev[d]);
    }
  }

  /** Who makes the checkpoint, and of which plan. */
  lemma {:induction false} CheckpointIs(p: Program, w: World, r: RunnerId, t: Id)
    requires Legal(p, w, r, Act(TxnProtocol.Checkpoint))
    requires Checkpointed(w.s, After(p, w, r, Act(TxnProtocol.Checkpoint)).s, t)
    ensures r in w.s.runners && w.s.runners[r].at.Checkpointing? && w.s.runners[r].at.t == t && t in p
    ensures t in w.s.runners[r].copies && r in w.flushers
    ensures
      var x := After(p, w, r, Act(TxnProtocol.Checkpoint)).s.txns[t];
      x.revnos == w.s.runners[r].at.revnos && x.nonce == w.s.txns[t].nonce
  {
    hide Obeys, Remember;
  }

  // ---------------------------------------------------------------------------------------
  // What quiet histories keep

  /** The step plans a transaction without force. */
  ghost predicate PlansFreely(p: Program, w: World, w': World) {
    exists r :: Legal(p, w, r, Act(TxnProtocol.Checkpoint)) && w' == After(p, w, r, Act(TxnProtocol.Checkpoint))
      && r in w.flushers && !IsForced(w.flushers[r])
  }

  /** A quiet history in which what is forced has been read in turn too. */
  ghost predicate IsOrderlyHistory(p: Program, run: seq<World>) {
    && IsQuietHistory(p, run) && DistinctWorld(run[0])
    && forall n, t ::
         (0 <= n < |run| - 1 && Checkpointed(run[n].s, run[n + 1].s, t) && !PlansFreely(p, run[n], run[n + 1])) ==>
           t in p && PlannedInTurn(Systems(run), n, p[t], t, run[n + 1].s.txns[t])
  }

  lemma {:induction false} OrderlyIsOrdered(p: Program, run: seq<World>)
    requires IsOrderlyHistory(p, run)
    ensures IsOrderedRun(p, Systems(run))
  {
    QuietHistoryIsCareful(p, run);
    var plain := Systems(run);
    forall n, t | 0 <= n < |plain| - 1 && Checkpointed(plain[n], plain[n + 1], t)
      ensures t in p && PlannedInTurn(plain, n, p[t], t, plain[n + 1].txns[t])
    {
      assert Checkpointed(run[n].s, run[n + 1].s, t);
      if PlansFreely(p, run[n], run[n + 1]) {
        hide IsHistory, Legal, After, DistinctWorld, PlannedInTurn, IsCarefulRun, IsQuietHistory, Checkpointed,
          IsForced;
        var r :| Legal(p, run[n], r, Act(TxnProtocol.Checkpoint))
          && run[n + 1] == After(p, run[n], r, Act(TxnProtocol.Checkpoint))
          && r in run[n].flushers && !IsForced(run[n].flushers[r]);
        UnforcedInTurn(p, run, n, r, t);
      }
    }
  }

  /** In them each update of an applied transaction takes effect exactly once. */
  lemma {:induction false} OrderlyExactlyOnce(p: Program, run: seq<World>, i: nat, t: Id, k: nat) returns (n: nat)
    requires IsOrderlyHistory(p, run) && i < |run| && t in run[i].s.txns && run[i].s.txns[t].state == Applied
    requires t in p && k < |p[t]| && p[t][k].change
    ensures p[t][k].doc in run[i].s.docs
    ensures
      var log := run[i].s.docs[p[t][k].doc].log;
      n < |log| && log[n] == Effect(t, k) && forall m :: 0 <= m < |log| && log[m] == Effect(t, k) ==> m == n
  {
    OrderlyIsOrdered(p, run);
    hide IsOrderlyHistory, IsOrderedRun;
    n := OrderedExactlyOnce(p, Systems(run), i, t, k);
  }
}
