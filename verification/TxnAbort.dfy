/**
 What an abort does to the queues. One that follows failed assertions takes from the queue of each
 of its documents what the queue in memory names, before it is marked as aborted; one that resumes
 an abort found in the store takes nothing.
 */
module TxnAbort {
  import opened TxnGraph
  import opened Tokens
  import opened TxnProtocol
  import opened TxnSafety
  import opened FlushOrder
  import opened FlushWalk
  import opened TxnFlusher
  import opened TxnCareful

  /** The runner is on its way to marking a transaction as aborted. */
  predicate Aborts(w: World, r: RunnerId) {
    && r in w.flushers && r in w.s.runners
    && var at := w.s.runners[r].at; at.SettingAborting? || at.LostAbort? || at.PullingAborted?
  }

  /** At moment `i` the runner is in an abort that began with the action `first` at moment `j`. */
  ghost predicate AbortSince(p: Program, run: seq<World>, j: nat, i: nat, r: RunnerId, first: Action) {
    j < i < |run| && Moved(p, run, j, r, Act(first)) && forall k :: j < k <= i ==> Aborts(run[k], r)
  }

  /** No entry of `q` that a pull takes stands in the stored queue. */
  ghost predicate NoneLeft(w: World, d: DocKey, q: seq<Token>, pull: map<Id, Nonce>) {
    d in w.s.docs && forall i :: 0 <= i < |q| && Taken(q, pull, None, i) ==> q[i] !in w.s.docs[d].queue
  }

  ghost predicate Cleared(run: seq<World>, j: nat, i: nat, d: DocKey, q: seq<Token>, pull: map<Id, Nonce>)
    requires i < |run|
  {
    exists k :: j < k <= i && NoneLeft(run[k], d, q, pull)
  }

  /** Each document of the transaction is still to be pulled from, or has been. */
  ghost predicate Progress(p: Program, run: seq<World>, j: nat, i: nat, r: RunnerId)
    requires i < |run|
  {
    var w := run[i];
    && Inside(w, r) && w.s.runners[r].at.t in p
    && forall d :: d in OpDocs(p[w.s.runners[r].at.t]) ==>
      d in w.flushers[r].toPull || Cleared(run, j, i, d, InMemory(w, r, d), PullSet(w, r))
  }

  // ---------------------------------------------------------------------------------------
  // One step of an abort

  lemma {:induction false} OnlyActs(p: Program, w: World, r: RunnerId, m: Move)
    requires Legal(p, w, r, m) && Aborts(w, r) && Aborts(After(p, w, r, m), r)
    ensures m.Act?
  {
    hide Obeys, StopsForPreReqs, IsQueueGraph, CallsFor, Continue, Remember, EnabledAt, DoAt, DocKeys;
  }

  lemma {:induction false} AbortBegins(p: Program, w: World, r: RunnerId, first: Action)
    requires Legal(p, w, r, Act(first)) && (first.AssertFails? || first.StartAbort?)
    requires Aborts(After(p, w, r, Act(first)), r)
    ensures
      var w' := After(p, w, r, Act(first));
      && Inside(w', r) && w'.s.runners[r].at.t in p
      && w'.flushers[r].toPull == if first.AssertFails? then OpDocs(p[w'.s.runners[r].at.t]) else []
  {
    hide OpDocs, StopsForPreReqs, DocKeys;
  }

  /** What stays the same. */
  lemma {:induction false} AbortKeeps(p: Program, w: World, r: RunnerId, a: Action)
    requires TxnSafety.Inv(p, w.s) && Legal(p, w, r, Act(a)) && Aborts(w, r) && Aborts(After(p, w, r, Act(a)), r)
    ensures
      var w' := After(p, w, r, Act(a));
      && Inside(w', r) && w'.s.runners[r].at.t == w.s.runners[r].at.t
      && w'.flushers[r].queue == w.flushers[r].queue && PullSet(w', r) == PullSet(w, r)
      && (!a.PullAborted? ==> w'.flushers[r].toPull == w.flushers[r].toPull)
      && (a.PullAborted? ==> w.flushers[r].toPull != [] && w'.flushers[r].toPull == w.flushers[r].toPull[1..])
  {
    ActForward(p, w.s, r, a);
    assert RunnerOk(p, w.s.txns, w.s.runners[r]);
    hide TxnSafety.Inv, OpDocs, StopsForPreReqs, DocKeys, Pulled, Thinner, Planned, Matches, Without;
  }

  /** What a pull achieves. */
  lemma {:induction false} AbortPulls(p: Program, w: World, r: RunnerId, a: Action)
    requires Legal(p, w, r, Act(a)) && a.PullAborted?
    ensures
      var w' := After(p, w, r, Act(a));
      && w.flushers[r].toPull != [] && a.doc == w.flushers[r].toPull[0]
      && NoneLeft(w', a.doc, InMemory(w, r, a.doc), PullSet(w, r))
  {
    var q, pull := InMemory(w, r, a.doc), PullSet(w, r);
    forall i | 0 <= i < |q| && Taken(q, pull, None, i) ensures q[i] in Pulled(q, pull, None) {
      PulledIff(q, pull, None, q[i]);
    }
    hide OpDocs, StopsForPreReqs, DocKeys, Taken, Pulled, Thinner;
  }

  // ---------------------------------------------------------------------------------------
  // A whole abort

  lemma {:induction false} ProgressStep(p: Program, run: seq<World>, j: nat, i: nat, q: RunnerId, m: Move, r: RunnerId)
    requires Moved(p, run, i, q, m) && TxnSafety.Inv(p, run[i].s) && j < i
    requires Aborts(run[i], r) && Aborts(run[i + 1], r) && Progress(p, run, j, i, r)
    ensures Progress(p, run, j, i + 1, r)
  {
    hide Legal, After, OpDocs, NoneLeft, TxnSafety.Inv;
    var w, w' := run[i], run[i + 1];
    if q == r {
      OnlyActs(p, w, r, m);
      AbortKeeps(p, w, r, m.a);
      if m.a.PullAborted? { AbortPulls(p, w, r, m.a); }
    } else {
      OthersKeep(p, w, q, m, r);
    }
    forall d | d in OpDocs(p[w'.s.runners[r].at.t])
      ensures d in w'.flushers[r].toPull || Cleared(run, j, i + 1, d, InMemory(w', r, d), PullSet(w', r))
    {
      if d !in w'.flushers[r].toPull && d in w.flushers[r].toPull {
        assert NoneLeft(run[i + 1], d, InMemory(w', r, d), PullSet(w', r));
      }
    }
  }

  lemma SinceOneLess(p: Program, run: seq<World>, j: nat, i: nat, r: RunnerId, first: Action)
    requires AbortSince(p, run, j, i, r, first)
    ensures j < i < |run|
    ensures j + 1 < i ==> AbortSince(p, run, j, i - 1, r, first) && Aborts(run[i - 1], r)
    ensures Aborts(run[i], r)
    ensures Moved(p, run, j, r, Act(first)) && Aborts(run[j + 1], r)
  {
    hide Moved, Aborts;
  }

  lemma {:induction false} AbortProgress(p: Program, run: seq<World>, j: nat, i: nat, r: RunnerId)
    requires IsHistory(p, run) && AbortSince(p, run, j, i, r, AssertFails)
    ensures Progress(p, run, j, i, r)
  {
    hide IsHistory, AbortSince, Progress, Moved, TxnSafety.Inv, Aborts;
    SinceOneLess(p, run, j, i, r, AssertFails);
    if i == j + 1 {
      ProgressBegins(p, run, j, r);
    } else {
      AbortProgress(p, run, j, i - 1, r);
      HistoryInv(p, run, i - 1);
      var q, m := StepOf(p, run, i - 1);
      ProgressStep(p, run, j, i - 1, q, m, r);
    }
  }

  lemma {:induction false} ProgressBegins(p: Program, run: seq<World>, j: nat, r: RunnerId)
    requires Moved(p, run, j, r, Act(AssertFails)) && Aborts(run[j + 1], r)
    ensures Progress(p, run, j, j + 1, r)
  {
    AbortBegins(p, run[j], r, AssertFails);
    hide Legal, After, Cleared, OpDocs;
  }

  /**
   When a transaction whose assertions failed is marked as aborted, there is for each document of its
   operations a moment since at which none of the entries that the pull names stood in its queue.
   */
  lemma {:induction false} AbortTakesEntries(p: Program, run: seq<World>, j: nat, i: nat, r: RunnerId, n: nat)
    requires IsHistory(p, run) && AbortSince(p, run, j, i, r, AssertFails) && Moved(p, run, i, r, Act(SetAborted))
    requires n < |p[run[i].s.runners[r].at.t]|
    ensures
      var d := p[run[i].s.runners[r].at.t][n].doc;
      Cleared(run, j, i, d, InMemory(run[i], r, d), PullSet(run[i], r))
    ensures
      var t := run[i].s.runners[r].at.t;
      t in run[i + 1].s.txns && run[i + 1].s.txns[t].state == Aborted
  {
    AbortProgress(p, run, j, i, r);
    hide OpDocs, Cleared, After, StopsForPreReqs, EnabledAt;
    LastWrite(p, run[i], r);
  }

  lemma LastWrite(p: Program, w: World, r: RunnerId)
    requires Legal(p, w, r, Act(SetAborted))
    ensures w.flushers[r].toPull == []
    ensures
      var t, txns := w.s.runners[r].at.t, After(p, w, r, Act(SetAborted)).s.txns;
      t in txns && txns[t].state == Aborted
  {
    hide StopsForPreReqs, OpDocs, DocKeys, Remember;
  }

  /** So its own entry is gone at that moment from each queue in which the flusher has seen it. */
  lemma {:induction false} AbortTakesOwn(p: Program, run: seq<World>, j: nat, i: nat, r: RunnerId, n: nat)
    requires IsHistory(p, run) && AbortSince(p, run, j, i, r, AssertFails) && Moved(p, run, i, r, Act(SetAborted))
    requires n < |p[run[i].s.runners[r].at.t]|
    requires Valid(PullSet(run[i], r), OwnToken(run[i], r))
    requires OwnToken(run[i], r) in InMemory(run[i], r, p[run[i].s.runners[r].at.t][n].doc)
    ensures
      var d := p[run[i].s.runners[r].at.t][n].doc;
      exists k :: j < k <= i && d in run[k].s.docs && OwnToken(run[i], r) !in run[k].s.docs[d].queue
  {
    var d, own := p[run[i].s.runners[r].at.t][n].doc, OwnToken(run[i], r);
    var q, pull := InMemory(run[i], r, d), PullSet(run[i], r);
    AbortTakesEntries(p, run, j, i, r, n);
    hide IsHistory, AbortSince, Moved, Taken, Pulled;
    var k :| j < k <= i && NoneLeft(run[k], d, q, pull);
    var at :| 0 <= at < |q| && q[at] == own;
    OwnIsTaken(q, pull, at);
  }

  /** The entry of the transaction that the runner is in the middle of. */
  function OwnToken(w: World, r: RunnerId): Token
    requires Inside(w, r)
  {
    Token(w.s.runners[r].at.t, w.s.runners[r].copies[w.s.runners[r].at.t].nonce)
  }

  lemma OwnIsTaken(q: seq<Token>, pull: map<Id, Nonce>, at: nat)
    requires at < |q| && Valid(pull, q[at])
    ensures Taken(q, pull, None, at)
  {
    var j := LastValid(q, pull, at);
  }

  lemma LastValid(q: seq<Token>, pull: map<Id, Nonce>, at: nat) returns (j: nat)
    requires at < |q| && Valid(pull, q[at])
    ensures at <= j && LastOf(q, pull, j)
    decreases |q| - at
  {
    if i :| at < i < |q| && Valid(pull, q[i]) { j := LastValid(q, pull, i); } else { j := at; }
  }

  // ---------------------------------------------------------------------------------------
  // Resumed aborts

  lemma {:induction false} ResumedPullsNone(p: Program, run: seq<World>, j: nat, i: nat, r: RunnerId)
    requires IsHistory(p, run) && AbortSince(p, run, j, i, r, StartAbort)
    ensures r in run[i].flushers && run[i].flushers[r].toPull == []
  {
    hide IsHistory, AbortSince, TxnSafety.Inv, Legal, After;
    SinceOneLess(p, run, j, i, r, StartAbort);
    if i == j + 1 {
      AbortBegins(p, run[j], r, StartAbort);
    } else {
      ResumedPullsNone(p, run, j, i - 1, r);
      HistoryInv(p, run, i - 1);
      var q, m := StepOf(p, run, i - 1);
      if q == r {
        OnlyActs(p, run[i - 1], r, m);
        AbortKeeps(p, run[i - 1], r, m.a);
      } else {
        OthersKeep(p, run[i - 1], q, m, r);
      }
    }
  }

  /** An abort found in the store and resumed takes no entry from any queue. */
  lemma {:induction false} ResumedAbortPullsNothing(p: Program, run: seq<World>, j: nat, i: nat, r: RunnerId, a: Action)
    requires IsHistory(p, run) && AbortSince(p, run, j, i, r, StartAbort) && Moved(p, run, i, r, Act(a))
    ensures run[i + 1].s.docs == run[i].s.docs
  {
    ResumedPullsNone(p, run, j, i, r);
    hide IsHistory, OpDocs, StopsForPreReqs, DocKeys, Remember, RevnosFor;
  }
}
