/**
 What becomes of the updates of an applied transaction, over every run: whatever entries are
 pulled, an update is missing only where another transaction has taken its revision, or where its
 entry was gone when it was tried.
 */
module TxnTries {
  import opened TxnGraph
  import opened Tokens
  import opened TxnProtocol
  import opened TxnSafety
  import opened TxnQueues

  // ---------------------------------------------------------------------------------------
  // Plans are made from revisions that were read

  ghost predicate PositionRead(s: System, ops: seq<Op>, at: Position) {
    match at
    case AddingTokens(_, _, _, rev) => Read(s, rev)
    case LostPrepare(_, rev) => Read(s, rev)
    case Rescanning(_, _, rev) => Read(s, rev)
    case Asserting(_, revnos) => PlanRead(s, ops, revnos)
    case Checkpointing(_, revnos) => PlanRead(s, ops, revnos)
    case _ => true
  }

  ghost predicate PlansRead(p: Program, s: System) {
    && Existing(s)
    && (forall t :: t in s.txns ==> t in p && (Started(s.txns[t].state) ==> PlanRead(s, p[t], s.txns[t].revnos)))
    && (forall r :: r in s.runners && !s.runners[r].at.Idle? ==>
          s.runners[r].at.t in p && PositionRead(s, p[s.runners[r].at.t], s.runners[r].at))
  }

  lemma PositionReadStays(s: System, s': System, ops: seq<Op>, at: Position)
    requires DocsGrow(s, s') && PositionRead(s, ops, at)
    ensures PositionRead(s', ops, at)
  {
    hide DocsGrow, PlanRead, Read;
    match at
    case AddingTokens(_, _, _, rev) => ReadStays(s, s', rev);
    case LostPrepare(_, rev) => ReadStays(s, s', rev);
    case Rescanning(_, _, rev) => ReadStays(s, s', rev);
    case Asserting(_, revnos) => PlanStays(s, s', ops, revnos);
    case Checkpointing(_, revnos) => PlanStays(s, s', ops, revnos);
    case _ =>
  }

  lemma ReadNothing(s: System)
    ensures Read(s, map[])
  {
  }

  /** The runner that acts: where it stands after its step. */
  lemma {:induction false} ActorRead(p: Program, s: System, r: RunnerId, a: Action, s': System)
    requires Inv(p, s) && PlansRead(p, s) && Enabled(p, s, r, a) && s' == Do(p, s, r, a) && DocsGrow(s, s')
    requires !Outside(a) && r in s'.runners && !s'.runners[r].at.Idle?
    ensures s'.runners[r].at.t in p && PositionRead(s', p[s'.runners[r].at.t], s'.runners[r].at)
  {
    hide DocsGrow, PlanRead, Read, Revnos, RevnosFor, Planned, WithToken, Matches, Thinner, OnlyDocs, DocOk, TxnsOk,
      CopyOk, StoredOk;
    ReadNothing(s');
    EnabledRunner(p, s, r, a);
    assert RunnerOk(p, s.txns, s.runners[r]);
    IsActing(p, s, r, a);
    var at, ops := s.runners[r].at, p[s.runners[r].at.t];
    PositionReadStays(s, s', ops, at);
    if a.AddToken? || a.RescanDoc? { ReadOne(p, s, s', at.rev, at.todo[0]); }
    if a.SaveNonce? || a.ReloadAfterPrepare? || a.FinishRescan? { PlanMade(s', ops, at.rev); }
    hide Inv, PlansRead;
  }

  lemma {:induction false} StoredRead(p: Program, s: System, r: RunnerId, a: Action, s': System, t: Id)
    requires Inv(p, s) && PlansRead(p, s) && Enabled(p, s, r, a) && s' == Do(p, s, r, a) && DocsGrow(s, s')
    requires t in s'.txns
    ensures t in p && (Started(s'.txns[t].state) ==> PlanRead(s', p[t], s'.txns[t].revnos))
  {
    hide Do, Enabled, DocsGrow, PlanRead, PositionOk;
    if t !in s.txns {
      HowStoredStarts(p, s, r, a, t);
    } else if Started(s'.txns[t].state) {
      if s'.txns[t] != s.txns[t] {
        HowStoredChanges(p, s, r, a, t);
        assert RunnerOk(p, s.txns, s.runners[r]);
      }
      PlanStays(s, s', p[t], s'.txns[t].revnos);
    }
  }

  lemma {:induction false} PlansNext(p: Program, s: System, s': System)
    requires Inv(p, s) && PlansRead(p, s) && TxnProtocol.Next(p, s, s')
    ensures Inv(p, s') && DocsGrow(s, s') && PlansRead(p, s')
  {
    var r, a :| Enabled(p, s, r, a) && s' == Do(p, s, r, a);
    InvNext(p, s, s');
    Grows(p, s, s');
    OthersSame(p, s, r, a);
    hide Do, Enabled, Inv, PositionRead, DocsGrow, PlanRead;
    ExistingStays(s, s');
    forall t | t in s'.txns
      ensures t in p && (Started(s'.txns[t].state) ==> PlanRead(s', p[t], s'.txns[t].revnos))
    {
      StoredRead(p, s, r, a, s', t);
    }
    forall q | q in s'.runners && !s'.runners[q].at.Idle?
      ensures s'.runners[q].at.t in p && PositionRead(s', p[s'.runners[q].at.t], s'.runners[q].at)
    {
      if q != r {
        PositionReadStays(s, s', p[s.runners[q].at.t], s.runners[q].at);
      } else if Outside(a) {
        OutsideRead(p, s, r, a, s');
      } else {
        ActorRead(p, s, r, a, s');
      }
    }
  }

  lemma {:induction false} OutsideRead(p: Program, s: System, r: RunnerId, a: Action, s': System)
    requires Inv(p, s) && Enabled(p, s, r, a) && s' == Do(p, s, r, a) && Outside(a)
    requires r in s'.runners && !s'.runners[r].at.Idle?
    ensures s'.runners[r].at.t in p && s'.runners[r].at.Advancing?
  {
    hide EnabledAt, DoAt, PositionOk, DocOk;
    assert RunnerOk(p, s.txns, s.runners[r]) && TxnsOk(p, s.txns);
  }

  lemma {:induction false} PlansRun(p: Program, run: seq<System>, i: nat)
    requires IsRun(p, run) && Existing(run[0]) && i < |run|
    ensures Inv(p, run[i]) && PlansRead(p, run[i])
  {
    if i > 0 {
      PlansRun(p, run, i - 1);
      assert TxnProtocol.Next(p, run[i - 1], run[i - 1 + 1]);
      hide TxnProtocol.Next, PlansRead, Inv, IsRun;
      PlansNext(p, run[i - 1], run[i]);
    }
  }

  // ---------------------------------------------------------------------------------------
  // Tries

  /** The runner is about to try change `k` of `t` at the revision planned, and its entry is gone. */
  ghost predicate Gone(p: Program, s: System, r: RunnerId, t: Id, k: nat) {
    && r in s.runners && s.runners[r].at == ApplyingOp(t, k) && t in s.runners[r].copies && t in p
    && var c := s.runners[r].copies[t];
    k < |p[t]| && k < |c.revnos| && p[t][k].change && p[t][k].doc in s.docs
    && s.docs[p[t][k].doc].revno == c.revnos[k] && Token(t, c.nonce) !in s.docs[p[t][k].doc].queue
  }

  /** It tries at step `j`. */
  ghost predicate TriedGone(p: Program, run: seq<System>, j: nat, r: RunnerId, t: Id, k: nat) {
    && j + 1 < |run| && Gone(p, run[j], r, t, k)
    && r in run[j + 1].runners && run[j + 1].runners[r].at == ApplyingOp(t, k + 1)
  }

  /** Before moment `i` the change, or an earlier one of the same document, was tried without an entry. */
  ghost predicate WasGone(p: Program, run: seq<System>, i: nat, t: Id, k: nat)
    requires t in p && k < |p[t]|
  {
    exists j, r, l :: 0 <= j < i && 0 <= l <= k && p[t][l] == p[t][k] && TriedGone(p, run, j, r, t, l)
  }

  /** The document is past the revision planned for change `k`, or the entry was gone. */
  ghost predicate Accounted(p: Program, run: seq<System>, i: nat, t: Id, revnos: seq<int>, k: nat)
    requires i < |run| && t in p
  {
    k < |p[t]| && p[t][k].change ==> Settled(run[i], p[t], revnos, k) || WasGone(p, run, i, t, k)
  }

  ghost predicate AccountedTo(p: Program, run: seq<System>, i: nat, t: Id, revnos: seq<int>, n: nat)
    requires i < |run| && t in p
  {
    forall k: nat :: k < n ==> Accounted(p, run, i, t, revnos, k)
  }

  ghost predicate RunnerTried(p: Program, run: seq<System>, i: nat, r: Runner)
    requires i < |run|
  {
    && (forall t :: t in r.copies && t in p && r.copies[t].state == Applied ==>
          AccountedTo(p, run, i, t, r.copies[t].revnos, |p[t]|))
    && (r.at.ApplyingOp? && r.at.t in r.copies && r.at.t in p ==>
          AccountedTo(p, run, i, r.at.t, r.copies[r.at.t].revnos, r.at.op))
  }

  ghost predicate AllTried(p: Program, run: seq<System>, i: nat)
    requires i < |run|
  {
    && (forall t :: t in run[i].txns && t in p && run[i].txns[t].state == Applied ==>
          AccountedTo(p, run, i, t, run[i].txns[t].revnos, |p[t]|))
    && (forall r :: r in run[i].runners ==> RunnerTried(p, run, i, run[i].runners[r]))
  }

  lemma AccountedStays(p: Program, run: seq<System>, i: nat, t: Id, revnos: seq<int>, n: nat)
    requires i + 1 < |run| && t in p && DocsGrow(run[i], run[i + 1]) && AccountedTo(p, run, i, t, revnos, n)
    ensures AccountedTo(p, run, i + 1, t, revnos, n)
  {
    hide TriedGone;
    var next := i + 1;
    forall k: nat | k < n ensures Accounted(p, run, next, t, revnos, k) {
      assert Accounted(p, run, i, t, revnos, k);
      SettledOnce(run[i], run[next], p[t], revnos, k);
      if k < |p[t]| && p[t][k].change && WasGone(p, run, i, t, k) { assert WasGone(p, run, next, t, k); }
    }
  }

  lemma RunnerTriedStays(p: Program, run: seq<System>, i: nat, r: Runner)
    requires i + 1 < |run| && DocsGrow(run[i], run[i + 1]) && RunnerTried(p, run, i, r)
    ensures RunnerTried(p, run, i + 1, r)
  {
    hide DocsGrow, AccountedTo;
    forall t | t in r.copies && t in p && r.copies[t].state == Applied
      ensures AccountedTo(p, run, i + 1, t, r.copies[t].revnos, |p[t]|)
    {
      AccountedStays(p, run, i, t, r.copies[t].revnos, |p[t]|);
    }
    if r.at.ApplyingOp? && r.at.t in r.copies && r.at.t in p {
      AccountedStays(p, run, i, r.at.t, r.copies[r.at.t].revnos, r.at.op);
    }
  }

  /** The document of a change has reached the revision planned, if its transaction's changes before are past. */
  lemma ReachedOn(s: System, ops: seq<Op>, revnos: seq<int>, i: nat)
    requires PlanRead(s, ops, revnos) && i < |ops|
    requires forall j :: 0 <= j < i && ops[j] == Op(ops[i].doc, true) ==> Settled(s, ops, revnos, j)
    ensures i < |revnos| && ops[i].doc in s.docs
    ensures s.docs[ops[i].doc].first <= revnos[i] <= s.docs[ops[i].doc].revno
  {
    var rev :| Covers(ops, rev) && revnos == RevnosFor(ops, rev) && Read(s, rev);
    var d := ops[i].doc;
    PlanCounts(ops, rev, i);
    if ChangesBefore(ops, d, i) > 0 {
      var j := PreviousChange(ops, d, i);
      PlanCounts(ops, rev, j);
      assert Settled(s, ops, revnos, j);
    }
  }

  /** A try of a change brings its document past the revision planned, or finds the entry gone. */
  lemma {:induction false} TryAccounts(p: Program, run: seq<System>, i: nat, r: RunnerId, a: Action)
    requires i + 1 < |run| && Inv(p, run[i]) && PlansRead(p, run[i]) && DocsGrow(run[i], run[i + 1])
    requires Enabled(p, run[i], r, a) && a.ApplyOp? && run[i + 1] == Do(p, run[i], r, a)
    requires r in run[i].runners && RunnerTried(p, run, i + 1, run[i].runners[r])
    ensures
      var at := run[i].runners[r].at;
      at.t in run[i].runners[r].copies && at.t in p && r in run[i + 1].runners
      && run[i + 1].runners[r] == run[i].runners[r].(at := ApplyingOp(at.t, at.op + 1))
      && Accounted(p, run, i + 1, at.t, run[i].runners[r].copies[at.t].revnos, at.op)
  {
    var s, s' := run[i], run[i + 1];
    var at := s.runners[r].at;
    var ops, c := p[at.t], s.runners[r].copies[at.t];
    assert RunnerOk(p, s.txns, s.runners[r]) && CopyOk(c, s.txns[at.t]);
    assert PlanRead(s, ops, c.revnos);
    hide Inv, PlansRead, PlanRead, Read, Thinner, Revnos, Covers, CoversWith, PositionOk, AccountedTo, WasGone,
      OnlyDocs;
    var k := at.op;
    if ops[k].change && !WasGone(p, run, i + 1, at.t, k) {
      forall j | 0 <= j < k && ops[j] == Op(ops[k].doc, true) ensures Settled(s', ops, c.revnos, j) {
        EarlierSettled(p, run, i + 1, at.t, c.revnos, j, k);
      }
      PlanStays(s, s', ops, c.revnos);
      ReachedOn(s', ops, c.revnos, k);
      if s.docs[ops[k].doc].revno == c.revnos[k] && Token(at.t, c.nonce) !in s.docs[ops[k].doc].queue {
        assert TriedGone(p, run, i, r, at.t, k);
        NowGone(p, run, i, r, at.t, k);
      }
    }
  }

  lemma NowGone(p: Program, run: seq<System>, i: nat, r: RunnerId, t: Id, k: nat)
    requires t in p && k < |p[t]| && TriedGone(p, run, i, r, t, k)
    ensures WasGone(p, run, i + 1, t, k)
  {
    hide TriedGone;
  }

  lemma EarlierSettled(p: Program, run: seq<System>, i: nat, t: Id, revnos: seq<int>, j: nat, k: nat)
    requires i < |run| && t in p && j < k < |p[t]| && p[t][j] == p[t][k] && p[t][k].change
    requires AccountedTo(p, run, i, t, revnos, k) && !WasGone(p, run, i, t, k)
    ensures Settled(run[i], p[t], revnos, j)
  {
    assert Accounted(p, run, i, t, revnos, j);
    hide TriedGone, Settled;
  }

  lemma OneMoreAccounted(p: Program, run: seq<System>, i: nat, t: Id, revnos: seq<int>, n: nat)
    requires i < |run| && t in p && AccountedTo(p, run, i, t, revnos, n) && Accounted(p, run, i, t, revnos, n)
    ensures AccountedTo(p, run, i, t, revnos, n + 1)
  {
    hide Accounted;
  }

  lemma NothingAccounted(p: Program, run: seq<System>, i: nat, t: Id, revnos: seq<int>)
    requires i < |run| && t in p
    ensures AccountedTo(p, run, i, t, revnos, 0)
  {
  }

  /** What the acting runner does to its copies: one is loaded, or is its current one and changes. */
  lemma {:induction false} ActorCopies(p: Program, s: System, r: RunnerId, a: Action, t: Id)
    requires Inv(p, s) && Enabled(p, s, r, a) && r in Do(p, s, r, a).runners
    requires t in Do(p, s, r, a).runners[r].copies && Do(p, s, r, a).runners[r].copies[t].state == Applied
    ensures
      var c := Do(p, s, r, a).runners[r].copies[t];
      || (r in s.runners && t in s.runners[r].copies && c == s.runners[r].copies[t])
      || (t in s.txns && c == s.txns[t])
      || (a.FinishOps? && r in s.runners && s.runners[r].at.ApplyingOp? && s.runners[r].at.t == t
          && t in s.runners[r].copies && c == s.runners[r].copies[t].(state := Applied)
          && t in p && s.runners[r].at.op >= |p[t]|)
  {
    hide Revnos, RevnosFor, CoversWith, Covers, WithToken, Matches, Thinner, OnlyDocs, Inv;
  }

  /** How a runner comes to be applying. */
  lemma {:induction false} ActorApplies(p: Program, s: System, r: RunnerId, a: Action)
    requires Enabled(p, s, r, a) && r in Do(p, s, r, a).runners && Do(p, s, r, a).runners[r].at.ApplyingOp?
    requires !a.ApplyOp?
    ensures Do(p, s, r, a).runners[r].at.op == 0
  {
    hide Revnos, RevnosFor, CoversWith, Covers, WithToken, Matches, Thinner, OnlyDocs;
  }

  lemma {:induction false} ActorTried(p: Program, run: seq<System>, i: nat, r: RunnerId, a: Action)
    requires i + 1 < |run| && Inv(p, run[i]) && PlansRead(p, run[i]) && DocsGrow(run[i], run[i + 1])
    requires Enabled(p, run[i], r, a) && run[i + 1] == Do(p, run[i], r, a) && AllTried(p, run, i)
    requires r in run[i + 1].runners
    ensures RunnerTried(p, run, i + 1, run[i + 1].runners[r])
  {
    var s, s' := run[i], run[i + 1];
    hide Do, Enabled, Inv, PlansRead, DocsGrow, AccountedTo, Accounted;
    var next := i + 1;
    if r in s.runners { RunnerTriedStays(p, run, i, s.runners[r]); }
    if a.ApplyOp? {
      EnabledRunner(p, s, r, a);
      TryAccounts(p, run, i, r, a);
      var at := s.runners[r].at;
      OneMoreAccounted(p, run, next, at.t, s.runners[r].copies[at.t].revnos, at.op);
    } else {
      forall t | t in s'.runners[r].copies && t in p && s'.runners[r].copies[t].state == Applied
        ensures AccountedTo(p, run, next, t, s'.runners[r].copies[t].revnos, |p[t]|)
      {
        ActorCopies(p, s, r, a, t);
        if t in s.txns && s'.runners[r].copies[t] == s.txns[t] {
          AccountedStays(p, run, i, t, s.txns[t].revnos, |p[t]|);
        } else if a.FinishOps? && !(t in s.runners[r].copies && s'.runners[r].copies[t] == s.runners[r].copies[t]) {
          AccountedFirst(p, run, next, t, s.runners[r].copies[t].revnos, s.runners[r].at.op, |p[t]|);
        }
      }
      if s'.runners[r].at.ApplyingOp? && s'.runners[r].at.t in p && s'.runners[r].at.t in s'.runners[r].copies {
        ActorApplies(p, s, r, a);
        var t := s'.runners[r].at.t;
        NothingAccounted(p, run, next, t, s'.runners[r].copies[t].revnos);
      }
    }
  }

  lemma AccountedFirst(p: Program, run: seq<System>, i: nat, t: Id, revnos: seq<int>, n: nat, m: nat)
    requires i < |run| && t in p && m <= n && AccountedTo(p, run, i, t, revnos, n)
    ensures AccountedTo(p, run, i, t, revnos, m)
  {
    hide Accounted;
  }

  /** A stored transaction becomes applied only by a runner whose copy is. */
  lemma {:induction false} AppliedByCopy(p: Program, s: System, r: RunnerId, a: Action, t: Id)
    requires Inv(p, s) && Enabled(p, s, r, a) && t in s.txns && t in Do(p, s, r, a).txns
    requires Do(p, s, r, a).txns[t] != s.txns[t] && Do(p, s, r, a).txns[t].state == Applied
    ensures r in s.runners && t in s.runners[r].copies && s.runners[r].copies[t].state == Applied
    ensures s.runners[r].copies[t].revnos == Do(p, s, r, a).txns[t].revnos
  {
    hide Do, Enabled;
    HowStoredChanges(p, s, r, a, t);
    assert RunnerOk(p, s.txns, s.runners[r]);
    hide Inv;
    assert CopyOk(s.runners[r].copies[t], s.txns[t]);
  }

  lemma {:induction false} StoredTried(p: Program, run: seq<System>, i: nat, r: RunnerId, a: Action, t: Id)
    requires i + 1 < |run| && Inv(p, run[i]) && DocsGrow(run[i], run[i + 1]) && AllTried(p, run, i)
    requires Enabled(p, run[i], r, a) && run[i + 1] == Do(p, run[i], r, a)
    requires t in p && t in run[i + 1].txns && run[i + 1].txns[t].state == Applied
    ensures AccountedTo(p, run, i + 1, t, run[i + 1].txns[t].revnos, |p[t]|)
  {
    hide Do, Enabled, Inv, DocsGrow, AccountedTo, Accounted;
    var s, s' := run[i], run[i + 1];
    if t !in s.txns {
      HowStoredStarts(p, s, r, a, t);
      assert false;
    } else {
      if s'.txns[t] != s.txns[t] {
        AppliedByCopy(p, s, r, a, t);
        assert RunnerTried(p, run, i, s.runners[r]);
      }
      AccountedStays(p, run, i, t, s'.txns[t].revnos, |p[t]|);
    }
  }

  lemma {:induction false} AllTriedRun(p: Program, run: seq<System>, i: nat)
    requires IsRun(p, run) && Existing(run[0]) && i < |run|
    ensures AllTried(p, run, i)
  {
    if i > 0 {
      var h := i - 1;
      AllTriedRun(p, run, h);
      PlansRun(p, run, h);
      assert TxnProtocol.Next(p, run[h], run[h + 1]);
      PlansNext(p, run[h], run[h + 1]);
      var r, a :| Enabled(p, run[h], r, a) && run[h + 1] == Do(p, run[h], r, a);
      OthersSame(p, run[h], r, a);
      hide Do, Enabled, Inv, PlansRead, DocsGrow, AccountedTo, RunnerTried, TxnProtocol.Next, IsRun, Existing;
      forall t | t in run[i].txns && t in p && run[i].txns[t].state == Applied
        ensures AccountedTo(p, run, i, t, run[i].txns[t].revnos, |p[t]|)
      {
        StoredTried(p, run, h, r, a, t);
      }
      forall q | q in run[i].runners ensures RunnerTried(p, run, i, run[i].runners[q]) {
        if q == r { ActorTried(p, run, h, r, a); } else { RunnerTriedStays(p, run, h, run[h].runners[q]); }
      }
    }
  }

  // ---------------------------------------------------------------------------------------
  // When an update is missing

  /** Another transaction has changed the document at the revision planned. */
  ghost predicate Overtaken(p: Program, s: System, t: Id, k: nat)
    requires t in p && k < |p[t]| && t in s.txns && k < |s.txns[t].revnos| && p[t][k].doc in s.docs
  {
    exists e :: e in s.docs[p[t][k].doc].log && e.txn != t && Clash(p, s, t, k, e.txn, e.op)
  }

  /**
   An update of an applied transaction is missing exactly when another transaction has taken its
   revision, or its document has not come past that revision because the entry, at a try of this
   change or of an earlier one of the same document, was gone.
   */
  lemma {:induction false} MissingIff(p: Program, run: seq<System>, i: nat, t: Id, k: nat)
    requires IsRun(p, run) && Existing(run[0]) && i < |run| && t in run[i].txns && run[i].txns[t].state == Applied
    requires t in p && k < |p[t]| && p[t][k].change
    ensures p[t][k].doc in run[i].docs && k < |run[i].txns[t].revnos|
    ensures
      var d, revno := run[i].docs[p[t][k].doc], run[i].txns[t].revnos[k];
      Effect(t, k) !in d.log <==>
        Overtaken(p, run[i], t, k) || (d.revno <= revno && WasGone(p, run, i, t, k))
  {
    PlansRun(p, run, i);
    AllTriedRun(p, run, i);
    var s, ops, x := run[i], p[t], run[i].txns[t];
    assert AccountedTo(p, run, i, t, x.revnos, |ops|) && Accounted(p, run, i, t, x.revnos, k);
    assert StoredOk(ops, x) && PlanRead(s, ops, x.revnos);
    PlanPlaces(s, ops, x.revnos, k);
    var d, revno := s.docs[ops[k].doc], x.revnos[k];
    assert DocOk(p, s.txns, ops[k].doc, d);
    hide IsRun, Inv, PlansRead, AllTried, AccountedTo, Accounted, WasGone, PlanRead, DocOk;
    EffectPlaces(p, s.txns, ops[k].doc, d);
    if revno < d.revno {
      var e := d.log[revno - d.first];
      assert e in d.log;
      if e.txn == t {
        if k < e.op { PlanGrows(ops, x.revnos, k, e.op); }
        if e.op < k { PlanGrows(ops, x.revnos, e.op, k); }
      } else {
        assert Clash(p, s, t, k, e.txn, e.op);
      }
    }
  }

  lemma PlanPlaces(s: System, ops: seq<Op>, revnos: seq<int>, k: nat)
    requires PlanRead(s, ops, revnos) && k < |ops|
    ensures k < |revnos| && ops[k].doc in s.docs && s.docs[ops[k].doc].first <= revnos[k]
  {
    var rev :| Covers(ops, rev) && revnos == RevnosFor(ops, rev) && Read(s, rev);
    PlanCounts(ops, rev, k);
    ChangesGrow(ops, ops[k].doc, 0, k);
  }

  /** Each effect stands at the revision its transaction planned. */
  lemma EffectPlaces(p: Program, txns: map<Id, Txn>, key: DocKey, d: Doc)
    requires DocOk(p, txns, key, d)
    ensures d.revno == d.first + |d.log|
    ensures forall e :: e in d.log ==>
      && e.txn in txns && e.txn in p && Started(txns[e.txn].state) && e.op < |p[e.txn]|
      && p[e.txn][e.op] == Op(key, true) && e.op < |txns[e.txn].revnos|
      && d.first <= txns[e.txn].revnos[e.op] < d.revno && d.log[txns[e.txn].revnos[e.op] - d.first] == e
  {
    forall e | e in d.log
      ensures
        && e.txn in txns && e.txn in p && Started(txns[e.txn].state) && e.op < |p[e.txn]|
        && p[e.txn][e.op] == Op(key, true) && e.op < |txns[e.txn].revnos|
        && d.first <= txns[e.txn].revnos[e.op] < d.revno && d.log[txns[e.txn].revnos[e.op] - d.first] == e
    {
      var n :| 0 <= n < |d.log| && d.log[n] == e;
      assert EffectOk(p, txns, key, d.log[n], d.first + n);
    }
  }

  /** Documents that exist now existed at the start. */
  lemma {:induction false} ExistedFirst(p: Program, run: seq<System>, i: nat)
    requires IsRun(p, run) && i < |run| && Existing(run[i])
    ensures Existing(run[0])
  {
    hide IsRun, Later;
    RunLater(p, run, 0, i);
  }
}
