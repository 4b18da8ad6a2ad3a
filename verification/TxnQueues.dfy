/**
 Queue entries over runs of the transaction protocol: when the entry of a prepared transaction is
 sure to be found in the queues, and what that means for updates taking effect.
 */
module TxnQueues {
  import opened TxnGraph
  import opened Tokens
  import opened TxnProtocol
  import opened TxnSafety

  // ---------------------------------------------------------------------------------------
  // Careful pulls

  /**
   An entry that may go: one whose nonce its transaction did not get, one of a transaction the
   runner knows as done, and its current transaction's own where `own` says so.
   */
  ghost predicate MayPull(copies: map<Id, Txn>, t: Id, own: bool, x: Token) {
    x.id in copies && (
      || (copies[x.id].nonce != 0 && copies[x.id].nonce != x.nonce)
      || copies[x.id].state == Applied || copies[x.id].state == Aborted
      || (x.id == t && own))
  }

  ghost predicate PullsOk(copies: map<Id, Txn>, t: Id, own: bool, kept: seq<Token>, q: seq<Token>) {
    forall x :: x in q && x !in kept ==> MayPull(copies, t, own, x)
  }

  /** The last change of a document is the operation that may pull its transaction's own entry. */
  ghost predicate IsPullOp(ops: seq<Op>, i: nat) {
    i < |ops| && forall j :: i < j < |ops| ==> ops[j] != Op(ops[i].doc, true)
  }

  ghost predicate Careful(p: Program, s: System, r: RunnerId, a: Action)
    requires Enabled(p, s, r, a)
  {
    match a
    case PullAborted(doc, kept) =>
      PullsOk(s.runners[r].copies, s.runners[r].at.t, true, kept, s.docs[doc].queue)
    case ApplyOp(kept) =>
      var at := s.runners[r].at;
      PullsOk(s.runners[r].copies, at.t, IsPullOp(p[at.t], at.op), kept, s.docs[p[at.t][at.op].doc].queue)
    case _ => true
  }

  ghost predicate CarefulNext(p: Program, s: System, s': System) {
    exists r, a :: Enabled(p, s, r, a) && s' == Do(p, s, r, a) && Careful(p, s, r, a)
  }

  /** A run over existing documents in which every pull is careful. */
  ghost predicate IsCarefulRun(p: Program, run: seq<System>) {
    && run != [] && Init(run[0]) && Existing(run[0])
    && forall i :: 0 <= i < |run| - 1 ==> CarefulNext(p, run[i], run[i + 1])
  }

  ghost predicate Existing(s: System) {
    forall d :: d in s.docs ==> s.docs[d].first >= 0
  }

  // ---------------------------------------------------------------------------------------
  // What holds of queues and revisions

  ghost predicate Queued(s: System, d: DocKey, x: Token) {
    d in s.docs && x in s.docs[d].queue
  }

  /** Revisions read at some time: no document has fallen behind them. */
  ghost predicate Read(s: System, rev: Revisions) {
    forall d :: d in rev ==> d in s.docs && s.docs[d].first <= rev[d] <= s.docs[d].revno
  }

  ghost predicate PlanRead(s: System, ops: seq<Op>, revnos: seq<int>) {
    exists rev :: Covers(ops, rev) && revnos == RevnosFor(ops, rev) && Read(s, rev)
  }

  /** The document of operation `i`, if it is a change, is past the revision planned for it. */
  ghost predicate Settled(s: System, ops: seq<Op>, revnos: seq<int>, i: nat) {
    i < |ops| && i < |revnos| && ops[i].change ==> ops[i].doc in s.docs && s.docs[ops[i].doc].revno > revnos[i]
  }

  ghost predicate SettledTo(s: System, ops: seq<Op>, revnos: seq<int>, n: nat) {
    forall i: nat :: i < n ==> Settled(s, ops, revnos, i)
  }

  ghost predicate StoredQ(s: System, ops: seq<Op>, t: Id, x: Txn) {
    && (x.state == Prepared ==> forall i :: 0 <= i < |ops| ==> Queued(s, ops[i].doc, Token(t, x.nonce)))
    && (Started(x.state) ==>
         && PlanRead(s, ops, x.revnos)
         && forall i: nat :: i < |ops| && ops[i].change && !Settled(s, ops, x.revnos, i) ==>
              Queued(s, ops[i].doc, Token(t, x.nonce)))
    && (x.state == Applied ==> SettledTo(s, ops, x.revnos, |ops|))
  }

  ghost predicate CopyQ(s: System, ops: seq<Op>, c: Txn, x: Txn) {
    && (c.nonce != 0 ==> c.nonce == x.nonce)
    && (c.state == Applied ==> SettledTo(s, ops, c.revnos, |ops|))
  }

  ghost predicate PositionQ(s: System, ops: seq<Op>, at: Position, c: Txn, x: Txn)
    requires !at.Idle?
  {
    match at
    case AddingTokens(t, nonce, _, rev) =>
      Read(s, rev) && (x.state == Preparing ==> forall d :: d in rev ==> Queued(s, d, Token(t, nonce)))
    case LostPrepare(_, rev) => Read(s, rev)
    case Rescanning(_, todo, rev) => Read(s, rev) && OnlyDocs(ops, todo)
    case TokenMissing(_) => x.state != Preparing && x.state != Prepared
    case Asserting(_, revnos) => PlanRead(s, ops, revnos)
    case Checkpointing(_, revnos) => PlanRead(s, ops, revnos)
    case ApplyingOp(_, op) => SettledTo(s, ops, c.revnos, op)
    case _ => true
  }

  ghost predicate RunnerQ(p: Program, s: System, run: Runner) {
    && (forall t :: t in run.copies ==> t in s.txns && t in p && CopyQ(s, p[t], run.copies[t], s.txns[t]))
    && (!run.at.Idle? ==>
      run.at.t in run.copies && PositionQ(s, p[run.at.t], run.at, run.copies[run.at.t], s.txns[run.at.t]))
  }

  ghost predicate QInv(p: Program, s: System) {
    && Existing(s)
    && (forall t :: t in s.txns ==> t in p && StoredQ(s, p[t], t, s.txns[t]))
    && (forall r :: r in s.runners ==> RunnerQ(p, s, s.runners[r]))
  }

  // ---------------------------------------------------------------------------------------
  // What stays

  /** Documents stay, and their revisions never fall. */
  ghost predicate DocsGrow(s: System, s': System) {
    forall d :: d in s.docs ==>
      d in s'.docs && s'.docs[d].first == s.docs[d].first && s'.docs[d].revno >= s.docs[d].revno
  }

  lemma ReadStays(s: System, s': System, rev: Revisions)
    requires DocsGrow(s, s') && Read(s, rev)
    ensures Read(s', rev)
  {
  }

  lemma PlanStays(s: System, s': System, ops: seq<Op>, revnos: seq<int>)
    requires DocsGrow(s, s') && PlanRead(s, ops, revnos)
    ensures PlanRead(s', ops, revnos)
  {
    var rev :| Covers(ops, rev) && revnos == RevnosFor(ops, rev) && Read(s, rev);
    ReadStays(s, s', rev);
  }

  lemma SettledStays(s: System, s': System, ops: seq<Op>, revnos: seq<int>, n: nat)
    requires DocsGrow(s, s') && SettledTo(s, ops, revnos, n)
    ensures SettledTo(s', ops, revnos, n)
  {
    forall i: nat | i < n ensures Settled(s', ops, revnos, i) {
      assert Settled(s, ops, revnos, i);
    }
  }

  lemma {:induction false} Grows(p: Program, s: System, s': System)
    requires Inv(p, s) && Inv(p, s')
    requires forall d :: d in s.docs ==>
      d in s'.docs && s.docs[d].log <= s'.docs[d].log && s.docs[d].first == s'.docs[d].first
    ensures DocsGrow(s, s')
  {
    hide RunnerOk, TxnsOk;
    forall d | d in s.docs
      ensures d in s'.docs && s'.docs[d].first == s.docs[d].first && s'.docs[d].revno >= s.docs[d].revno
    {
      assert DocOk(p, s.txns, d, s.docs[d]) && DocOk(p, s'.txns, d, s'.docs[d]);
    }
  }

  /** The entry is gone after the step. */
  ghost predicate Lost(s: System, s': System, d: DocKey, x: Token) {
    Queued(s, d, x) && !Queued(s', d, x)
  }

  ghost predicate TakesForAbort(run: Runner, x: Token) {
    run.at.PullingAborted? && MayPull(run.copies, run.at.t, true, x)
  }

  /** The pull of an update that has brought `d` to the revision after the one planned. */
  ghost predicate TakesForApply(p: Program, s': System, run: Runner, d: DocKey, x: Token) {
    && run.at.ApplyingOp? && run.at.t in p && run.at.t in run.copies
    && var at, ops, revnos := run.at, p[run.at.t], run.copies[run.at.t].revnos;
       && at.op < |ops| && at.op < |revnos| && ops[at.op].doc == d
       && MayPull(run.copies, at.t, IsPullOp(ops, at.op), x)
       && d in s'.docs && s'.docs[d].revno == revnos[at.op] + 1
  }

  /** An entry only goes by a careful pull, and by one that applies only if the update is made. */
  lemma {:induction false} LostByPull(p: Program, s: System, r: RunnerId, a: Action, d: DocKey, x: Token)
    requires Enabled(p, s, r, a) && Careful(p, s, r, a) && Lost(s, Do(p, s, r, a), d, x)
    ensures r in s.runners && !s.runners[r].at.Idle? && s.runners[r].at.t in p
    ensures TakesForAbort(s.runners[r], x) || TakesForApply(p, Do(p, s, r, a), s.runners[r], d, x)
  {
    hide Revnos, CoversWith, Covers, IsPullOp;
    if !(a.AddToken? || a.PullAborted? || a.ApplyOp?) {
      DocsUntouched(p, s, r, a);
      assert false;
    }
  }

  // ---------------------------------------------------------------------------------------
  // Plans

  lemma {:induction false} ChangesGrow(ops: seq<Op>, d: DocKey, i: nat, j: nat)
    requires i <= j <= |ops|
    ensures ChangesBefore(ops, d, i) <= ChangesBefore(ops, d, j)
    ensures i < j && ops[i] == Op(d, true) ==> ChangesBefore(ops, d, i) < ChangesBefore(ops, d, j)
    decreases j
  {
    if i < j { ChangesGrow(ops, d, i, j - 1); }
  }

  /** Later operations of a transaction on a document are planned for later revisions. */
  lemma PlanGrows(ops: seq<Op>, revnos: seq<int>, i: nat, j: nat)
    requires Planned(ops, revnos) && i <= j < |ops| && ops[i].doc == ops[j].doc
    ensures |revnos| == |ops| && revnos[i] <= revnos[j]
    ensures i < j && ops[i].change ==> revnos[i] < revnos[j]
  {
    var rev :| Covers(ops, rev) && revnos == RevnosFor(ops, rev);
    PlanCounts(ops, rev, i);
    PlanCounts(ops, rev, j);
    ChangesGrow(ops, ops[i].doc, i, j);
  }

  lemma {:induction false} PreviousChange(ops: seq<Op>, d: DocKey, n: nat) returns (j: nat)
    requires n <= |ops| && ChangesBefore(ops, d, n) > 0
    ensures j < n && ops[j] == Op(d, true) && ChangesBefore(ops, d, n) == ChangesBefore(ops, d, j) + 1
  {
    if ops[n - 1] == Op(d, true) { j := n - 1; } else { j := PreviousChange(ops, d, n - 1); }
  }

  /** Once the changes before an operation are past, its document has reached the revision planned. */
  lemma PlanReached(s: System, ops: seq<Op>, revnos: seq<int>, i: nat)
    requires PlanRead(s, ops, revnos) && i < |ops| && SettledTo(s, ops, revnos, i)
    ensures i < |revnos| && ops[i].doc in s.docs
    ensures s.docs[ops[i].doc].first <= revnos[i] <= s.docs[ops[i].doc].revno
  {
    var rev :| Covers(ops, rev) && revnos == RevnosFor(ops, rev) && Read(s, rev);
    var d := ops[i].doc;
    PlanCounts(ops, rev, i);
    if ChangesBefore(ops, d, i) > 0 {
      var j := PreviousChange(ops, d, i);
      PlanCounts(ops, rev, j);
      assert Settled(s, ops, revnos, j);
    }
  }

  // ---------------------------------------------------------------------------------------
  // Entries stay as long as they are needed

  /** Its entry is still needed: not yet prepared, prepared, or with an update to come on `d`. */
  ghost predicate Needed(s': System, ops: seq<Op>, t: Id, x: Txn, d: DocKey, nonce: Nonce, i: nat) {
    || x.state == Preparing
    || (x.state == Prepared && nonce == x.nonce)
    || (Started(x.state) && nonce == x.nonce && i < |ops| && ops[i] == Op(d, true) && !Settled(s', ops, x.revnos, i))
  }

  lemma {:induction false} EntryStays(p: Program, s: System, r: RunnerId, a: Action, s': System, t: Id, d: DocKey,
      nonce: Nonce, i: nat)
    requires Inv(p, s) && QInv(p, s) && Enabled(p, s, r, a) && Careful(p, s, r, a) && s' == Do(p, s, r, a) &&
      DocsGrow(s, s')
    requires t in s.txns && Queued(s, d, Token(t, nonce)) && Needed(s', p[t], t, s.txns[t], d, nonce, i)
    ensures Queued(s', d, Token(t, nonce))
  {
    hide Careful, Do, Enabled, IsPullOp, MayPull, Needed;
    forall q | q in s.runners && !s.runners[q].at.Idle?
      ensures !TakesForAbort(s.runners[q], Token(t, nonce)) && !TakesForApply(p, s', s.runners[q], d, Token(t, nonce))
    {
      NotPulled(p, s, s', s.runners[q], t, d, nonce, i);
    }
    if Lost(s, s', d, Token(t, nonce)) { LostByPull(p, s, r, a, d, Token(t, nonce)); }
  }

  /** An update at the last change of a document leaves none of the transaction's changes there to come. */
  lemma OwnPullSettles(s': System, ops: seq<Op>, revnos: seq<int>, d: DocKey, op: nat, i: nat)
    requires Planned(ops, revnos) && IsPullOp(ops, op) && ops[op].doc == d && d in s'.docs && op < |revnos|
    requires s'.docs[d].revno == revnos[op] + 1
    ensures i < |ops| && ops[i] == Op(d, true) ==> Settled(s', ops, revnos, i)
  {
    if i < |ops| && ops[i] == Op(d, true) { PlanGrows(ops, revnos, i, op); }
  }

  lemma {:induction false} NotPulled(p: Program, s: System, s': System, run: Runner, t: Id, d: DocKey, nonce: Nonce,
      i: nat)
    requires TxnsOk(p, s.txns) && RunnerOk(p, s.txns, run) && RunnerQ(p, s, run) && DocsGrow(s, s') && !run.at.Idle?
    requires t in s.txns && Needed(s', p[t], t, s.txns[t], d, nonce, i)
    ensures !TakesForAbort(run, Token(t, nonce)) && !TakesForApply(p, s', run, d, Token(t, nonce))
  {
    hide PositionQ, Planned, IsPullOp, SettledTo, Settled;
    if t in run.copies {
      var c, x := run.copies[t], s.txns[t];
      assert CopyOk(c, x) && CopyQ(s, p[t], c, x) && StoredOk(p[t], x);
      if c.state == Applied {
        SettledStays(s, s', p[t], c.revnos, |p[t]|);
        SettledAt(s', p[t], c.revnos, |p[t]|, i);
      }
      if TakesForApply(p, s', run, d, Token(t, nonce)) && run.at.t == t && IsPullOp(p[t], run.at.op) {
        OwnPullSettles(s', p[t], x.revnos, d, run.at.op, i);
      }
    }
  }

  lemma SettledAt(s: System, ops: seq<Op>, revnos: seq<int>, n: nat, i: nat)
    requires SettledTo(s, ops, revnos, n) && n >= |ops|
    ensures Settled(s, ops, revnos, i)
  {
    if i < n { assert Settled(s, ops, revnos, i); }
  }

  // ---------------------------------------------------------------------------------------
  // One careful step

  /** A careful step of runner `r` from a state in order. */
  ghost predicate Step(p: Program, s: System, r: RunnerId, a: Action, s': System) {
    && Inv(p, s) && Inv(p, s') && QInv(p, s)
    && Enabled(p, s, r, a) && s' == Do(p, s, r, a) && Careful(p, s, r, a)
    && DocsGrow(s, s') && AllMove(s.txns, s'.txns)
  }

  /** How a stored transaction can change. */
  ghost predicate Changes(p: Program, s: System, r: RunnerId, t: Id, x': Txn)
    requires t in s.txns && r in s.runners && !s.runners[r].at.Idle?
  {
    var at, x := s.runners[r].at, s.txns[t];
    || (at.AddingTokens? && at.t == t && at.todo == [] && x.state == Preparing &&
      x' == x.(state := Prepared, nonce := at.nonce))
    || (at.Checkpointing? && at.t == t && x.state == Prepared && x' == x.(state := Applying, revnos := at.revnos))
    || (at.SettingApplied? && at.t == t && x.state == Applying && x' == x.(state := Applied))
    || x'.state == Aborting || x'.state == Aborted
  }

  lemma {:induction false} HowStoredChanges(p: Program, s: System, r: RunnerId, a: Action, t: Id)
    requires Enabled(p, s, r, a) && t in s.txns && t in Do(p, s, r, a).txns && Do(p, s, r, a).txns[t] != s.txns[t]
    ensures Do(p, s, r, a).docs == s.docs
    ensures r in s.runners && !s.runners[r].at.Idle? && Changes(p, s, r, t, Do(p, s, r, a).txns[t])
  {
    hide Revnos, CoversWith, Covers, WithToken, Matches, Thinner, OnlyDocs;
  }

  lemma {:induction false} NoneStarts(p: Program, s: System, r: RunnerId, a: Action)
    requires Enabled(p, s, r, a) && !a.Submit?
    ensures forall t :: t in Do(p, s, r, a).txns ==> t in s.txns
  {
    hide Revnos, CoversWith, Covers, WithToken, Matches, Thinner, OnlyDocs;
  }

  lemma {:induction false} HowStoredStarts(p: Program, s: System, r: RunnerId, a: Action, t: Id)
    requires Enabled(p, s, r, a) && t !in s.txns && t in Do(p, s, r, a).txns
    ensures t in p && Do(p, s, r, a).txns[t].state == Preparing
  {
    if !a.Submit? {
      hide Enabled, Do;
      NoneStarts(p, s, r, a);
    }
  }

  lemma {:induction false} StoredSame(p: Program, s: System, r: RunnerId, a: Action, s': System, t: Id)
    requires Step(p, s, r, a, s') && t in s.txns && t in s'.txns && s'.txns[t] == s.txns[t]
    ensures t in p && StoredQ(s', p[t], t, s'.txns[t])
  {
    var x, ops := s.txns[t], p[t];
    assert StoredQ(s, ops, t, x);
    hide Inv, QInv, Do, Careful, Enabled, DocsGrow, PlanRead;
    if x.state == Prepared {
      forall i | 0 <= i < |ops| ensures Queued(s', ops[i].doc, Token(t, x.nonce)) {
        EntryStays(p, s, r, a, s', t, ops[i].doc, x.nonce, i);
      }
    }
    if Started(x.state) {
      PlanStays(s, s', ops, x.revnos);
      forall i: nat | i < |ops| && ops[i].change && !Settled(s', ops, x.revnos, i)
        ensures Queued(s', ops[i].doc, Token(t, x.nonce))
      {
        SettledOnce(s, s', ops, x.revnos, i);
        EntryStays(p, s, r, a, s', t, ops[i].doc, x.nonce, i);
      }
    }
    if x.state == Applied { SettledStays(s, s', ops, x.revnos, |ops|); }
  }

  lemma SettledOnce(s: System, s': System, ops: seq<Op>, revnos: seq<int>, i: nat)
    requires DocsGrow(s, s')
    ensures Settled(s, ops, revnos, i) ==> Settled(s', ops, revnos, i)
  {
  }

  lemma ToPrepared(s: System, ops: seq<Op>, at: Position, c: Txn, x: Txn, x': Txn)
    requires at.AddingTokens? && at.todo == [] && x.state == Preparing && x' == x.(state := Prepared, nonce := at.nonce)
    requires PositionQ(s, ops, at, c, x) && PositionOk(ops, at, c, x)
    ensures StoredQ(s, ops, at.t, x')
  {
    hide Read, Queued;
  }

  lemma ToApplying(s: System, ops: seq<Op>, at: Position, c: Txn, x: Txn, x': Txn)
    requires at.Checkpointing? && x.state == Prepared && x' == x.(state := Applying, revnos := at.revnos)
    requires PositionQ(s, ops, at, c, x) && StoredQ(s, ops, at.t, x)
    ensures StoredQ(s, ops, at.t, x')
  {
    hide PlanRead, Queued, Settled, SettledTo;
  }

  lemma ToApplied(s: System, ops: seq<Op>, at: Position, c: Txn, x: Txn, x': Txn)
    requires at.SettingApplied? && x.state == Applying && x' == x.(state := Applied)
    requires PositionOk(ops, at, c, x) && CopyOk(c, x) && CopyQ(s, ops, c, x) && StoredQ(s, ops, at.t, x)
    ensures StoredQ(s, ops, at.t, x')
  {
    hide PlanRead, Queued, Settled, SettledTo;
  }

  lemma SameDocs(s: System, s': System, ops: seq<Op>, t: Id, x: Txn)
    requires s'.docs == s.docs && StoredQ(s, ops, t, x)
    ensures StoredQ(s', ops, t, x)
  {
    hide Planned;
    assert forall d, e :: Queued(s, d, e) == Queued(s', d, e);
    assert forall i :: Settled(s, ops, x.revnos, i) == Settled(s', ops, x.revnos, i);
    if Started(x.state) {
      var rev :| Covers(ops, rev) && x.revnos == RevnosFor(ops, rev) && Read(s, rev);
      assert Read(s', rev);
    }
  }

  lemma {:induction false} StoredChanged(p: Program, s: System, r: RunnerId, a: Action, s': System, t: Id)
    requires Step(p, s, r, a, s') && t in s.txns && t in s'.txns && s'.txns[t] != s.txns[t]
    ensures t in p && StoredQ(s', p[t], t, s'.txns[t])
  {
    HowStoredChanges(p, s, r, a, t);
    var run, ops := s.runners[r], p[t];
    var x, x' := s.txns[t], s'.txns[t];
    assert RunnerOk(p, s.txns, run) && RunnerQ(p, s, run) && StoredQ(s, ops, t, x);
    hide Inv, QInv, Do, Careful, Enabled, DocsGrow, AllMove, PositionOk, PositionQ, CopyOk, CopyQ, StoredQ;
    if x'.state == Aborting || x'.state == Aborted {
      NoClaims(s', ops, t, x');
    } else {
      if run.at.AddingTokens? {
        ToPrepared(s, ops, run.at, run.copies[t], x, x');
      } else if run.at.Checkpointing? {
        ToApplying(s, ops, run.at, run.copies[t], x, x');
      } else {
        ToApplied(s, ops, run.at, run.copies[t], x, x');
      }
      SameDocs(s, s', ops, t, x');
    }
  }

  lemma NoClaims(s: System, ops: seq<Op>, t: Id, x: Txn)
    requires x.state == Aborting || x.state == Aborted
    ensures StoredQ(s, ops, t, x)
  {
  }

  lemma {:induction false} StoredStep(p: Program, s: System, r: RunnerId, a: Action, s': System, t: Id)
    requires Step(p, s, r, a, s') && t in s'.txns
    ensures t in p && StoredQ(s', p[t], t, s'.txns[t])
  {
    hide StoredQ, Step;
    if t !in s.txns {
      NewStored(p, s, r, a, s', t);
    } else if s'.txns[t] == s.txns[t] {
      StoredSame(p, s, r, a, s', t);
    } else {
      StoredChanged(p, s, r, a, s', t);
    }
  }

  lemma {:induction false} NewStored(p: Program, s: System, r: RunnerId, a: Action, s': System, t: Id)
    requires Step(p, s, r, a, s') && t !in s.txns && t in s'.txns
    ensures t in p && StoredQ(s', p[t], t, s'.txns[t])
  {
    hide Do, Enabled, Inv, QInv, Careful, DocsGrow, AllMove, PlanRead, Queued, Settled, SettledTo;
    HowStoredStarts(p, s, r, a, t);
  }

  /** A runner that does nothing stays in order. */
  lemma {:induction false} OtherStep(p: Program, s: System, r: RunnerId, a: Action, s': System, run: Runner)
    requires Step(p, s, r, a, s') && RunnerOk(p, s.txns, run) && RunnerQ(p, s, run)
    ensures RunnerQ(p, s', run)
  {
    assert TxnsOk(p, s.txns);
    hide Inv, QInv, Do, Careful, Enabled, DocsGrow, PlanRead, Read, PositionOk, PositionQ, CopyQ, AllMove, TxnsOk;
    forall t | t in run.copies ensures t in s'.txns && CopyQ(s', p[t], run.copies[t], s'.txns[t]) {
      CopyStays(p, s, s', run, t);
    }
    if !run.at.Idle? {
      var ops, c, x, x' := p[run.at.t], run.copies[run.at.t], s.txns[run.at.t], s'.txns[run.at.t];
      PositionStays(p, s, r, a, s', ops, run.at, c, x, x');
    }
  }

  lemma CopyStays(p: Program, s: System, s': System, run: Runner, t: Id)
    requires TxnsOk(p, s.txns) && RunnerQ(p, s, run) && AllMove(s.txns, s'.txns) && DocsGrow(s, s') && t in run.copies
    ensures t in s'.txns && CopyQ(s', p[t], run.copies[t], s'.txns[t])
  {
    assert Moves(s.txns[t], s'.txns[t]) && StoredOk(p[t], s.txns[t]) && CopyQ(s, p[t], run.copies[t], s.txns[t]);
    hide Planned, DocsGrow, SettledTo;
    if run.copies[t].state == Applied { SettledStays(s, s', p[t], run.copies[t].revnos, |p[t]|); }
  }

  lemma MovesForward(x: Txn, x': Txn)
    requires Moves(x, x')
    ensures x'.state == Preparing ==> x.state == Preparing
    ensures x'.state == Prepared ==> x.state == Preparing || x.state == Prepared
  {
  }

  lemma {:induction false} EntriesStay(p: Program, s: System, r: RunnerId, a: Action, s': System, t: Id, nonce: Nonce,
      rev: Revisions)
    requires Step(p, s, r, a, s') && t in s.txns && s.txns[t].state == Preparing
    requires forall d :: d in rev ==> Queued(s, d, Token(t, nonce))
    ensures forall d :: d in rev ==> Queued(s', d, Token(t, nonce))
  {
    hide Inv, QInv, Do, Careful, Enabled, DocsGrow, AllMove, Queued;
    forall d | d in rev ensures Queued(s', d, Token(t, nonce)) { EntryStays(p, s, r, a, s', t, d, nonce, 0); }
  }

  lemma {:induction false} PositionStays(p: Program, s: System, r: RunnerId, a: Action, s': System,
      ops: seq<Op>, at: Position, c: Txn, x: Txn, x': Txn)
    requires Step(p, s, r, a, s') && !at.Idle? && at.t in s.txns && x == s.txns[at.t] && at.t in s'.txns &&
      x' == s'.txns[at.t]
    requires PositionQ(s, ops, at, c, x)
    ensures PositionQ(s', ops, at, c, x')
  {
    assert Moves(x, x') && DocsGrow(s, s');
    MovesForward(x, x');
    hide Step, DocsGrow, PlanRead, Read, SettledTo, Moves, Queued, OnlyDocs;
    if at.AddingTokens? && x'.state == Preparing { EntriesStay(p, s, r, a, s', at.t, at.nonce, at.rev); }
    KnownStays(s, s', ops, at, c, x, x');
  }

  /** What a position knows of revisions outlasts other runners' steps. */
  lemma KnownStays(s: System, s': System, ops: seq<Op>, at: Position, c: Txn, x: Txn, x': Txn)
    requires DocsGrow(s, s') && !at.Idle? && PositionQ(s, ops, at, c, x)
    requires x.state != Preparing && x.state != Prepared ==> x'.state != Preparing && x'.state != Prepared
    requires at.AddingTokens? && x'.state == Preparing ==>
      forall d :: d in at.rev ==> Queued(s', d, Token(at.t, at.nonce))
    ensures PositionQ(s', ops, at, c, x')
  {
    hide DocsGrow, PlanRead, Read, SettledTo, Queued, OnlyDocs;
    match at
    case AddingTokens(_, _, _, rev) => ReadStays(s, s', rev);
    case LostPrepare(_, rev) => ReadStays(s, s', rev);
    case Rescanning(_, _, rev) => ReadStays(s, s', rev);
    case Asserting(_, revnos) => PlanStays(s, s', ops, revnos);
    case Checkpointing(_, revnos) => PlanStays(s, s', ops, revnos);
    case ApplyingOp(_, op) => SettledStays(s, s', ops, c.revnos, op);
    case _ =>
  }

  // ---------------------------------------------------------------------------------------
  // The runner that acts

  /** Reading the revision of one more document. */
  lemma ReadOne(p: Program, s: System, s': System, rev: Revisions, d: DocKey)
    requires Inv(p, s) && DocsGrow(s, s') && Read(s, rev) && d in s.docs
    ensures Read(s', rev[d := s.docs[d].revno])
  {
    assert DocOk(p, s.txns, d, s.docs[d]);
  }

  lemma PlanMade(s: System, ops: seq<Op>, rev: Revisions)
    requires Covers(ops, rev) && Read(s, rev)
    ensures PlanRead(s, ops, Revnos(ops, rev))
  {
  }

  /** A copy just loaded. */
  lemma LoadedCopy(s: System, s': System, ops: seq<Op>, t: Id, x: Txn)
    requires StoredQ(s, ops, t, x) && DocsGrow(s, s')
    ensures CopyQ(s', ops, x, x)
  {
    hide PlanRead, Queued, Settled, SettledTo, DocsGrow;
    if x.state == Applied { SettledStays(s, s', ops, x.revnos, |ops|); }
  }

  /** The acting runner's copies and position after a step. */
  ghost predicate SelfOk(p: Program, s: System, s': System, r: RunnerId)
    requires r in s.runners && !s.runners[r].at.Idle?
  {
    var t := s.runners[r].at.t;
    r in s'.runners && var run' := s'.runners[r];
    && t in run'.copies && t in s'.txns && t in p && run'.copies == s.runners[r].copies[t := run'.copies[t]]
    && CopyQ(s', p[t], run'.copies[t], s'.txns[t])
    && (!run'.at.Idle? ==> run'.at.t == t && PositionQ(s', p[t], run'.at, run'.copies[t], s'.txns[t]))
  }

  /** What the acting runner knows before the step. */
  ghost predicate Self(p: Program, s: System, r: RunnerId, s': System) {
    && r in s.runners && !s.runners[r].at.Idle? && var run := s.runners[r]; var t := run.at.t;
    && t in p && t in run.copies && t in s.txns && t in s'.txns
    && CopyOk(run.copies[t], s.txns[t]) && PositionOk(p[t], run.at, run.copies[t], s.txns[t])
    && CopyQ(s, p[t], run.copies[t], s.txns[t]) && PositionQ(s, p[t], run.at, run.copies[t], s.txns[t])
    && StoredOk(p[t], s.txns[t]) && StoredQ(s, p[t], t, s.txns[t])
    && CopyQ(s', p[t], run.copies[t], s'.txns[t])
    && DocsGrow(s, s')
  }

  lemma {:induction false} IsSelf(p: Program, s: System, r: RunnerId, a: Action, s': System)
    requires Step(p, s, r, a, s') && !Outside(a)
    ensures Self(p, s, r, s')
  {
    EnabledRunner(p, s, r, a);
    assert RunnerOk(p, s.txns, s.runners[r]) && RunnerQ(p, s, s.runners[r]) && TxnsOk(p, s.txns);
    IsActing(p, s, r, a);
    var t := s.runners[r].at.t;
    assert StoredQ(s, p[t], t, s.txns[t]);
    CopyStays(p, s, s', s.runners[r], t);
    hide Do, Careful, PositionOk, PositionQ, CopyOk, CopyQ, StoredOk, StoredQ, DocsGrow, Enabled;
  }

  lemma {:induction false} AddedStay(p: Program, s: System, r: RunnerId, a: Action, s': System)
    requires Step(p, s, r, a, s') && Self(p, s, r, s') && a.AddToken?
    requires s.txns[s.runners[r].at.t].state == Preparing
    ensures
      var at := s.runners[r].at;
      forall d :: d in at.rev || d == at.todo[0] ==> Queued(s', d, Token(at.t, at.nonce))
  {
    var at := s.runners[r].at;
    EntriesStay(p, s, r, a, s', at.t, at.nonce, at.rev);
    hide Inv, QInv, Careful;
  }

  lemma {:induction false} StartPrepareSelf(p: Program, s: System, r: RunnerId, a: Action, s': System)
    requires Enabled(p, s, r, a) && s' == Do(p, s, r, a) && Self(p, s, r, s') && (a.StartPrepare? || a.StartRescan?)
    ensures SelfOk(p, s, s', r)
  {
    hide Planned, StoredOk, StoredQ, SettledTo, PlanRead, Queued, CoversWith, DocsGrow;
  }

  lemma {:induction false} AddTokenSelf(p: Program, s: System, r: RunnerId, a: Action, s': System)
    requires Step(p, s, r, a, s') && Self(p, s, r, s') && a.AddToken?
    ensures SelfOk(p, s, s', r)
  {
    var at := s.runners[r].at;
    ReadOne(p, s, s', at.rev, at.todo[0]);
    if s.txns[at.t].state == Preparing { AddedStay(p, s, r, a, s'); }
    hide Inv, QInv, Careful, Planned, StoredOk, StoredQ, SettledTo, PlanRead, Queued, CoversWith, DocsGrow, WithToken,
      Read, AllMove;
  }

  lemma {:induction false} SavedNonceSelf(p: Program, s: System, r: RunnerId, a: Action, s': System)
    requires Enabled(p, s, r, a) && s' == Do(p, s, r, a) && Self(p, s, r, s') && (a.SaveNonce? || a.ReloadAfterPrepare?)
    ensures SelfOk(p, s, s', r)
  {
    var at, ops := s.runners[r].at, p[s.runners[r].at.t];
    ReadStays(s, s', at.rev);
    PlanMade(s', ops, at.rev);
    LoadedCopy(s, s', ops, at.t, s.txns[at.t]);
    hide Planned, StoredOk, StoredQ, SettledTo, PlanRead, Queued, DocsGrow, Read, Revnos, Covers;
  }

  /** A prepared transaction's entry is found wherever one of its operations is. */
  lemma EntryFound(s: System, ops: seq<Op>, at: Position, c: Txn, x: Txn)
    requires at.Rescanning? && at.todo != [] && CopyOk(c, x) && PositionOk(ops, at, c, x)
    requires PositionQ(s, ops, at, c, x) && StoredQ(s, ops, at.t, x)
    ensures x.state != Preparing
    ensures x.state == Prepared ==> Queued(s, at.todo[0], Token(at.t, c.nonce))
    ensures OnlyDocs(ops, at.todo[1..])
  {
    assert at.todo[0] in at.todo;
    forall d | d in at.todo[1..] ensures exists i :: 0 <= i < |ops| && ops[i].doc == d { assert d in at.todo; }
    hide Read, PlanRead, Settled, SettledTo, Planned;
  }

  lemma {:induction false} RescanDocSelf(p: Program, s: System, r: RunnerId, a: Action, s': System)
    requires Step(p, s, r, a, s') && Self(p, s, r, s') && a.RescanDoc?
    ensures SelfOk(p, s, s', r)
  {
    var at := s.runners[r].at;
    ReadOne(p, s, s', at.rev, at.todo[0]);
    EntryFound(s, p[at.t], at, s.runners[r].copies[at.t], s.txns[at.t]);
    hide Inv, QInv, Careful, Planned, StoredOk, StoredQ, SettledTo, PlanRead, CoversWith, DocsGrow, WithToken, Read,
      AllMove, OnlyDocs;
  }

  lemma {:induction false} FinishRescanSelf(p: Program, s: System, r: RunnerId, a: Action, s': System)
    requires Enabled(p, s, r, a) && s' == Do(p, s, r, a) && Self(p, s, r, s') && (a.FinishRescan? || a.ReloadMissing?)
    ensures SelfOk(p, s, s', r)
  {
    var at, ops := s.runners[r].at, p[s.runners[r].at.t];
    if a.FinishRescan? {
      ReadStays(s, s', at.rev);
      PlanMade(s', ops, at.rev);
    }
    LoadedCopy(s, s', ops, at.t, s.txns[at.t]);
    hide Planned, StoredOk, StoredQ, SettledTo, PlanRead, Queued, DocsGrow, Read, Revnos, Covers;
  }

  lemma {:induction false} CheckpointSelf(p: Program, s: System, r: RunnerId, a: Action, s': System)
    requires Enabled(p, s, r, a) && s' == Do(p, s, r, a) && Self(p, s, r, s')
    requires a.AssertHolds? || a.AssertFails? || a.Checkpoint? || a.ReloadAfterCheckpoint?
    ensures SelfOk(p, s, s', r)
  {
    var at, ops := s.runners[r].at, p[s.runners[r].at.t];
    if at.Asserting? { PlanStays(s, s', ops, at.revnos); }
    LoadedCopy(s, s', ops, at.t, s.txns[at.t]);
    hide Planned, StoredOk, StoredQ, SettledTo, PlanRead, Queued, DocsGrow, Read, Covers;
  }

  lemma {:induction false} AbortSelf(p: Program, s: System, r: RunnerId, a: Action, s': System)
    requires Enabled(p, s, r, a) && s' == Do(p, s, r, a) && Self(p, s, r, s')
    requires a.SetAborting? || a.ReloadAfterAbort? || a.StartAbort? || a.PullAborted? || a.SetAborted?
    ensures SelfOk(p, s, s', r)
  {
    var at, ops := s.runners[r].at, p[s.runners[r].at.t];
    LoadedCopy(s, s', ops, at.t, s.txns[at.t]);
    hide Planned, StoredOk, StoredQ, SettledTo, PlanRead, Queued, DocsGrow, Read, Covers, Thinner;
  }

  /**
   After an operation has been tried its document is past the revision planned for it: the update
   was made, or the document had got there before. The entry asked for is always there in time.
   */
  lemma {:induction false} TriedIsSettled(p: Program, s: System, r: RunnerId, a: Action, s': System)
    requires Enabled(p, s, r, a) && s' == Do(p, s, r, a) && Self(p, s, r, s') && Existing(s) && a.ApplyOp?
    ensures
      var at := s.runners[r].at;
      at.op < |p[at.t]| && Settled(s', p[at.t], s.runners[r].copies[at.t].revnos, at.op)
  {
    var at, c, x, ops := s.runners[r].at, s.runners[r].copies[s.runners[r].at.t], s.txns[s.runners[r].at.t],
      p[s.runners[r].at.t];
    PlanReached(s, ops, c.revnos, at.op);
    assert !Settled(s, ops, x.revnos, at.op) && ops[at.op].change ==> Queued(s, ops[at.op].doc, Token(at.t, x.nonce));
    assert c.nonce == x.nonce;
    hide Planned, StoredOk, StoredQ, SettledTo, PlanRead, Thinner;
  }

  lemma OneMoreSettled(s: System, ops: seq<Op>, revnos: seq<int>, n: nat)
    requires SettledTo(s, ops, revnos, n) && Settled(s, ops, revnos, n)
    ensures SettledTo(s, ops, revnos, n + 1)
  {
    hide Settled;
  }

  lemma {:induction false} ApplyOpSelf(p: Program, s: System, r: RunnerId, a: Action, s': System)
    requires Enabled(p, s, r, a) && s' == Do(p, s, r, a) && Self(p, s, r, s') && Existing(s) && a.ApplyOp?
    ensures SelfOk(p, s, s', r)
  {
    var at, c, ops := s.runners[r].at, s.runners[r].copies[s.runners[r].at.t], p[s.runners[r].at.t];
    SettledStays(s, s', ops, c.revnos, at.op);
    TriedIsSettled(p, s, r, a, s');
    OneMoreSettled(s', ops, c.revnos, at.op);
    hide Planned, StoredOk, StoredQ, PlanRead, Queued, DocsGrow, Read, Covers, Thinner, Matches, Settled, SettledTo,
      CopyQ;
  }

  lemma AllSettled(s: System, ops: seq<Op>, revnos: seq<int>, n: nat)
    requires SettledTo(s, ops, revnos, n) && n >= |ops|
    ensures SettledTo(s, ops, revnos, |ops|)
  {
    hide Settled;
  }

  lemma {:induction false} ApplySelf(p: Program, s: System, r: RunnerId, a: Action, s': System)
    requires Enabled(p, s, r, a) && s' == Do(p, s, r, a) && Self(p, s, r, s')
    requires a.StartApply? || a.FinishOps? || a.SetApplied?
    ensures SelfOk(p, s, s', r)
  {
    var at, c, ops := s.runners[r].at, s.runners[r].copies[s.runners[r].at.t], p[s.runners[r].at.t];
    if a.FinishOps? {
      SettledStays(s, s', ops, c.revnos, at.op);
      AllSettled(s', ops, c.revnos, at.op);
    }
    if a.StartApply? { NothingTried(s', ops, c.revnos); }
    hide Planned, StoredOk, StoredQ, PlanRead, Queued, DocsGrow, Read, Covers, Thinner, Matches, Settled, SettledTo;
  }

  lemma NothingTried(s: System, ops: seq<Op>, revnos: seq<int>)
    ensures SettledTo(s, ops, revnos, 0)
  {
  }

  lemma {:induction false} EarlySelf(p: Program, s: System, r: RunnerId, a: Action, s': System)
    requires Step(p, s, r, a, s') && Self(p, s, r, s')
    requires a.StartPrepare? || a.AddToken? || a.SaveNonce? || a.ReloadAfterPrepare?
          || a.StartRescan? || a.RescanDoc? || a.FinishRescan? || a.ReloadMissing?
    ensures SelfOk(p, s, s', r)
  {
    assert Enabled(p, s, r, a) && s' == Do(p, s, r, a);
    hide Enabled, Do, Step, Self, SelfOk;
    if a.StartPrepare? || a.StartRescan? {
      StartPrepareSelf(p, s, r, a, s');
    } else if a.SaveNonce? || a.ReloadAfterPrepare? {
      SavedNonceSelf(p, s, r, a, s');
    } else if a.FinishRescan? || a.ReloadMissing? {
      FinishRescanSelf(p, s, r, a, s');
    } else if a.AddToken? {
      AddTokenSelf(p, s, r, a, s');
    } else {
      RescanDocSelf(p, s, r, a, s');
    }
  }

  lemma {:induction false} SelfStep(p: Program, s: System, r: RunnerId, a: Action, s': System)
    requires Step(p, s, r, a, s') && !Outside(a)
    ensures r in s.runners && !s.runners[r].at.Idle? && SelfOk(p, s, s', r)
  {
    IsSelf(p, s, r, a, s');
    assert Existing(s) && Enabled(p, s, r, a) && s' == Do(p, s, r, a);
    hide Enabled, Do, Step, Self, SelfOk, Existing;
    if a.StartApply? || a.ApplyOp? || a.FinishOps? || a.SetApplied? {
      if a.ApplyOp? { ApplyOpSelf(p, s, r, a, s'); } else { ApplySelf(p, s, r, a, s'); }
    } else if a.SetAborting? || a.ReloadAfterAbort? || a.StartAbort? || a.PullAborted? || a.SetAborted? {
      AbortSelf(p, s, r, a, s');
    } else if a.AssertHolds? || a.AssertFails? || a.Checkpoint? || a.ReloadAfterCheckpoint? {
      CheckpointSelf(p, s, r, a, s');
    } else {
      EarlySelf(p, s, r, a, s');
    }
    KnowSelf(p, s, r, s');
  }

  lemma KnowSelf(p: Program, s: System, r: RunnerId, s': System)
    requires Self(p, s, r, s')
    ensures r in s.runners && !s.runners[r].at.Idle?
  {
  }

  /** A runner loads a transaction. */
  lemma {:induction false} LoadSelf(p: Program, s: System, r: RunnerId, a: Action, s': System)
    requires Step(p, s, r, a, s') && a.Load? && r in s.runners && RunnerQ(p, s', s.runners[r])
    ensures r in s'.runners && RunnerQ(p, s', s'.runners[r])
  {
    assert StoredQ(s, p[a.t], a.t, s.txns[a.t]);
    LoadedCopy(s, s', p[a.t], a.t, s.txns[a.t]);
    hide Inv, QInv, Careful, PositionQ, StoredQ, SettledTo, DocsGrow, AllMove, CopyQ;
  }

  /** A runner starts, takes a transaction on, or leaves. */
  lemma {:induction false} OutsideSelf(p: Program, s: System, r: RunnerId, a: Action, s': System)
    requires Step(p, s, r, a, s') && Outside(a) && !a.Load?
    requires r in s.runners ==> RunnerQ(p, s', s.runners[r])
    ensures r in s'.runners && RunnerQ(p, s', s'.runners[r])
  {
    hide Inv, QInv, Careful, PositionQ, SettledTo, DocsGrow, AllMove;
    if a.Begin? { AdvancingKnowsNothing(s'); }
  }

  lemma AdvancingKnowsNothing(s: System)
    ensures forall ops, t, c, x :: PositionQ(s, ops, Advancing(t), c, x)
  {
  }

  lemma {:induction false} RunnerStep(p: Program, s: System, r: RunnerId, a: Action, s': System)
    requires Step(p, s, r, a, s') &&
      (r in s.runners ==> RunnerOk(p, s.txns, s.runners[r]) && RunnerQ(p, s, s.runners[r]))
    ensures r in s'.runners && RunnerQ(p, s', s'.runners[r])
  {
    hide Step, RunnerOk, RunnerQ, SelfOk;
    if r in s.runners { OtherStep(p, s, r, a, s', s.runners[r]); }
    if a.Load? {
      LoadedRunner(p, s, r, a, s');
      LoadSelf(p, s, r, a, s');
    } else if Outside(a) {
      OutsideSelf(p, s, r, a, s');
    } else {
      SelfStep(p, s, r, a, s');
      SelfIsOk(p, s, s', r);
    }
  }

  lemma {:induction false} LoadedRunner(p: Program, s: System, r: RunnerId, a: Action, s': System)
    requires Step(p, s, r, a, s') && a.Load?
    ensures r in s.runners
  {
    hide Inv, QInv, Careful, Do, DocsGrow, AllMove;
  }

  lemma SelfIsOk(p: Program, s: System, s': System, r: RunnerId)
    requires r in s.runners && !s.runners[r].at.Idle? && SelfOk(p, s, s', r) && RunnerQ(p, s', s.runners[r])
    ensures r in s'.runners && RunnerQ(p, s', s'.runners[r])
  {
    hide CopyQ, PositionQ;
  }

  /** The invariant of queues and revisions survives every careful step. */
  lemma {:induction false} QInvNext(p: Program, s: System, s': System)
    requires Inv(p, s) && QInv(p, s) && CarefulNext(p, s, s')
    ensures Next(p, s, s') && Inv(p, s') && QInv(p, s')
  {
    var r, a :| Enabled(p, s, r, a) && s' == Do(p, s, r, a) && Careful(p, s, r, a);
    assert Next(p, s, s');
    InvNext(p, s, s');
    Grows(p, s, s');
    assert Step(p, s, r, a, s');
    OthersSame(p, s, r, a);
    ExistingStays(s, s');
    AllRunners(p, s);
    hide Inv, QInv, Step, Enabled, Do, Careful, RunnerOk, RunnerQ, StoredQ, Next, CarefulNext, DocsGrow, AllMove,
      Existing;
    forall t | t in s'.txns ensures t in p && StoredQ(s', p[t], t, s'.txns[t]) { StoredStep(p, s, r, a, s', t); }
    RunnerStep(p, s, r, a, s');
    forall q | q in s'.runners ensures RunnerQ(p, s', s'.runners[q]) {
      if q != r { OtherStep(p, s, r, a, s', s.runners[q]); }
    }
    IsQInv(p, s');
  }

  lemma AllRunners(p: Program, s: System)
    requires Inv(p, s) && QInv(p, s)
    ensures forall q :: q in s.runners ==> RunnerOk(p, s.txns, s.runners[q]) && RunnerQ(p, s, s.runners[q])
  {
    hide RunnerOk, RunnerQ, TxnsOk, DocOk, StoredQ;
  }

  lemma IsQInv(p: Program, s: System)
    requires Existing(s)
    requires forall t :: t in s.txns ==> t in p && StoredQ(s, p[t], t, s.txns[t])
    requires forall r :: r in s.runners ==> RunnerQ(p, s, s.runners[r])
    ensures QInv(p, s)
  {
    hide RunnerQ, StoredQ;
  }

  lemma ExistingStays(s: System, s': System)
    requires Existing(s) && DocsGrow(s, s') && s'.docs.Keys == s.docs.Keys
    ensures Existing(s')
  {
  }

  lemma {:induction false} OthersSame(p: Program, s: System, r: RunnerId, a: Action)
    requires Inv(p, s) && Enabled(p, s, r, a)
    ensures var s' := Do(p, s, r, a); s'.docs.Keys == s.docs.Keys
    ensures var s' := Do(p, s, r, a);
      forall q :: q in s'.runners && q != r ==> q in s.runners && s'.runners[q] == s.runners[q]
  {
    hide Do, Enabled, Inv;
    ActionFacts(p, s, r, a);
  }

  // ---------------------------------------------------------------------------------------
  // Careful runs

  lemma {:induction false} CarefulRunInv(p: Program, run: seq<System>, i: nat)
    requires IsCarefulRun(p, run) && i < |run|
    ensures Inv(p, run[i]) && QInv(p, run[i])
  {
    if i == 0 {
      FirstInv(p, run[0]);
    } else {
      CarefulRunInv(p, run, i - 1);
      assert CarefulNext(p, run[i - 1], run[i - 1 + 1]);
      hide IsCarefulRun, CarefulNext;
      QInvNext(p, run[i - 1], run[i]);
    }
  }

  lemma FirstInv(p: Program, s: System)
    requires Init(s) && Existing(s)
    ensures Inv(p, s) && QInv(p, s)
  {
  }

  /**
   When every pull is careful, a prepared transaction's entry is in the queue of each of its
   documents.
   */
  lemma {:induction false} PreparedStaysQueued(p: Program, run: seq<System>, i: nat, t: Id, k: nat)
    requires IsCarefulRun(p, run) && i < |run| && t in run[i].txns && run[i].txns[t].state == Prepared
    requires t in p && k < |p[t]|
    ensures Queued(run[i], p[t][k].doc, Token(t, run[i].txns[t].nonce))
  {
    CarefulRunInv(p, run, i);
    assert StoredQ(run[i], p[t], t, run[i].txns[t]);
    hide IsCarefulRun, Inv, PlanRead;
  }

  /** So a rescan that misses an entry always finds the transaction gone ahead, and does not panic. */
  lemma {:induction false} CarefulRescanNeverPanics(p: Program, run: seq<System>, i: nat, r: RunnerId)
    requires IsCarefulRun(p, run) && i < |run| && r in run[i].runners && run[i].runners[r].at.TokenMissing?
    ensures !RescanPanics(run[i], r)
  {
    CarefulRunInv(p, run, i);
    assert RunnerQ(p, run[i], run[i].runners[r]);
    hide IsCarefulRun, Inv;
  }

  /** The reload after a missed entry finds a transaction that should still have had it. */
  ghost predicate RescanPanics(s: System, r: RunnerId) {
    && r in s.runners && s.runners[r].at.TokenMissing? && s.runners[r].at.t in s.txns
    && (s.txns[s.runners[r].at.t].state == Preparing || s.txns[s.runners[r].at.t].state == Prepared)
  }

  // ---------------------------------------------------------------------------------------
  // Every update once

  /** Another started transaction has planned a change of the same document for the same revision. */
  ghost predicate Clash(p: Program, s: System, t: Id, k: nat, u: Id, l: nat)
    requires t in p && k < |p[t]| && t in s.txns && k < |s.txns[t].revnos|
  {
    && u != t && u in s.txns && u in p && Started(s.txns[u].state) && l < |p[u]| && l < |s.txns[u].revnos|
    && p[u][l] == p[t][k] && s.txns[u].revnos[l] == s.txns[t].revnos[k]
  }

  /**
   When every pull is careful, each update of a transaction stored as applied has taken effect, at
   the revision planned for it, unless another transaction's update planned for the same revision
   has taken effect there instead. With AtMostOnce: without such a clash, exactly once.
   */
  lemma {:induction false} AppliedTookEffect(p: Program, run: seq<System>, i: nat, t: Id, k: nat)
    requires IsCarefulRun(p, run) && i < |run| && t in run[i].txns && run[i].txns[t].state == Applied
    requires t in p && k < |p[t]| && p[t][k].change
    ensures p[t][k].doc in run[i].docs && k < |run[i].txns[t].revnos|
    ensures
      var d := run[i].docs[p[t][k].doc]; var n := run[i].txns[t].revnos[k] - d.first;
      0 <= n < |d.log| && (d.log[n] == Effect(t, k) <==> !Clash(p, run[i], t, k, d.log[n].txn, d.log[n].op))
    ensures Effect(t, k) !in run[i].docs[p[t][k].doc].log ==> exists u, l :: Clash(p, run[i], t, k, u, l)
  {
    CarefulRunInv(p, run, i);
    hide IsCarefulRun;
    var s, ops, x := run[i], p[t], run[i].txns[t];
    assert StoredQ(s, ops, t, x) && StoredOk(ops, x);
    SettledAt(s, ops, x.revnos, |ops|, k);
    SettledPrefix(s, ops, x.revnos, k);
    PlanReached(s, ops, x.revnos, k);
    var d := s.docs[ops[k].doc];
    assert DocOk(p, s.txns, ops[k].doc, d);
    var n := x.revnos[k] - d.first;
    assert EffectOk(p, s.txns, ops[k].doc, d.log[n], d.first + n);
    hide Inv, QInv, DocOk, StoredQ, PlanRead, Settled, SettledTo;
    if d.log[n].txn == t {
      var l := d.log[n].op;
      if k < l { PlanGrows(ops, x.revnos, k, l); }
      if l < k { PlanGrows(ops, x.revnos, l, k); }
    } else {
      assert Clash(p, s, t, k, d.log[n].txn, d.log[n].op);
    }
  }

  lemma SettledPrefix(s: System, ops: seq<Op>, revnos: seq<int>, n: nat)
    requires SettledTo(s, ops, revnos, |ops|) && n <= |ops|
    ensures SettledTo(s, ops, revnos, n)
  {
    hide Settled;
  }

  /** Without a clash an applied transaction's update is in the log exactly once. */
  lemma {:induction false} AppliedExactlyOnce(p: Program, run: seq<System>, i: nat, t: Id, k: nat) returns (n: nat)
    requires IsCarefulRun(p, run) && i < |run| && t in run[i].txns && run[i].txns[t].state == Applied
    requires t in p && k < |p[t]| && p[t][k].change && k < |run[i].txns[t].revnos|
    requires forall u, l :: !Clash(p, run[i], t, k, u, l)
    ensures p[t][k].doc in run[i].docs
    ensures
      var log := run[i].docs[p[t][k].doc].log;
      n < |log| && log[n] == Effect(t, k) && forall m :: 0 <= m < |log| && log[m] == Effect(t, k) ==> m == n
  {
    AppliedTookEffect(p, run, i, t, k);
    CarefulIsRun(p, run);
    var d := run[i].docs[p[t][k].doc];
    n := run[i].txns[t].revnos[k] - d.first;
    hide IsCarefulRun, IsRun, Clash;
    forall m | 0 <= m < |d.log| && d.log[m] == Effect(t, k) ensures m == n {
      if m < n { AtMostOnce(p, run, i, p[t][k].doc, m, n); }
      if n < m { AtMostOnce(p, run, i, p[t][k].doc, n, m); }
    }
  }

  lemma {:induction false} CarefulIsRun(p: Program, run: seq<System>)
    requires IsCarefulRun(p, run)
    ensures IsRun(p, run)
  {
    forall i | 0 <= i < |run| - 1 ensures Next(p, run[i], run[i + 1]) {
      assert CarefulNext(p, run[i], run[i + 1]);
    }
  }
}
