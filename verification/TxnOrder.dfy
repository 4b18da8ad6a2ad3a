/**
 Transactions that plan in their turn. A transaction that begins to apply its updates only after
 it has seen, in the queue of each document it changes, nothing unfinished ahead of its own entry
 never plans an update for the same revision as another: every update of an applied transaction
 has then taken effect exactly once.
 */
module TxnOrder {
  import opened TxnGraph
  import opened Tokens
  import opened TxnProtocol
  import opened TxnSafety
  import opened TxnQueues

  /** An entry left behind: of a transaction that is done, or with a nonce it did not get. */
  ghost predicate Finished(s: System, x: Token) {
    x.id in s.txns && var y := s.txns[x.id];
    (y.nonce != 0 && y.nonce != x.nonce) || y.state == Applied || y.state == Aborted
  }

  /** Nothing unfinished of others is ahead of the transaction's entry. */
  ghost predicate InTurn(s: System, t: Id, nonce: Nonce, d: DocKey) {
    && t in s.txns && Queued(s, d, Token(t, nonce))
    && forall x :: Ahead(s.docs[d].queue, x, Token(t, nonce)) && x.id != t ==> Finished(s, x)
  }

  /** The revision `v` of `d` has been read in turn, at step `n` or before. */
  ghost predicate ReadInTurn(run: seq<System>, n: nat, t: Id, nonce: Nonce, d: DocKey, v: int)
    requires n < |run|
  {
    exists j :: 0 <= j <= n && InTurn(run[j], t, nonce, d) && run[j].docs[d].revno == v
  }

  /** The plan comes from revisions read in turn. */
  ghost predicate PlannedInTurn(run: seq<System>, n: nat, ops: seq<Op>, t: Id, x: Txn)
    requires n < |run|
  {
    exists rev :: Covers(ops, rev) && x.revnos == RevnosFor(ops, rev)
      && forall k :: 0 <= k < |ops| && ops[k].change ==> ReadInTurn(run, n, t, x.nonce, ops[k].doc, rev[ops[k].doc])
  }

  ghost predicate Checkpointed(s: System, s': System, t: Id) {
    t in s.txns && t in s'.txns && s.txns[t].state == Prepared && s'.txns[t].state == Applying
  }

  /** A careful run in which every transaction plans in its turn. */
  ghost predicate IsOrderedRun(p: Program, run: seq<System>) {
    && IsCarefulRun(p, run)
    && forall n, t :: 0 <= n < |run| - 1 && Checkpointed(run[n], run[n + 1], t) ==>
         t in p && PlannedInTurn(run, n, p[t], t, run[n + 1].txns[t])
  }

  // ---------------------------------------------------------------------------------------
  // Order in the queues

  /** What stands ahead of an entry after a step stood there before: entries only come at the end. */
  lemma {:induction false} AheadBefore(p: Program, s: System, r: RunnerId, a: Action, d: DocKey, x: Token, y: Token)
    requires Enabled(p, s, r, a) && Queued(s, d, y) && d in Do(p, s, r, a).docs
    requires Ahead(Do(p, s, r, a).docs[d].queue, x, y)
    ensures Ahead(s.docs[d].queue, x, y)
  {
    hide Ahead, Revnos, CoversWith, Covers, OnlyDocs, WithToken, Matches;
    if a.AddToken? && d == s.runners[r].at.todo[0] {
      AddedAtEnd(s.docs[d].queue, Token(s.runners[r].at.t, s.runners[r].at.nonce), x, y);
    } else if !(a.AddToken? || a.PullAborted? || a.ApplyOp?) {
      DocsUntouched(p, s, r, a);
    }
  }

  lemma AddedAtEnd(q: seq<Token>, last: Token, x: Token, y: Token)
    requires y in q && Ahead(WithToken(q, last), x, y)
    ensures Ahead(q, x, y)
  {
    if last !in q {
      var i, j :| 0 <= i < j < |q + [last]| && (q + [last])[i] == x && (q + [last])[j] == y;
      assert q[i] == x && q[j] == y;
    }
  }

  lemma EitherAhead(q: seq<Token>, x: Token, y: Token)
    requires x in q && y in q && x != y
    ensures Ahead(q, x, y) || Ahead(q, y, x)
  {
    var i, j :| 0 <= i < |q| && 0 <= j < |q| && q[i] == x && q[j] == y;
  }

  // ---------------------------------------------------------------------------------------
  // A transaction with an update to come

  /** By step `n` the transaction has planned its change `k` of `d` for a revision that `d` has not passed at `j`. */
  ghost predicate ToCome(p: Program, run: seq<System>, j: nat, n: nat, t: Id, k: nat, d: DocKey) {
    && IsCarefulRun(p, run) && j <= n < |run|
    && t in p && k < |p[t]| && p[t][k] == Op(d, true) && t in run[n].txns && Started(run[n].txns[t].state)
    && k < |run[n].txns[t].revnos| && d in run[j].docs && run[j].docs[d].revno <= run[n].txns[t].revnos[k]
  }

  lemma {:induction false} StoredLater(p: Program, run: seq<System>, i: nat, j: nat)
    requires IsCarefulRun(p, run) && i <= j < |run|
    ensures forall t :: t in run[i].txns ==> t in run[j].txns && Later(run[i].txns[t], run[j].txns[t])
    ensures DocsGrow(run[i], run[j])
  {
    CarefulIsRun(p, run);
    RunLater(p, run, i, j);
    CarefulRunInv(p, run, i);
    CarefulRunInv(p, run, j);
    hide IsRun, IsCarefulRun, QInv, Later;
    Grows(p, run[i], run[j]);
  }

  /** It is not finished yet. */
  lemma {:induction false} NotFinished(p: Program, run: seq<System>, j: nat, n: nat, t: Id, k: nat, d: DocKey)
    requires ToCome(p, run, j, n, t, k, d)
    ensures !Finished(run[j], Token(t, run[n].txns[t].nonce))
  {
    if t in run[j].txns {
      StoredLater(p, run, j, n);
      CarefulRunInv(p, run, j);
      assert StoredQ(run[j], p[t], t, run[j].txns[t]);
      assert Later(run[j].txns[t], run[n].txns[t]);
      hide IsCarefulRun, Inv, DocsGrow, PlanRead, Queued;
      if run[j].txns[t].state == Applied {
        SettledAt(run[j], p[t], run[j].txns[t].revnos, |p[t]|, k);
      }
    }
  }

  /** So its entry is needed in the next step. */
  lemma {:induction false} StillNeeded(p: Program, run: seq<System>, j: nat, n: nat, t: Id, k: nat, d: DocKey)
    requires j < n && ToCome(p, run, j + 1, n, t, k, d) && t in run[j].txns
    ensures Needed(run[j + 1], p[t], t, run[j].txns[t], d, run[n].txns[t].nonce, k)
  {
    StoredLater(p, run, j, n);
    CarefulRunInv(p, run, j);
    assert StoredOk(p[t], run[j].txns[t]) && Later(run[j].txns[t], run[n].txns[t]);
    hide IsCarefulRun, Inv, QInv, DocsGrow, Planned;
  }

  ghost predicate AheadIn(s: System, d: DocKey, x: Token, y: Token) {
    d in s.docs && Ahead(s.docs[d].queue, x, y)
  }

  /** In one step it stays in its queue, and nothing gets ahead of it. */
  lemma {:induction false} KeepsPlaceNext(p: Program, run: seq<System>, j: nat, n: nat, t: Id, k: nat, d: DocKey,
      tt: Token, x: Token)
    requires j < n && ToCome(p, run, j + 1, n, t, k, d) && tt == Token(t, run[n].txns[t].nonce)
    requires t in run[j].txns && Queued(run[j], d, tt)
    ensures Queued(run[j + 1], d, tt) && (AheadIn(run[j + 1], d, x, tt) ==> AheadIn(run[j], d, x, tt))
  {
    StillNeeded(p, run, j, n, t, k, d);
    var r, a := CarefulStep(p, run, j);
    hide Enabled, Do, Careful, Needed, Ahead;
    CarefulRunInv(p, run, j);
    StoredLater(p, run, j, j + 1);
    hide Inv, QInv, DocsGrow, Later, IsCarefulRun;
    EntryStays(p, run[j], r, a, run[j + 1], t, d, tt.nonce, k);
    if AheadIn(run[j + 1], d, x, tt) { AheadBefore(p, run[j], r, a, d, x, tt); }
  }

  lemma QueuedThere(s: System, d: DocKey, x: Token)
    requires Queued(s, d, x)
    ensures d in s.docs
  {
  }

  /** Over many steps. */
  lemma {:induction false} KeepsPlace(p: Program, run: seq<System>, i: nat, j: nat, n: nat, t: Id, k: nat, d: DocKey,
      tt: Token, x: Token)
    requires i <= j <= n < |run| && ToCome(p, run, j, n, t, k, d) && tt == Token(t, run[n].txns[t].nonce)
    requires t in run[i].txns && Queued(run[i], d, tt)
    ensures Queued(run[j], d, tt) && (AheadIn(run[j], d, x, tt) ==> AheadIn(run[i], d, x, tt))
    decreases j
  {
    hide *;
    if i < j {
      QueuedThere(run[i], d, tt);
      var h := j - 1;
      EarlierToCome(p, run, i, h, j, n, t, k, d);
      KeepsPlace(p, run, i, h, n, t, k, d, tt, x);
      KeepsPlaceNext(p, run, h, n, t, k, d, tt, x);
    }
  }

  lemma CarefulStep(p: Program, run: seq<System>, i: nat) returns (r: RunnerId, a: Action)
    requires IsCarefulRun(p, run) && i + 1 < |run|
    ensures Enabled(p, run[i], r, a) && run[i + 1] == Do(p, run[i], r, a) && Careful(p, run[i], r, a)
  {
    assert CarefulNext(p, run[i], run[i + 1]);
    hide Enabled, Do, Careful;
    r, a :| Enabled(p, run[i], r, a) && run[i + 1] == Do(p, run[i], r, a) && Careful(p, run[i], r, a);
  }

  lemma {:induction false} EarlierToCome(p: Program, run: seq<System>, i: nat, j: nat, j': nat, n: nat, t: Id, k: nat,
      d: DocKey)
    requires i <= j <= j' && ToCome(p, run, j', n, t, k, d) && t in run[i].txns && d in run[i].docs
    ensures ToCome(p, run, j, n, t, k, d) && t in run[j].txns
  {
    StoredLater(p, run, i, j);
    StoredLater(p, run, j, j');
    hide IsCarefulRun, Later;
  }

  // ---------------------------------------------------------------------------------------
  // No two plans clash

  /** Who reads in turn later than `t` finds the change of `t` made, unless its own was made before. */
  lemma {:induction false} OneAtATime(p: Program, run: seq<System>, n: nat, d: DocKey,
      i: nat, t: Id, k: nat, j: nat, u: Id, l: nat)
    requires i <= j && t != u && ToCome(p, run, i, n, t, k, d) && ToCome(p, run, i, n, u, l, d) && j <= n
    requires InTurn(run[i], t, run[n].txns[t].nonce, d) && InTurn(run[j], u, run[n].txns[u].nonce, d)
    ensures !ToCome(p, run, j, n, t, k, d)
  {
    if ToCome(p, run, j, n, t, k, d) {
      var tt, uu := Token(t, run[n].txns[t].nonce), Token(u, run[n].txns[u].nonce);
      KeepsPlace(p, run, i, j, n, t, k, d, tt, uu);
      NotFinished(p, run, i, n, u, l, d);
      NotFinished(p, run, j, n, t, k, d);
      hide ToCome, Ahead, Finished;
      EitherAhead(run[j].docs[d].queue, tt, uu);
      assert false;
    }
  }

  /** Where the plan for a change comes from. */
  lemma {:induction false} PlanOrigin(p: Program, run: seq<System>, n: nat, t: Id, k: nat) returns (j: nat)
    requires IsOrderedRun(p, run) && n < |run| && t in run[n].txns && Started(run[n].txns[t].state)
    requires t in p && k < |p[t]| && p[t][k].change
    ensures k < |run[n].txns[t].revnos| && j <= n && InTurn(run[j], t, run[n].txns[t].nonce, p[t][k].doc)
    ensures run[j].docs[p[t][k].doc].revno <= run[n].txns[t].revnos[k]
  {
    assert n > 0 && IsCarefulRun(p, run);
    var m := n - 1;
    StartedBefore(p, run, m, t);
    if Checkpointed(run[m], run[m + 1], t) {
      assert PlannedInTurn(run, m, p[t], t, run[m + 1].txns[t]);
      hide IsOrderedRun, IsCarefulRun, InTurn, PlannedInTurn;
      j := FromPlan(run, m, p[t], t, run[m + 1].txns[t], k);
    } else {
      hide IsOrderedRun, IsCarefulRun, InTurn, PlannedInTurn, Checkpointed;
      j := PlanOrigin(p, run, m, t, k);
    }
  }

  lemma {:induction false} FromPlan(run: seq<System>, n: nat, ops: seq<Op>, t: Id, x: Txn, k: nat) returns (j: nat)
    requires n < |run| && PlannedInTurn(run, n, ops, t, x) && k < |ops| && ops[k].change
    ensures k < |x.revnos| && j <= n && InTurn(run[j], t, x.nonce, ops[k].doc)
    ensures run[j].docs[ops[k].doc].revno <= x.revnos[k]
  {
    hide Ahead, Finished;
    var rev :| Covers(ops, rev) && x.revnos == RevnosFor(ops, rev)
      && forall l :: 0 <= l < |ops| && ops[l].change ==> ReadInTurn(run, n, t, x.nonce, ops[l].doc, rev[ops[l].doc]);
    assert ReadInTurn(run, n, t, x.nonce, ops[k].doc, rev[ops[k].doc]);
    j :| j <= n && InTurn(run[j], t, x.nonce, ops[k].doc) && run[j].docs[ops[k].doc].revno == rev[ops[k].doc];
    PlanCounts(ops, rev, k);
  }

  /** A started transaction had started a step before with the same plan, or has just planned. */
  ghost predicate OldPlan(s: System, s': System, t: Id)
    requires t in s'.txns
  {
    && t in s.txns
    && (Checkpointed(s, s', t)
        || (Started(s.txns[t].state) && s.txns[t].revnos == s'.txns[t].revnos && s.txns[t].nonce == s'.txns[t].nonce))
  }

  lemma {:induction false} StartedInStep(p: Program, s: System, r: RunnerId, a: Action, t: Id)
    requires Inv(p, s) && Enabled(p, s, r, a) && t in Do(p, s, r, a).txns && Started(Do(p, s, r, a).txns[t].state)
    ensures OldPlan(s, Do(p, s, r, a), t)
  {
    hide Do, Enabled, Inv;
    if t !in s.txns {
      HowStoredStarts(p, s, r, a, t);
      assert false;
    } else {
      ActionFacts(p, s, r, a);
      assert Moves(s.txns[t], Do(p, s, r, a).txns[t]);
    }
  }

  lemma {:induction false} StartedBefore(p: Program, run: seq<System>, n: nat, t: Id)
    requires IsCarefulRun(p, run) && n + 1 < |run| && t in run[n + 1].txns && Started(run[n + 1].txns[t].state)
    ensures OldPlan(run[n], run[n + 1], t)
  {
    CarefulRunInv(p, run, n);
    var r, a := CarefulStep(p, run, n);
    hide IsCarefulRun, QInv, Inv, Careful, Enabled, Do;
    StartedInStep(p, run[n], r, a, t);
  }

  /** In an ordered run no two transactions ever plan to change a document at the same revision. */
  lemma {:induction false} NoClash(p: Program, run: seq<System>, n: nat, t: Id, k: nat, u: Id, l: nat)
    requires IsOrderedRun(p, run) && n < |run| && t in run[n].txns && Started(run[n].txns[t].state)
    requires t in p && k < |p[t]| && p[t][k].change && k < |run[n].txns[t].revnos|
    ensures !Clash(p, run[n], t, k, u, l)
  {
    if Clash(p, run[n], t, k, u, l) {
      var d := p[t][k].doc;
      var i := PlanOrigin(p, run, n, t, k);
      var j := PlanOrigin(p, run, n, u, l);
      assert IsCarefulRun(p, run);
      hide IsOrderedRun, IsCarefulRun, Later;
      if i <= j {
        OneAtATime(p, run, n, d, i, t, k, j, u, l);
      } else {
        OneAtATime(p, run, n, d, j, u, l, i, t, k);
      }
      assert false;
    }
  }

  /** So each update of an applied transaction has taken effect, and only once. */
  lemma {:induction false} OrderedExactlyOnce(p: Program, run: seq<System>, i: nat, t: Id, k: nat) returns (n: nat)
    requires IsOrderedRun(p, run) && i < |run| && t in run[i].txns && run[i].txns[t].state == Applied
    requires t in p && k < |p[t]| && p[t][k].change
    ensures p[t][k].doc in run[i].docs
    ensures
      var log := run[i].docs[p[t][k].doc].log;
      n < |log| && log[n] == Effect(t, k) && forall m :: 0 <= m < |log| && log[m] == Effect(t, k) ==> m == n
  {
    AppliedTookEffect(p, run, i, t, k);
    forall u, l ensures !Clash(p, run[i], t, k, u, l) { NoClash(p, run, i, t, k, u, l); }
    hide IsOrderedRun, IsCarefulRun, Clash;
    n := AppliedExactlyOnce(p, run, i, t, k);
  }
}
