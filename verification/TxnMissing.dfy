/**
 When a rescan can miss an entry that its transaction still needs, which the code answers with a
 panic: exactly when some pull has taken an entry of a prepared transaction, or one that a runner
 preparing a transaction has added and counts on.
 */
module TxnMissing {
  import opened TxnGraph
  import opened Tokens
  import opened TxnProtocol
  import opened TxnSafety
  import opened TxnQueues

  /** A runner that prepares `t` has added its entry to the queue of `d`, and will not do so again. */
  predicate Added(at: Position, t: Id, nonce: Nonce, d: DocKey) {
    at.AddingTokens? && at.t == t && at.nonce == nonce && d in at.rev && d !in at.todo
  }

  /** The transaction's entry for the document of its operation `k` is one it cannot do without. */
  ghost predicate Wanted(p: Program, s: System, t: Id, k: nat, nonce: Nonce) {
    && t in p && k < |p[t]| && t in s.txns
    && (|| (s.txns[t].state == Prepared && nonce == s.txns[t].nonce)
        || (s.txns[t].state == Preparing
            && exists q :: q in s.runners && Added(s.runners[q].at, t, nonce, p[t][k].doc)))
  }

  /** A step that takes no wanted entry out of a queue. */
  ghost predicate Sparing(p: Program, s: System, s': System) {
    forall t, k: nat, nonce :: Wanted(p, s, t, k, nonce) && Queued(s, p[t][k].doc, Token(t, nonce)) ==>
      Queued(s', p[t][k].doc, Token(t, nonce))
  }

  /** Every wanted entry is in its queue, and no rescan has missed one. */
  ghost predicate Whole(p: Program, s: System) {
    && (forall t, k: nat, nonce :: Wanted(p, s, t, k, nonce) ==> Queued(s, p[t][k].doc, Token(t, nonce)))
    && !Panics(s)
  }

  /** What may come after `s` while wanted entries are spared. */
  ghost predicate Follows(p: Program, s: System, run: seq<System>) {
    && run != [] && run[0] == s
    && forall i :: 0 <= i < |run| - 1 ==> Next(p, run[i], run[i + 1]) && Sparing(p, run[i], run[i + 1])
  }

  ghost predicate Panics(s: System) {
    exists r :: RescanPanics(s, r)
  }

  ghost predicate CanPanic(p: Program, s: System) {
    exists run :: Follows(p, s, run) && Panics(run[|run| - 1])
  }

  // ---------------------------------------------------------------------------------------
  // Documents exist, and runners go through those of their own transaction

  ghost predicate InOrder(p: Program, at: Position) {
    at.AddingTokens? || at.Rescanning? ==> at.t in p && OnlyDocs(p[at.t], at.todo)
  }

  ghost predicate DocsExist(p: Program, s: System) {
    forall t, i :: t in p && 0 <= i < |p[t]| ==> p[t][i].doc in s.docs
  }

  ghost predicate Tidy(p: Program, s: System) {
    && Inv(p, s) && DocsExist(p, s)
    && forall r :: r in s.runners ==> InOrder(p, s.runners[r].at)
  }

  lemma OneFewer(ops: seq<Op>, todo: seq<DocKey>)
    requires OnlyDocs(ops, todo) && todo != []
    ensures OnlyDocs(ops, todo[1..]) && exists i :: 0 <= i < |ops| && ops[i].doc == todo[0]
  {
    assert todo[0] in todo;
    forall d | d in todo[1..] ensures exists i :: 0 <= i < |ops| && ops[i].doc == d { assert d in todo; }
  }

  lemma {:induction false} StaysInOrder(p: Program, s: System, r: RunnerId, a: Action)
    requires Enabled(p, s, r, a) && (r in s.runners ==> InOrder(p, s.runners[r].at))
    ensures r in Do(p, s, r, a).runners && InOrder(p, Do(p, s, r, a).runners[r].at)
  {
    hide Revnos, RevnosFor, CoversWith, Covers, WithToken, Matches, Thinner, OnlyDocs;
    if a.AddToken? || a.RescanDoc? { OneFewer(p[s.runners[r].at.t], s.runners[r].at.todo); }
  }

  lemma {:induction false} TidyNext(p: Program, s: System, s': System)
    requires Tidy(p, s) && Next(p, s, s')
    ensures Tidy(p, s') && AllMove(s.txns, s'.txns) && s'.docs.Keys == s.docs.Keys
  {
    InvNext(p, s, s');
    var r, a :| Enabled(p, s, r, a) && s' == Do(p, s, r, a);
    hide Do, Enabled, Inv, InOrder;
    ActionFacts(p, s, r, a);
    StaysInOrder(p, s, r, a);
  }

  // ---------------------------------------------------------------------------------------
  // Sparing steps keep the queues whole

  /** A prepared transaction was prepared before, or its entries had all been added. */
  lemma {:induction false} PreparedBefore(p: Program, s: System, r: RunnerId, a: Action, t: Id, k: nat)
    requires Tidy(p, s) && Enabled(p, s, r, a) && t in Do(p, s, r, a).txns && Do(p, s, r, a).txns[t].state == Prepared
    requires t in p && k < |p[t]|
    ensures Wanted(p, s, t, k, Do(p, s, r, a).txns[t].nonce)
  {
    var s' := Do(p, s, r, a);
    if t !in s.txns {
      HowStoredStarts(p, s, r, a, t);
      assert false;
    } else if s.txns[t] != s'.txns[t] {
      HowStoredChanges(p, s, r, a, t);
      assert RunnerOk(p, s.txns, s.runners[r]) && Added(s.runners[r].at, t, s'.txns[t].nonce, p[t][k].doc);
    }
  }

  /** Only a runner that adds entries comes to count on one. */
  lemma {:induction false} AddedNow(p: Program, s: System, r: RunnerId, a: Action)
    requires Enabled(p, s, r, a) && !a.AddToken? && r in Do(p, s, r, a).runners
    requires Do(p, s, r, a).runners[r].at.AddingTokens?
    ensures
      || Do(p, s, r, a).runners[r].at.rev == map[]
      || (r in s.runners && Do(p, s, r, a).runners[r].at == s.runners[r].at)
  {
    hide Revnos, CoversWith, Covers, Matches, Thinner, OnlyDocs, WithToken, RevnosFor;
  }

  lemma {:induction false} AddedOne(p: Program, s: System, r: RunnerId, t: Id, d: DocKey, nonce: Nonce)
    requires Enabled(p, s, r, AddToken) && Do(p, s, r, AddToken).runners.Keys == s.runners.Keys
    requires Added(Do(p, s, r, AddToken).runners[r].at, t, nonce, d)
    ensures Added(s.runners[r].at, t, nonce, d) || Queued(Do(p, s, r, AddToken), d, Token(t, nonce))
  {
    hide Revnos, CoversWith, Covers, Matches, Thinner, OnlyDocs, RevnosFor;
  }

  lemma {:induction false} SameRunners(p: Program, s: System, r: RunnerId)
    requires Enabled(p, s, r, AddToken)
    ensures r in s.runners && Do(p, s, r, AddToken).runners.Keys == s.runners.Keys
  {
    hide Revnos, CoversWith, Covers, Matches, Thinner, OnlyDocs, RevnosFor, WithToken;
  }

  /** An entry that a runner counts on after a step, it counted on before, or has just added. */
  lemma {:induction false} AddedBefore(p: Program, s: System, r: RunnerId, a: Action, q: RunnerId, t: Id, d: DocKey,
      nonce: Nonce)
    requires Tidy(p, s) && Enabled(p, s, r, a) && q in Do(p, s, r, a).runners
    requires Added(Do(p, s, r, a).runners[q].at, t, nonce, d)
    ensures (q in s.runners && Added(s.runners[q].at, t, nonce, d)) || Queued(Do(p, s, r, a), d, Token(t, nonce))
  {
    ActionFacts(p, s, r, a);
    hide Do, Enabled, Tidy, Inv, Queued;
    if q == r {
      if a.AddToken? {
        SameRunners(p, s, r);
        AddedOne(p, s, r, t, d, nonce);
      } else {
        AddedNow(p, s, r, a);
      }
    }
  }

  /** What is wanted after a step was wanted before it, or has been added by it. */
  lemma {:induction false} WantedBefore(p: Program, s: System, r: RunnerId, a: Action, t: Id, k: nat, nonce: Nonce)
    requires Tidy(p, s) && Enabled(p, s, r, a) && Wanted(p, Do(p, s, r, a), t, k, nonce)
    ensures Wanted(p, s, t, k, nonce) || Queued(Do(p, s, r, a), p[t][k].doc, Token(t, nonce))
  {
    var s' := Do(p, s, r, a);
    ActionFacts(p, s, r, a);
    if s'.txns[t].state == Prepared {
      PreparedBefore(p, s, r, a, t, k);
    } else {
      var q :| q in s'.runners && Added(s'.runners[q].at, t, nonce, p[t][k].doc);
      AddedBefore(p, s, r, a, q, t, p[t][k].doc, nonce);
      InStore(p, s, q);
      hide Do, Enabled;
    }
  }

  lemma InStore(p: Program, s: System, q: RunnerId)
    requires Inv(p, s)
    ensures q in s.runners && !s.runners[q].at.Idle? ==> s.runners[q].at.t in s.txns
  {
  }

  /** The entry that a rescan has just missed, if its transaction still needs it, is a wanted one. */
  lemma {:induction false} JustMissed(p: Program, s: System, r: RunnerId, a: Action) returns (t: Id, k: nat)
    requires Tidy(p, s) && Enabled(p, s, r, a) && !RescanPanics(s, r) && RescanPanics(Do(p, s, r, a), r)
    ensures t in p && k < |p[t]| && t in s.txns && Wanted(p, s, t, k, s.txns[t].nonce)
    ensures !Queued(s, p[t][k].doc, Token(t, s.txns[t].nonce))
  {
    IsRescan(p, s, r, a);
    var at := s.runners[r].at;
    OneFewer(p[at.t], at.todo);
    t := at.t;
    k :| k < |p[t]| && p[t][k].doc == at.todo[0];
    assert RunnerOk(p, s.txns, s.runners[r]);
    hide Do, Enabled;
  }

  /** Other runners that have missed an entry had done so before. */
  lemma {:induction false} MissedBefore(p: Program, s: System, r: RunnerId, a: Action, q: RunnerId)
    requires Tidy(p, s) && Enabled(p, s, r, a) && q != r && RescanPanics(Do(p, s, r, a), q)
    ensures RescanPanics(s, q)
  {
    ActionFacts(p, s, r, a);
    InStore(p, s, q);
    hide Do, Enabled, Inv;
  }

  /** How a runner comes to have missed an entry. */
  lemma {:induction false} IsRescan(p: Program, s: System, r: RunnerId, a: Action)
    requires Enabled(p, s, r, a) && r in Do(p, s, r, a).runners && Do(p, s, r, a).runners[r].at.TokenMissing?
    ensures a.RescanDoc? && r in s.runners && s.runners[r].at.Rescanning? && s.runners[r].at.todo != []
    ensures Do(p, s, r, a).txns == s.txns && Do(p, s, r, a).docs == s.docs
    ensures s.runners[r].at.t in s.runners[r].copies && Do(p, s, r, a).runners[r].at.t == s.runners[r].at.t
    ensures
      var at := s.runners[r].at;
      !Queued(s, at.todo[0], Token(at.t, s.runners[r].copies[at.t].nonce))
  {
    hide Revnos, RevnosFor, CoversWith, Covers, WithToken, Matches, Thinner, OnlyDocs;
  }

  lemma {:induction false} NoneMissed(p: Program, s: System, r: RunnerId, a: Action, q: RunnerId)
    requires Tidy(p, s) && Whole(p, s) && Enabled(p, s, r, a) && RescanPanics(Do(p, s, r, a), q)
    ensures RescanPanics(s, q)
  {
    hide Do, Enabled, Tidy, Wanted, Queued, RescanPanics;
    if q != r {
      MissedBefore(p, s, r, a, q);
    } else if !RescanPanics(s, r) {
      var t, k := JustMissed(p, s, r, a);
      assert false;
    }
  }

  lemma {:induction false} WholeNext(p: Program, s: System, s': System)
    requires Tidy(p, s) && Whole(p, s) && Next(p, s, s') && Sparing(p, s, s')
    ensures Whole(p, s')
  {
    var r, a :| Enabled(p, s, r, a) && s' == Do(p, s, r, a);
    hide Do, Enabled, Tidy, Wanted, Queued;
    forall t, k: nat, nonce | Wanted(p, s', t, k, nonce)
      ensures t in p && k < |p[t]| && Queued(s', p[t][k].doc, Token(t, nonce))
    {
      IsWanted(p, s', t, k, nonce);
      WantedBefore(p, s, r, a, t, k, nonce);
    }
    forall q | RescanPanics(s', q) ensures RescanPanics(s, q) { NoneMissed(p, s, r, a, q); }
  }

  lemma IsWanted(p: Program, s: System, t: Id, k: nat, nonce: Nonce)
    requires Wanted(p, s, t, k, nonce)
    ensures t in p && k < |p[t]|
  {
  }

  // ---------------------------------------------------------------------------------------
  // A wanted entry that is missing leads to the panic

  lemma PanicsNow(p: Program, s: System, r: RunnerId)
    requires RescanPanics(s, r)
    ensures CanPanic(p, s)
  {
    assert Follows(p, s, [s]) && Panics([s][|[s]| - 1]);
  }

  lemma {:induction false} PanicsLater(p: Program, s: System, s': System)
    requires Next(p, s, s') && Sparing(p, s, s') && CanPanic(p, s')
    ensures CanPanic(p, s)
  {
    var run :| Follows(p, s', run) && Panics(run[|run| - 1]);
    var run' := [s] + run;
    hide Next, Sparing, Panics;
    forall i | 0 <= i < |run'| - 1 ensures Next(p, run'[i], run'[i + 1]) && Sparing(p, run'[i], run'[i + 1]) {
      if i > 0 { assert run'[i] == run[i - 1] && run'[i + 1] == run[i - 1 + 1]; }
    }
    assert run'[|run'| - 1] == run[|run| - 1];
    assert Follows(p, s, run');
  }

  /** A step that leaves the documents alone. */
  lemma PanicsAfter(p: Program, s: System, r: RunnerId, a: Action, s': System)
    requires Enabled(p, s, r, a) && s' == Do(p, s, r, a) && s'.docs == s.docs && CanPanic(p, s')
    ensures CanPanic(p, s)
  {
    hide Enabled, Do, CanPanic, Wanted;
    assert Next(p, s, s');
    PanicsLater(p, s, s');
  }

  /** A rescan that has a document ahead whose queue lacks the entry. */
  ghost predicate WillMiss(p: Program, s: System, r: RunnerId, d: DocKey) {
    && r in s.runners && s.runners[r].at.Rescanning?
    && var t := s.runners[r].at.t;
    && t in p && t in s.txns && s.txns[t].state == Prepared
    && t in s.runners[r].copies && s.runners[r].copies[t].nonce == s.txns[t].nonce
    && (forall e :: e in s.runners[r].at.todo ==> e in s.docs)
    && d in s.runners[r].at.todo && !Queued(s, d, Token(t, s.txns[t].nonce))
  }

  lemma {:induction false} RescanMisses(p: Program, s: System, r: RunnerId, d: DocKey)
    requires WillMiss(p, s, r, d)
    ensures CanPanic(p, s)
    decreases |s.runners[r].at.todo|
  {
    var run, at := s.runners[r], s.runners[r].at;
    assert at.todo[0] in at.todo;
    assert Enabled(p, s, r, RescanDoc);
    var s' := Do(p, s, r, RescanDoc);
    hide CanPanic;
    if Token(at.t, run.copies[at.t].nonce) in s.docs[at.todo[0]].queue {
      assert s' == Move(s, r, Rescanning(at.t, at.todo[1..], at.rev[at.todo[0] := s.docs[at.todo[0]].revno]));
      assert d in at.todo[1..];
      RescanMisses(p, s', r, d);
    } else {
      assert s' == Move(s, r, TokenMissing(at.t));
      PanicsNow(p, s', r);
    }
    PanicsAfter(p, s, r, RescanDoc, s');
  }

  function DocsOf(ops: seq<Op>): (r: seq<DocKey>)
    ensures |r| == |ops| && forall i :: 0 <= i < |r| ==> r[i] == ops[i].doc
  {
    seq(|ops|, i requires 0 <= i < |ops| => ops[i].doc)
  }

  /** The transaction is prepared and its entry for operation `k` missing. */
  ghost predicate Lacks(p: Program, s: System, t: Id, k: nat) {
    && DocsExist(p, s)
    && t in p && k < |p[t]| && t in s.txns && s.txns[t].state == Prepared
    && !Queued(s, p[t][k].doc, Token(t, s.txns[t].nonce))
  }

  ghost predicate Loaded(s: System, r: RunnerId, t: Id) {
    r in s.runners && t in s.txns && t in s.runners[r].copies && s.runners[r].copies[t] == s.txns[t]
  }

  lemma {:induction false} RescanStarts(p: Program, s: System, r: RunnerId, t: Id, k: nat)
    requires Lacks(p, s, t, k) && Loaded(s, r, t) && s.runners[r].at == Advancing(t)
    ensures CanPanic(p, s)
  {
    var todo := DocsOf(p[t]);
    var s' := Move(s, r, Rescanning(t, todo, map[]));
    assert forall i :: 0 <= i < |p[t]| ==> p[t][i].doc == todo[i];
    assert Enabled(p, s, r, StartRescan(todo)) && s' == Do(p, s, r, StartRescan(todo));
    hide CanPanic, Do, Enabled;
    assert todo[k] in todo && WillMiss(p, s', r, p[t][k].doc);
    RescanMisses(p, s', r, p[t][k].doc);
    PanicsAfter(p, s, r, StartRescan(todo), s');
  }

  lemma {:induction false} BeginMisses(p: Program, s: System, r: RunnerId, t: Id, k: nat)
    requires Lacks(p, s, t, k) && Loaded(s, r, t) && s.runners[r].at == Idle
    ensures CanPanic(p, s)
  {
    hide CanPanic;
    RescanStarts(p, Move(s, r, Advancing(t)), r, t, k);
    PanicsAfter(p, s, r, Begin(t), Move(s, r, Advancing(t)));
  }

  lemma {:induction false} LoadMisses(p: Program, s: System, r: RunnerId, t: Id, k: nat)
    requires Lacks(p, s, t, k) && r in s.runners && s.runners[r].at == Idle
    ensures CanPanic(p, s)
  {
    hide CanPanic;
    BeginMisses(p, Update(s, r, t, s.txns[t], Idle), r, t, k);
    PanicsAfter(p, s, r, Load(t), Update(s, r, t, s.txns[t], Idle));
  }

  /** A fresh runner takes the prepared transaction on. */
  lemma {:induction false} PreparedMisses(p: Program, s: System, t: Id, k: nat)
    requires Lacks(p, s, t, k)
    ensures CanPanic(p, s)
  {
    hide CanPanic;
    var s' := s.(runners := s.runners[0 := Runner(map[], Idle)]);
    LoadMisses(p, s', 0, t, k);
    PanicsAfter(p, s, 0, Spawn, s');
  }

  // ---------------------------------------------------------------------------------------
  // The same for one that is being prepared

  /** A runner has added an entry for operation `k` that is gone again. */
  ghost predicate LacksAdded(p: Program, s: System, q: RunnerId, k: nat) {
    && DocsExist(p, s) && q in s.runners && s.runners[q].at.AddingTokens?
    && var at := s.runners[q].at;
    && at.t in p && at.t in s.txns && at.t in s.runners[q].copies && s.txns[at.t].state == Preparing
    && OnlyDocs(p[at.t], at.todo)
    && k < |p[at.t]| && Added(at, at.t, at.nonce, p[at.t][k].doc)
    && !Queued(s, p[at.t][k].doc, Token(at.t, at.nonce))
  }

  /** Adding an entry takes none away. */
  lemma {:induction false} AddingSpares(p: Program, s: System, q: RunnerId)
    requires Enabled(p, s, q, AddToken)
    ensures Sparing(p, s, Do(p, s, q, AddToken))
  {
    hide Wanted, Revnos, CoversWith, Covers, Matches, Thinner, OnlyDocs;
  }

  lemma {:induction false} AddNext(p: Program, s: System, q: RunnerId, k: nat)
    requires LacksAdded(p, s, q, k) && s.runners[q].at.todo != []
    ensures Enabled(p, s, q, AddToken)
    ensures var s' := Do(p, s, q, AddToken);
      LacksAdded(p, s', q, k) && s'.runners[q].at.todo == s.runners[q].at.todo[1..]
  {
    var at := s.runners[q].at;
    OneFewer(p[at.t], at.todo);
    assert at.todo[0] in at.todo;
    hide OnlyDocs;
  }

  lemma {:induction false} SaveLacks(p: Program, s: System, q: RunnerId, k: nat)
    requires LacksAdded(p, s, q, k) && s.runners[q].at.todo == []
    ensures CanPanic(p, s)
  {
    var t := s.runners[q].at.t;
    var s' := Do(p, s, q, SaveNonce);
    hide CanPanic, Revnos;
    assert Lacks(p, s', t, k);
    PreparedMisses(p, s', t, k);
    PanicsAfter(p, s, q, SaveNonce, s');
  }

  /** The runner adds what is left to add and makes the transaction prepared. */
  lemma {:induction false} AddedMisses(p: Program, s: System, q: RunnerId, k: nat)
    requires LacksAdded(p, s, q, k)
    ensures CanPanic(p, s)
    decreases |s.runners[q].at.todo|
  {
    hide CanPanic, Enabled, Do;
    if s.runners[q].at.todo == [] {
      SaveLacks(p, s, q, k);
    } else {
      AddNext(p, s, q, k);
      AddingSpares(p, s, q);
      var s' := Do(p, s, q, AddToken);
      assert Next(p, s, s');
      AddedMisses(p, s', q, k);
      PanicsLater(p, s, s');
    }
  }

  // ---------------------------------------------------------------------------------------
  // The exact condition

  lemma {:induction false} FollowsWhole(p: Program, s: System, run: seq<System>, i: nat)
    requires Tidy(p, s) && Whole(p, s) && Follows(p, s, run) && i < |run|
    ensures Tidy(p, run[i]) && Whole(p, run[i])
  {
    if i > 0 {
      FollowsWhole(p, s, run, i - 1);
      assert Next(p, run[i - 1], run[i - 1 + 1]) && Sparing(p, run[i - 1], run[i - 1 + 1]);
      hide Next, Sparing, Tidy, Whole, Follows;
      TidyNext(p, run[i - 1], run[i]);
      WholeNext(p, run[i - 1], run[i]);
    }
  }

  lemma {:induction false} NotWhole(p: Program, s: System)
    requires Tidy(p, s) && !Whole(p, s)
    ensures CanPanic(p, s)
  {
    hide CanPanic, Inv;
    if Panics(s) {
      var r :| RescanPanics(s, r);
      PanicsNow(p, s, r);
    } else {
      var t, k: nat, nonce :| Wanted(p, s, t, k, nonce) && !Queued(s, p[t][k].doc, Token(t, nonce));
      if s.txns[t].state == Prepared {
        PreparedMisses(p, s, t, k);
      } else {
        var q :| q in s.runners && Added(s.runners[q].at, t, nonce, p[t][k].doc);
        HasCopy(p, s, q);
        AddedMisses(p, s, q, k);
      }
    }
  }

  lemma HasCopy(p: Program, s: System, q: RunnerId)
    requires Inv(p, s)
    ensures q in s.runners && !s.runners[q].at.Idle? ==> s.runners[q].at.t in s.runners[q].copies
  {
  }

  lemma {:induction false} TidyRun(p: Program, run: seq<System>, i: nat)
    requires IsRun(p, run) && DocsExist(p, run[0]) && i < |run|
    ensures Tidy(p, run[i])
  {
    if i > 0 {
      TidyRun(p, run, i - 1);
      assert Next(p, run[i - 1], run[i - 1 + 1]);
      hide Next, Tidy, IsRun;
      TidyNext(p, run[i - 1], run[i]);
    }
  }

  /**
   Wherever a run stands, a rescan can come to miss an entry it needs, with no further wanted entry
   taken, exactly when a wanted entry is missing already.
   */
  lemma {:induction false} PanicIffNotWhole(p: Program, run: seq<System>)
    requires IsRun(p, run) && DocsExist(p, run[0])
    ensures CanPanic(p, run[|run| - 1]) <==> !Whole(p, run[|run| - 1])
  {
    var s := run[|run| - 1];
    TidyRun(p, run, |run| - 1);
    hide IsRun, Tidy, Whole;
    if CanPanic(p, s) {
      var next :| Follows(p, s, next) && Panics(next[|next| - 1]);
      if Whole(p, s) { WholeNoPanic(p, s, next); }
    }
    if !Whole(p, s) { NotWhole(p, s); }
  }

  lemma {:induction false} WholeNoPanic(p: Program, s: System, run: seq<System>)
    requires Tidy(p, s) && Whole(p, s) && Follows(p, s, run)
    ensures !Panics(run[|run| - 1])
  {
    FollowsWhole(p, s, run, |run| - 1);
    hide Follows, Tidy;
  }

  /** A step that takes an entry is a pull: it changes no stored transaction and adds none. */
  lemma {:induction false} TakenByPull(p: Program, s: System, r: RunnerId, a: Action, d: DocKey, x: Token)
    requires Enabled(p, s, r, a) && Lost(s, Do(p, s, r, a), d, x)
    ensures Do(p, s, r, a).txns == s.txns && (a.PullAborted? || a.ApplyOp?)
    ensures r in s.runners && !s.runners[r].at.AddingTokens?
  {
    hide Revnos, CoversWith, Covers, Matches;
    if !(a.AddToken? || a.PullAborted? || a.ApplyOp?) {
      DocsUntouched(p, s, r, a);
      assert false;
    }
  }

  /** It does not make the entry unwanted either. */
  lemma {:induction false} StillWanted(p: Program, s: System, r: RunnerId, a: Action, t: Id, k: nat, nonce: Nonce)
    requires Tidy(p, s) && Enabled(p, s, r, a) && Wanted(p, s, t, k, nonce)
    requires Lost(s, Do(p, s, r, a), p[t][k].doc, Token(t, nonce))
    ensures Wanted(p, Do(p, s, r, a), t, k, nonce)
  {
    TakenByPull(p, s, r, a, p[t][k].doc, Token(t, nonce));
    var s' := Do(p, s, r, a);
    if s.txns[t].state == Preparing {
      var q :| q in s.runners && Added(s.runners[q].at, t, nonce, p[t][k].doc);
      OthersStay(p, s, r, a, q);
      hide Do, Enabled;
    }
  }

  lemma {:induction false} OthersStay(p: Program, s: System, r: RunnerId, a: Action, q: RunnerId)
    requires Enabled(p, s, r, a) && (a.PullAborted? || a.ApplyOp?) && q in s.runners && q != r
    ensures q in Do(p, s, r, a).runners && Do(p, s, r, a).runners[q] == s.runners[q]
  {
    hide Revnos, RevnosFor, CoversWith, Covers, Matches, Thinner, OnlyDocs, WithToken;
  }

  /** The queues stay whole in a step exactly when it spares the wanted entries. */
  lemma {:induction false} StaysWholeIff(p: Program, s: System, s': System)
    requires Tidy(p, s) && Whole(p, s) && Next(p, s, s')
    ensures Whole(p, s') <==> Sparing(p, s, s')
  {
    if Sparing(p, s, s') {
      WholeNext(p, s, s');
    } else {
      var r, a :| Enabled(p, s, r, a) && s' == Do(p, s, r, a);
      hide Do, Enabled, Tidy, Wanted, Queued, Panics;
      var t, k: nat, nonce :| Wanted(p, s, t, k, nonce) && Queued(s, p[t][k].doc, Token(t, nonce))
        && !Queued(s', p[t][k].doc, Token(t, nonce));
      IsWanted(p, s, t, k, nonce);
      StillWanted(p, s, r, a, t, k, nonce);
    }
  }

  lemma FirstIsWhole(p: Program, s: System)
    requires Init(s)
    ensures Whole(p, s)
  {
  }

  /** The panic comes within reach with the first step that takes a wanted entry, and not before. */
  lemma {:induction false} PanicIffTaken(p: Program, run: seq<System>)
    requires IsRun(p, run) && DocsExist(p, run[0])
    requires forall i :: 0 <= i < |run| - 2 ==> Sparing(p, run[i], run[i + 1])
    ensures CanPanic(p, run[|run| - 1]) <==>
      |run| > 1 && !Sparing(p, run[|run| - 2], run[|run| - 1])
  {
    var n := |run| - 1;
    PanicIffNotWhole(p, run);
    if n == 0 {
      FirstIsWhole(p, run[0]);
    } else {
      SparedWhole(p, run, n - 1);
      TidyRun(p, run, n - 1);
      assert Next(p, run[n - 1], run[n - 1 + 1]);
      hide IsRun, Tidy, Whole, Next, Sparing, CanPanic;
      StaysWholeIff(p, run[n - 1], run[n]);
    }
  }

  lemma {:induction false} SparedWhole(p: Program, run: seq<System>, i: nat)
    requires IsRun(p, run) && DocsExist(p, run[0]) && i < |run|
    requires forall j :: 0 <= j < i ==> Sparing(p, run[j], run[j + 1])
    ensures Whole(p, run[i])
  {
    if i == 0 {
      FirstIsWhole(p, run[0]);
    } else {
      SparedWhole(p, run, i - 1);
      TidyRun(p, run, i - 1);
      assert Next(p, run[i - 1], run[i - 1 + 1]) && Sparing(p, run[i - 1], run[i - 1 + 1]);
      hide IsRun, Tidy, Whole, Next, Sparing;
      WholeNext(p, run[i - 1], run[i]);
    }
  }
}
