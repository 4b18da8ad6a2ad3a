/** What holds over every run of the transaction protocol. */
module TxnSafety {
  import opened TxnGraph
  import opened Tokens
  import opened TxnProtocol

  /** The edges of the six-state graph. */
  predicate Edge(a: TxnState, b: TxnState) {
    || (a == Preparing && b == Prepared)
    || (a == Prepared && (b == Aborting || b == Applying))
    || (a == Aborting && b == Aborted)
    || (a == Applying && b == Applied)
  }

  predicate Started(a: TxnState) {
    a == Applying || a == Applied
  }

  /** One step of a stored transaction: nothing, or one edge. The nonce is set once, with the
      first edge, and the revisions once, with the edge to applying. */
  ghost predicate Moves(x: Txn, y: Txn) {
    || x == y
    || (Edge(x.state, y.state)
        && (y.nonce == x.nonce || (x.state == Preparing && y.nonce != 0))
        && (y.revnos == x.revnos || y.state == Applying))
  }

  /** The revisions are the plan computed from some current revisions. */
  ghost predicate Planned(ops: seq<Op>, revnos: seq<int>) {
    exists rev :: Covers(ops, rev) && revnos == RevnosFor(ops, rev)
  }

  ghost predicate StoredOk(ops: seq<Op>, x: Txn) {
    && (x.state == Preparing <==> x.nonce == 0)
    && (Started(x.state) ==> Planned(ops, x.revnos))
  }

  /** A copy may lag behind the stored transaction, or run ahead only from applying to applied. */
  ghost predicate CopyOk(c: Txn, x: Txn) {
    && (c.state == Prepared ==> x.state != Preparing && c.nonce == x.nonce)
    && (c.state == Aborting ==> (x.state == Aborting || x.state == Aborted) && c.nonce == x.nonce)
    && (c.state == Aborted ==> x.state == Aborted)
    && (Started(c.state) ==> Started(x.state) && c.nonce == x.nonce && c.revnos == x.revnos)
  }

  /** What the code relies on at each of its program positions. */
  ghost predicate PositionOk(ops: seq<Op>, at: Position, c: Txn, x: Txn)
    requires !at.Idle?
  {
    match at
    case Advancing(_) => true
    case AddingTokens(_, nonce, todo, rev) => c.state == Preparing && nonce != 0 && CoversWith(ops, rev, todo)
    case LostPrepare(_, rev) => c.state == Preparing && x.state != Preparing && Covers(ops, rev)
    case Rescanning(_, todo, rev) => c.state == Prepared && CoversWith(ops, rev, todo)
    case TokenMissing(_) => c.state == Prepared
    case Asserting(_, revnos) => c.state == Prepared && Planned(ops, revnos)
    case Checkpointing(_, revnos) => c.state == Prepared && Planned(ops, revnos)
    case LostCheckpoint(_) => c.state == Prepared && x.state != Preparing && x.state != Prepared
    case SettingAborting(_) => c.state == Prepared
    case LostAbort(_) => c.state == Prepared && x.state != Preparing && x.state != Prepared
    case PullingAborted(_) => c.state == Aborting
    case ApplyingOp(_, _) => c.state == Applying
    case SettingApplied(_) => c.state == Applied
  }

  ghost predicate RunnerOk(p: Program, txns: map<Id, Txn>, run: Runner) {
    && (forall t :: t in run.copies ==> t in txns && CopyOk(run.copies[t], txns[t]))
    && (!run.at.Idle? ==> run.at.t in run.copies && run.at.t in txns && run.at.t in p
                          && PositionOk(p[run.at.t], run.at, run.copies[run.at.t], txns[run.at.t]))
  }

  /** The log of a document: each effect found, and left, the revision its transaction planned. */
  ghost predicate DocOk(p: Program, txns: map<Id, Txn>, key: DocKey, d: Doc) {
    && d.revno == d.first + |d.log|
    && forall k :: 0 <= k < |d.log| ==> EffectOk(p, txns, key, d.log[k], d.first + k)
  }

  ghost predicate EffectOk(p: Program, txns: map<Id, Txn>, key: DocKey, e: Effect, revno: int) {
    && e.txn in txns && e.txn in p && Started(txns[e.txn].state)
    && e.op < |p[e.txn]| && p[e.txn][e.op] == Op(key, true)
    && e.op < |txns[e.txn].revnos| && txns[e.txn].revnos[e.op] == revno
  }

  ghost predicate TxnsOk(p: Program, txns: map<Id, Txn>) {
    forall t :: t in txns ==> t in p && StoredOk(p[t], txns[t])
  }

  ghost predicate Inv(p: Program, s: System) {
    && TxnsOk(p, s.txns)
    && (forall r :: r in s.runners ==> RunnerOk(p, s.txns, s.runners[r]))
    && (forall d :: d in s.docs ==> DocOk(p, s.txns, d, s.docs[d]))
  }

  // ---------------------------------------------------------------------------------------
  // One action

  ghost predicate AllMove(txns: map<Id, Txn>, txns': map<Id, Txn>) {
    forall t :: t in txns ==> t in txns' && Moves(txns[t], txns'[t])
  }

  lemma RunnerKeeps(p: Program, txns: map<Id, Txn>, txns': map<Id, Txn>, run: Runner)
    requires RunnerOk(p, txns, run) && AllMove(txns, txns') && TxnsOk(p, txns)
    ensures RunnerOk(p, txns', run)
  {
    forall t | t in run.copies ensures t in txns' && CopyOk(run.copies[t], txns'[t]) {
      assert Moves(txns[t], txns'[t]);
    }
  }

  lemma DocKeeps(p: Program, txns: map<Id, Txn>, txns': map<Id, Txn>, key: DocKey, d: Doc)
    requires DocOk(p, txns, key, d) && AllMove(txns, txns')
    ensures DocOk(p, txns', key, d)
  {
    forall k | 0 <= k < |d.log| ensures EffectOk(p, txns', key, d.log[k], d.first + k) {
      assert EffectOk(p, txns, key, d.log[k], d.first + k);
      assert Moves(txns[d.log[k].txn], txns'[d.log[k].txn]);
    }
  }

  lemma CoveredRevnos(ops: seq<Op>, rev: Revisions)
    requires Covers(ops, rev)
    ensures Planned(ops, Revnos(ops, rev))
  {
  }

  /** A runner inside `advance` with its own copy and position in order. */
  ghost predicate Acting(p: Program, s: System, r: RunnerId)
    requires r in s.runners
  {
    var run := s.runners[r];
    !run.at.Idle? && run.at.t in run.copies && run.at.t in s.txns && run.at.t in p
    && CopyOk(run.copies[run.at.t], s.txns[run.at.t])
    && PositionOk(p[run.at.t], run.at, run.copies[run.at.t], s.txns[run.at.t])
  }

  /** At most its copy of the current transaction has changed, and it is in order again. */
  ghost predicate Stepped(p: Program, s: System, s': System, r: RunnerId)
    requires r in s.runners && !s.runners[r].at.Idle?
  {
    var t := s.runners[r].at.t;
    r in s'.runners && var run' := s'.runners[r];
    t in run'.copies && t in s'.txns && t in p && run'.copies == s.runners[r].copies[t := run'.copies[t]]
    && CopyOk(run'.copies[t], s'.txns[t])
    && (!run'.at.Idle? ==> run'.at.t == t && PositionOk(p[t], run'.at, run'.copies[t], s'.txns[t]))
  }

  lemma {:induction false} PrepareStepOk(p: Program, s: System, r: RunnerId, a: Action)
    requires Enabled(p, s, r, a) && r in s.runners && Acting(p, s, r)
    requires StoredOk(p[s.runners[r].at.t], s.txns[s.runners[r].at.t])
    requires a.StartPrepare? || a.AddToken? || a.SaveNonce? || a.ReloadAfterPrepare?
    ensures Stepped(p, s, Do(p, s, r, a), r)
  {
    hide Revnos, Planned, WithToken, Matches, Thinner;
    var run := s.runners[r];
    if a.SaveNonce? || a.ReloadAfterPrepare? { CoveredRevnos(p[run.at.t], run.at.rev); }
  }

  lemma {:induction false} RescanStepOk(p: Program, s: System, r: RunnerId, a: Action)
    requires Enabled(p, s, r, a) && r in s.runners && Acting(p, s, r)
    requires StoredOk(p[s.runners[r].at.t], s.txns[s.runners[r].at.t])
    requires a.StartRescan? || a.RescanDoc? || a.FinishRescan? || a.ReloadMissing?
    ensures Stepped(p, s, Do(p, s, r, a), r)
  {
    hide Revnos, Planned, WithToken, Matches, Thinner;
    var run := s.runners[r];
    if a.FinishRescan? { CoveredRevnos(p[run.at.t], run.at.rev); }
  }

  lemma {:induction false} CheckpointStepOk(p: Program, s: System, r: RunnerId, a: Action)
    requires Enabled(p, s, r, a) && r in s.runners && Acting(p, s, r)
    requires StoredOk(p[s.runners[r].at.t], s.txns[s.runners[r].at.t])
    requires a.AssertHolds? || a.AssertFails? || a.Checkpoint? || a.ReloadAfterCheckpoint?
    ensures Stepped(p, s, Do(p, s, r, a), r)
  {
    hide Revnos, Planned, WithToken, Matches, Thinner;
  }

  lemma {:induction false} AbortStepOk(p: Program, s: System, r: RunnerId, a: Action)
    requires Enabled(p, s, r, a) && r in s.runners && Acting(p, s, r)
    requires StoredOk(p[s.runners[r].at.t], s.txns[s.runners[r].at.t])
    requires a.SetAborting? || a.ReloadAfterAbort? || a.StartAbort? || a.PullAborted? || a.SetAborted?
    ensures Stepped(p, s, Do(p, s, r, a), r)
  {
    hide Revnos, Planned, WithToken, Matches, Thinner;
  }

  lemma {:induction false} ApplyStepOk(p: Program, s: System, r: RunnerId, a: Action)
    requires Enabled(p, s, r, a) && r in s.runners && Acting(p, s, r)
    requires StoredOk(p[s.runners[r].at.t], s.txns[s.runners[r].at.t])
    requires a.StartApply? || a.ApplyOp? || a.FinishOps? || a.SetApplied?
    ensures Stepped(p, s, Do(p, s, r, a), r)
  {
    hide Revnos, Planned, WithToken, Matches, Thinner;
  }

  lemma IdlePositions(p: Program)
    ensures forall ops, t, c, x :: PositionOk(ops, Advancing(t), c, x)
  {
  }

  predicate Outside(a: Action) {
    a.Spawn? || a.Submit? || a.Load? || a.Begin? || a.Stop?
  }

  lemma {:induction false} ActionStepped(p: Program, s: System, r: RunnerId, a: Action)
    requires Enabled(p, s, r, a) && r in s.runners && !Outside(a) && Acting(p, s, r)
    requires StoredOk(p[s.runners[r].at.t], s.txns[s.runners[r].at.t])
    ensures Stepped(p, s, Do(p, s, r, a), r)
  {
    hide Enabled, Acting, Stepped, StoredOk, Do;
    match a {
      case StartPrepare(_, _) => PrepareStepOk(p, s, r, a);
      case AddToken => PrepareStepOk(p, s, r, a);
      case SaveNonce => PrepareStepOk(p, s, r, a);
      case ReloadAfterPrepare(_) => PrepareStepOk(p, s, r, a);
      case StartRescan(_) => RescanStepOk(p, s, r, a);
      case RescanDoc => RescanStepOk(p, s, r, a);
      case FinishRescan => RescanStepOk(p, s, r, a);
      case ReloadMissing => RescanStepOk(p, s, r, a);
      case AssertHolds => CheckpointStepOk(p, s, r, a);
      case AssertFails => CheckpointStepOk(p, s, r, a);
      case Checkpoint => CheckpointStepOk(p, s, r, a);
      case ReloadAfterCheckpoint => CheckpointStepOk(p, s, r, a);
      case SetAborting => AbortStepOk(p, s, r, a);
      case ReloadAfterAbort => AbortStepOk(p, s, r, a);
      case StartAbort => AbortStepOk(p, s, r, a);
      case PullAborted(_, _) => AbortStepOk(p, s, r, a);
      case SetAborted => AbortStepOk(p, s, r, a);
      case StartApply => ApplyStepOk(p, s, r, a);
      case ApplyOp(_) => ApplyStepOk(p, s, r, a);
      case FinishOps => ApplyStepOk(p, s, r, a);
      case SetApplied => ApplyStepOk(p, s, r, a);
    }
  }

  lemma SteppedOk(p: Program, s: System, s': System, r: RunnerId)
    requires r in s.runners && !s.runners[r].at.Idle? && Stepped(p, s, s', r)
    requires RunnerOk(p, s'.txns, s.runners[r])
    ensures RunnerOk(p, s'.txns, s'.runners[r])
  {
    hide CopyOk, PositionOk;
  }

  lemma IsActing(p: Program, s: System, r: RunnerId, a: Action)
    requires TxnsOk(p, s.txns) && Enabled(p, s, r, a) && r in s.runners && !Outside(a) &&
      RunnerOk(p, s.txns, s.runners[r])
    ensures Acting(p, s, r) && StoredOk(p[s.runners[r].at.t], s.txns[s.runners[r].at.t])
  {
    hide PositionOk, StoredOk, EnabledAt;
  }

  /** What every action does to the store and to the other runners. */
  ghost predicate StepFacts(p: Program, s: System, s': System, r: RunnerId) {
    && AllMove(s.txns, s'.txns) && TxnsOk(p, s'.txns)
    && r in s'.runners
    && (forall q :: q in s'.runners && q != r ==> q in s.runners && s'.runners[q] == s.runners[q])
    && s'.docs.Keys == s.docs.Keys
  }

  lemma {:induction false} OutsideFacts(p: Program, s: System, r: RunnerId, a: Action)
    requires TxnsOk(p, s.txns) && Enabled(p, s, r, a)
    requires Outside(a)
    ensures StepFacts(p, s, Do(p, s, r, a), r)
  {
    hide Revnos, Planned, CoversWith, Covers, WithToken, Matches, Thinner;
  }

  lemma {:induction false} PrepareFacts(p: Program, s: System, r: RunnerId, a: Action)
    requires TxnsOk(p, s.txns) && Enabled(p, s, r, a)
    requires a.StartPrepare? || a.AddToken? || a.SaveNonce? || a.ReloadAfterPrepare?
    requires r in s.runners && Acting(p, s, r) && StoredOk(p[s.runners[r].at.t], s.txns[s.runners[r].at.t])
    ensures StepFacts(p, s, Do(p, s, r, a), r)
  {
    hide Revnos, Planned, CoversWith, Covers, WithToken, Matches, Thinner;
  }

  lemma {:induction false} RescanFacts(p: Program, s: System, r: RunnerId, a: Action)
    requires TxnsOk(p, s.txns) && Enabled(p, s, r, a)
    requires a.StartRescan? || a.RescanDoc? || a.FinishRescan? || a.ReloadMissing?
    requires r in s.runners && Acting(p, s, r) && StoredOk(p[s.runners[r].at.t], s.txns[s.runners[r].at.t])
    ensures StepFacts(p, s, Do(p, s, r, a), r)
  {
    hide Revnos, Planned, CoversWith, Covers, WithToken, Matches, Thinner;
  }

  lemma {:induction false} CheckpointFacts(p: Program, s: System, r: RunnerId, a: Action)
    requires TxnsOk(p, s.txns) && Enabled(p, s, r, a)
    requires a.AssertHolds? || a.AssertFails? || a.Checkpoint? || a.ReloadAfterCheckpoint?
    requires r in s.runners && Acting(p, s, r) && StoredOk(p[s.runners[r].at.t], s.txns[s.runners[r].at.t])
    ensures StepFacts(p, s, Do(p, s, r, a), r)
  {
    hide Revnos, Planned, CoversWith, Covers, WithToken, Matches, Thinner;
  }

  lemma {:induction false} AbortFacts(p: Program, s: System, r: RunnerId, a: Action)
    requires TxnsOk(p, s.txns) && Enabled(p, s, r, a)
    requires a.SetAborting? || a.ReloadAfterAbort? || a.StartAbort? || a.PullAborted? || a.SetAborted?
    requires r in s.runners && Acting(p, s, r) && StoredOk(p[s.runners[r].at.t], s.txns[s.runners[r].at.t])
    ensures StepFacts(p, s, Do(p, s, r, a), r)
  {
    hide Revnos, Planned, CoversWith, Covers, WithToken, Matches, Thinner;
  }

  lemma {:induction false} ApplyFacts(p: Program, s: System, r: RunnerId, a: Action)
    requires TxnsOk(p, s.txns) && Enabled(p, s, r, a)
    requires a.StartApply? || a.ApplyOp? || a.FinishOps? || a.SetApplied?
    requires r in s.runners && Acting(p, s, r) && StoredOk(p[s.runners[r].at.t], s.txns[s.runners[r].at.t])
    ensures StepFacts(p, s, Do(p, s, r, a), r)
  {
    hide Revnos, Planned, CoversWith, Covers, WithToken, Matches, Thinner;
  }

  /** Every action moves stored transactions along the graph and leaves the other runners alone. */
  lemma {:induction false} ActionFacts(p: Program, s: System, r: RunnerId, a: Action)
    requires Inv(p, s) && Enabled(p, s, r, a)
    ensures StepFacts(p, s, Do(p, s, r, a), r)
  {
    hide Enabled, Acting, StoredOk, Do, StepFacts, RunnerOk, TxnsOk, DocOk;
    if Outside(a) {
      OutsideFacts(p, s, r, a);
      return;
    }
    EnabledRunner(p, s, r, a);
    IsActing(p, s, r, a);
    match a {
      case StartPrepare(_, _) => PrepareFacts(p, s, r, a);
      case AddToken => PrepareFacts(p, s, r, a);
      case SaveNonce => PrepareFacts(p, s, r, a);
      case ReloadAfterPrepare(_) => PrepareFacts(p, s, r, a);
      case StartRescan(_) => RescanFacts(p, s, r, a);
      case RescanDoc => RescanFacts(p, s, r, a);
      case FinishRescan => RescanFacts(p, s, r, a);
      case ReloadMissing => RescanFacts(p, s, r, a);
      case AssertHolds => CheckpointFacts(p, s, r, a);
      case AssertFails => CheckpointFacts(p, s, r, a);
      case Checkpoint => CheckpointFacts(p, s, r, a);
      case ReloadAfterCheckpoint => CheckpointFacts(p, s, r, a);
      case SetAborting => AbortFacts(p, s, r, a);
      case ReloadAfterAbort => AbortFacts(p, s, r, a);
      case StartAbort => AbortFacts(p, s, r, a);
      case PullAborted(_, _) => AbortFacts(p, s, r, a);
      case SetAborted => AbortFacts(p, s, r, a);
      case StartApply => ApplyFacts(p, s, r, a);
      case ApplyOp(_) => ApplyFacts(p, s, r, a);
      case FinishOps => ApplyFacts(p, s, r, a);
      case SetApplied => ApplyFacts(p, s, r, a);
    }
  }

  lemma EnabledRunner(p: Program, s: System, r: RunnerId, a: Action)
    requires Enabled(p, s, r, a) && !Outside(a)
    ensures r in s.runners
  {
    hide EnabledAt;
  }

  lemma {:induction false} OutsideOk(p: Program, s: System, r: RunnerId, a: Action)
    requires TxnsOk(p, s.txns) && Enabled(p, s, r, a) && Outside(a)
    requires r in s.runners ==> RunnerOk(p, Do(p, s, r, a).txns, s.runners[r])
    ensures RunnerOk(p, Do(p, s, r, a).txns, Do(p, s, r, a).runners[r])
  {
    hide PositionOk, StoredOk, EnabledAt, DoAt;
    if a.Begin? { IdlePositions(p); }
  }

  /** The runner that acts stays in order. */
  lemma {:induction false} ActionRunnerOk(p: Program, s: System, r: RunnerId, a: Action, s': System)
    requires Inv(p, s) && Enabled(p, s, r, a) && s' == Do(p, s, r, a)
    ensures r in s'.runners && RunnerOk(p, s'.txns, s'.runners[r])
  {
    ActionFacts(p, s, r, a);
    hide PositionOk, StoredOk, Enabled, EnabledAt, DoAt, Moves, DocOk, CopyOk, RunnerOk, TxnsOk, AllMove, Do, Acting,
      Stepped;
    if r in s.runners {
      RunnerKeeps(p, s.txns, s'.txns, s.runners[r]);
    }
    if Outside(a) {
      OutsideOk(p, s, r, a);
    } else {
      EnabledRunner(p, s, r, a);
      IsActing(p, s, r, a);
      ActionStepped(p, s, r, a);
      SteppedOk(p, s, s', r);
    }
  }

  // ---------------------------------------------------------------------------------------
  // Documents

  /** Only three kinds of action touch documents, and only one of them their revisions. */
  lemma {:induction false} DocsUntouched(p: Program, s: System, r: RunnerId, a: Action)
    requires Enabled(p, s, r, a) && !a.AddToken? && !a.PullAborted? && !a.ApplyOp?
    ensures Do(p, s, r, a).docs == s.docs
  {
    hide Revnos, CoversWith, Covers, WithToken, Thinner, Matches;
  }

  lemma {:induction false} QueuesOnly(p: Program, s: System, r: RunnerId, a: Action, key: DocKey)
    requires Enabled(p, s, r, a) && key in s.docs && (a.AddToken? || a.PullAborted?)
    ensures key in Do(p, s, r, a).docs
    ensures Do(p, s, r, a).docs[key] == s.docs[key].(queue := Do(p, s, r, a).docs[key].queue)
  {
    hide Revnos, CoversWith, Covers, WithToken, Thinner, Matches;
  }

  lemma QueueDoesNotMatter(p: Program, txns: map<Id, Txn>, key: DocKey, d: Doc, queue: seq<Token>)
    requires DocOk(p, txns, key, d)
    ensures DocOk(p, txns, key, d.(queue := queue))
  {
  }

  lemma {:induction false} ApplyDocOk(p: Program, s: System, r: RunnerId, a: Action, key: DocKey)
    requires Inv(p, s) && Enabled(p, s, r, a) && key in s.docs && a.ApplyOp?
    ensures key in Do(p, s, r, a).docs && DocOk(p, s.txns, key, Do(p, s, r, a).docs[key])
    ensures s.docs[key].log <= Do(p, s, r, a).docs[key].log && s.docs[key].first == Do(p, s, r, a).docs[key].first
  {
    hide Revnos, CoversWith, Covers, WithToken, Thinner, StoredOk;
    assert DocOk(p, s.txns, key, s.docs[key]) && RunnerOk(p, s.txns, s.runners[r]);
    var at := s.runners[r].at;
    var c, op := s.runners[r].copies[at.t], p[at.t][at.op];
    if key == op.doc && Matches(op, c.revnos[at.op], Token(at.t, c.nonce), s.docs[key]) {
      ApplyKeepsDoc(p, s.txns, p[at.t], at.t, at.op, c, s.docs[key], a.kept);
    }
  }

  lemma {:induction false} ActionDocOk(p: Program, s: System, r: RunnerId, a: Action, key: DocKey)
    requires Inv(p, s) && Enabled(p, s, r, a) && key in s.docs
    ensures key in Do(p, s, r, a).docs && DocOk(p, s.txns, key, Do(p, s, r, a).docs[key])
    ensures s.docs[key].log <= Do(p, s, r, a).docs[key].log && s.docs[key].first == Do(p, s, r, a).docs[key].first
  {
    hide Do, Enabled, DocOk, RunnerOk, TxnsOk;
    if a.ApplyOp? {
      ApplyDocOk(p, s, r, a, key);
    } else if a.AddToken? || a.PullAborted? {
      QueuesOnly(p, s, r, a, key);
      QueueDoesNotMatter(p, s.txns, key, s.docs[key], Do(p, s, r, a).docs[key].queue);
    } else {
      DocsUntouched(p, s, r, a);
    }
  }

  /** A guarded update adds one effect at the revision its transaction planned. */
  lemma {:induction false} ApplyKeepsDoc(p: Program, txns: map<Id, Txn>, ops: seq<Op>, t: Id, i: nat, c: Txn, d: Doc,
      kept: seq<Token>)
    requires t in txns && t in p && p[t] == ops && i < |ops| && i < |c.revnos|
    requires Started(txns[t].state) && c.revnos == txns[t].revnos
    requires DocOk(p, txns, ops[i].doc, d) && ops[i].change && d.revno == c.revnos[i]
    ensures DocOk(p, txns, ops[i].doc, Doc(kept, c.revnos[i] + 1, d.first, d.log + [Effect(t, i)]))
  {
    var d' := Doc(kept, c.revnos[i] + 1, d.first, d.log + [Effect(t, i)]);
    forall k | 0 <= k < |d'.log| ensures EffectOk(p, txns, ops[i].doc, d'.log[k], d'.first + k) {
      if k < |d.log| {
        assert d'.log[k] == d.log[k] && EffectOk(p, txns, ops[i].doc, d.log[k], d.first + k);
      }
    }
  }

  // ---------------------------------------------------------------------------------------
  // Runs

  /** The invariant survives every action of every runner. */
  lemma {:induction false} InvNext(p: Program, s: System, s': System)
    requires Inv(p, s) && Next(p, s, s')
    ensures Inv(p, s') && AllMove(s.txns, s'.txns)
    ensures forall d :: d in s.docs ==>
      d in s'.docs && s.docs[d].log <= s'.docs[d].log && s.docs[d].first == s'.docs[d].first
  {
    var r, a :| Enabled(p, s, r, a) && s' == Do(p, s, r, a);
    hide Do, Enabled, RunnerOk, DocOk, TxnsOk, AllMove;
    ActionFacts(p, s, r, a);
    ActionRunnerOk(p, s, r, a, s');
    forall q | q in s'.runners ensures RunnerOk(p, s'.txns, s'.runners[q]) {
      if q != r { RunnerKeeps(p, s.txns, s'.txns, s.runners[q]); }
    }
    forall d | d in s'.docs
      ensures DocOk(p, s'.txns, d, s'.docs[d])
      ensures s.docs[d].log <= s'.docs[d].log && s.docs[d].first == s'.docs[d].first
    {
      ActionDocOk(p, s, r, a, d);
      DocKeeps(p, s.txns, s'.txns, d, s'.docs[d]);
    }
  }

  lemma {:induction false} RunInv(p: Program, run: seq<System>, i: nat)
    requires IsRun(p, run) && i < |run|
    ensures Inv(p, run[i])
  {
    if i > 0 {
      RunInv(p, run, i - 1);
      assert Next(p, run[i - 1], run[i]);
      InvNext(p, run[i - 1], run[i]);
    }
  }

  /** Later stored transactions, as seen from earlier ones. */
  ghost predicate Later(x: Txn, y: Txn) {
    && (x.state == Aborted ==> y.state == Aborted)
    && (Started(x.state) ==> Started(y.state) && y.revnos == x.revnos && y.nonce == x.nonce)
    && (x.nonce != 0 ==> y.nonce == x.nonce)
    && (x.state == Applied ==> y.state == Applied)
    && (x.state == Aborting ==> y.state == Aborting || y.state == Aborted)
    && (x.state != Preparing ==> y.state != Preparing)
  }

  lemma {:induction false} RunLater(p: Program, run: seq<System>, i: nat, j: nat)
    requires IsRun(p, run) && i <= j < |run|
    ensures forall t :: t in run[i].txns ==> t in run[j].txns && Later(run[i].txns[t], run[j].txns[t])
    ensures forall d :: d in run[i].docs ==>
      d in run[j].docs && run[i].docs[d].log <= run[j].docs[d].log && run[i].docs[d].first == run[j].docs[d].first
    decreases j
  {
    hide Later, Next, Inv, AllMove, Init;
    if i == j {
      LaterSame();
    } else {
      RunLater(p, run, i, j - 1);
      RunInv(p, run, j - 1);
      assert Next(p, run[j - 1], run[j]);
      InvNext(p, run[j - 1], run[j]);
      forall t | t in run[i].txns ensures t in run[j].txns && Later(run[i].txns[t], run[j].txns[t]) {
        LaterMoves(p, run[j - 1], run[j], t, run[i].txns[t]);
      }
    }
  }

  lemma LaterSame()
    ensures forall x :: Later(x, x)
  {
  }

  lemma LaterMoves(p: Program, s: System, s': System, t: Id, x: Txn)
    requires Inv(p, s) && AllMove(s.txns, s'.txns) && t in s.txns && Later(x, s.txns[t])
    ensures t in s'.txns && Later(x, s'.txns[t])
  {
    assert Moves(s.txns[t], s'.txns[t]);
  }

  // ---------------------------------------------------------------------------------------
  // The guarantees

  /** A stored transaction only ever takes edges of the six-state graph. */
  lemma {:induction false} StoredStatesFollowGraph(p: Program, run: seq<System>, i: nat, t: Id)
    requires IsRun(p, run) && i + 1 < |run| && t in run[i].txns
    ensures t in run[i + 1].txns
    ensures run[i].txns[t] == run[i + 1].txns[t] || Edge(run[i].txns[t].state, run[i + 1].txns[t].state)
  {
    RunInv(p, run, i);
    assert Next(p, run[i], run[i + 1]);
    hide Next, Inv;
    InvNext(p, run[i], run[i + 1]);
    assert Moves(run[i].txns[t], run[i + 1].txns[t]);
  }

  /** The unconditional write of the aborted state never overwrites applying or applied. */
  lemma {:induction false} AbortedWriteIsSafe(p: Program, run: seq<System>, i: nat, r: RunnerId)
    requires IsRun(p, run) && i < |run| && Enabled(p, run[i], r, SetAborted)
    ensures var x := run[i].txns[run[i].runners[r].at.t]; x.state == Aborting || x.state == Aborted
  {
    RunInv(p, run, i);
    assert RunnerOk(p, run[i].txns, run[i].runners[r]);
  }

  ghost predicate Holds(s: System, r: RunnerId, t: Id) {
    r in s.runners && t in s.runners[r].copies
  }

  /** Runner `r` is carrying out the operations of `t`. */
  ghost predicate IsApplying(s: System, r: RunnerId, t: Id) {
    r in s.runners && s.runners[r].at.ApplyingOp? && s.runners[r].at.t == t
  }

  lemma {:induction false} ApplyingIsStored(p: Program, run: seq<System>, i: nat, r: RunnerId, t: Id)
    requires IsRun(p, run) && i < |run| && IsApplying(run[i], r, t)
    ensures Holds(run[i], r, t) && t in run[i].txns
    ensures Started(run[i].txns[t].state)
    ensures run[i].runners[r].copies[t].revnos == run[i].txns[t].revnos
    ensures run[i].runners[r].copies[t].nonce == run[i].txns[t].nonce
  {
    RunInv(p, run, i);
    assert RunnerOk(p, run[i].txns, run[i].runners[r]);
  }

  /** If any runner ever applies `t`, no runner ever takes it for aborted, before or after. */
  lemma {:induction false} AppliedNeverAborted(p: Program, run: seq<System>, i: nat, r: RunnerId, j: nat, q: RunnerId,
      t: Id)
    requires IsRun(p, run) && i < |run| && j < |run|
    requires IsApplying(run[i], r, t) && Holds(run[j], q, t)
    ensures run[j].runners[q].copies[t].state != Aborted && run[j].runners[q].copies[t].state != Aborting
  {
    ApplyingIsStored(p, run, i, r, t);
    RunInv(p, run, j);
    assert RunnerOk(p, run[j].txns, run[j].runners[q]);
    assert CopyOk(run[j].runners[q].copies[t], run[j].txns[t]);
    hide Inv, RunnerOk, IsRun;
    if i <= j { RunLater(p, run, i, j); } else { RunLater(p, run, j, i); }
  }

  /** All runners that ever apply `t` use the same nonce and the same revisions. */
  lemma {:induction false} AppliersAgree(p: Program, run: seq<System>, i: nat, r: RunnerId, j: nat, q: RunnerId, t: Id)
    requires IsRun(p, run) && i <= j < |run|
    requires IsApplying(run[i], r, t) && IsApplying(run[j], q, t)
    ensures Holds(run[i], r, t) && Holds(run[j], q, t)
    ensures run[i].runners[r].copies[t].revnos == run[j].runners[q].copies[t].revnos
    ensures run[i].runners[r].copies[t].nonce == run[j].runners[q].copies[t].nonce
  {
    ApplyingIsStored(p, run, i, r, t);
    ApplyingIsStored(p, run, j, q, t);
    hide IsRun, IsApplying;
    RunLater(p, run, i, j);
  }

  /**
   At every position the states are those the code can deal with there: each check of its own copy
   holds, and a reload after a lost race never finds the transaction where the race was lost. So an
   assertion that has failed is never followed by a checkpoint.
   */
  lemma {:induction false} NoImpossibleState(p: Program, run: seq<System>, i: nat, r: RunnerId)
    requires IsRun(p, run) && i < |run| && r in run[i].runners && !run[i].runners[r].at.Idle?
    ensures var at := run[i].runners[r].at; Holds(run[i], r, at.t) && at.t in run[i].txns
    ensures var at := run[i].runners[r].at; var c := run[i].runners[r].copies[at.t]; var x := run[i].txns[at.t];
      && (at.LostPrepare? ==> x.state != Preparing)
      && (at.LostCheckpoint? || at.LostAbort? ==> x.state != Preparing && x.state != Prepared)
      && (at.Rescanning? || at.Asserting? || at.Checkpointing? || at.SettingAborting? ==> c.state == Prepared)
      && (at.PullingAborted? ==> c.state == Aborting)
      && (at.ApplyingOp? ==> c.state == Applying)
  {
    RunInv(p, run, i);
    assert RunnerOk(p, run[i].txns, run[i].runners[r]);
  }

  /** The revision of a document counts the operations that took effect on it. */
  lemma {:induction false} RevisionCountsEffects(p: Program, run: seq<System>, i: nat, j: nat, d: DocKey)
    requires IsRun(p, run) && i <= j < |run| && d in run[i].docs
    ensures d in run[j].docs && run[i].docs[d].log <= run[j].docs[d].log
    ensures run[j].docs[d].revno - run[i].docs[d].revno == |run[j].docs[d].log| - |run[i].docs[d].log|
  {
    RunInv(p, run, i);
    RunInv(p, run, j);
    hide IsRun, RunnerOk, TxnsOk;
    RunLater(p, run, i, j);
    assert DocOk(p, run[i].txns, d, run[i].docs[d]);
    assert DocOk(p, run[j].txns, d, run[j].docs[d]);
  }

  /** Each operation takes effect at most once, over all runners, crashes and resumptions. */
  lemma {:induction false} AtMostOnce(p: Program, run: seq<System>, i: nat, d: DocKey, k: nat, l: nat)
    requires IsRun(p, run) && i < |run| && d in run[i].docs && k < l < |run[i].docs[d].log|
    ensures run[i].docs[d].log[k] != run[i].docs[d].log[l]
  {
    RunInv(p, run, i);
    var doc := run[i].docs[d];
    assert DocOk(p, run[i].txns, d, doc);
    assert EffectOk(p, run[i].txns, d, doc.log[k], doc.first + k);
    assert EffectOk(p, run[i].txns, d, doc.log[l], doc.first + l);
  }

  /** A transaction some runner takes for aborted has no effect, then or ever. */
  lemma {:induction false} AbortedHasNoEffect(p: Program, run: seq<System>, i: nat, q: RunnerId, t: Id, j: nat,
      d: DocKey, k: nat)
    requires IsRun(p, run) && i < |run| && j < |run| && Holds(run[i], q, t) &&
      run[i].runners[q].copies[t].state == Aborted
    requires d in run[j].docs && k < |run[j].docs[d].log|
    ensures run[j].docs[d].log[k].txn != t
  {
    RunInv(p, run, i);
    RunInv(p, run, j);
    assert RunnerOk(p, run[i].txns, run[i].runners[q]);
    assert CopyOk(run[i].runners[q].copies[t], run[i].txns[t]);
    assert DocOk(p, run[j].txns, d, run[j].docs[d]);
    assert EffectOk(p, run[j].txns, d, run[j].docs[d].log[k], run[j].docs[d].first + k);
    hide Inv, RunnerOk, IsRun, DocOk;
    if i <= j { RunLater(p, run, i, j); } else { RunLater(p, run, j, i); }
  }

  /** The number of changes to `d` among the first `n` operations. */
  function ChangesBefore(ops: seq<Op>, d: DocKey, n: nat): nat
    requires n <= |ops|
  {
    if n == 0 then 0 else ChangesBefore(ops, d, n - 1) + (if ops[n - 1] == Op(d, true) then 1 else 0)
  }

  lemma {:induction false} ChangesFromFirst(ops: seq<Op>, d: DocKey, n: nat)
    requires 0 < n <= |ops|
    ensures ChangesBefore(ops, d, n) == (if ops[0] == Op(d, true) then 1 else 0) + ChangesBefore(ops[1..], d, n - 1)
  {
    if n > 1 { ChangesFromFirst(ops, d, n - 1); }
  }

  /** What a plan says: the current revision plus the changes that come first. */
  lemma {:induction false} PlanCounts(ops: seq<Op>, rev: Revisions, i: nat)
    requires Covers(ops, rev) && i < |ops|
    ensures RevnosFor(ops, rev)[i] == rev[ops[i].doc] + ChangesBefore(ops, ops[i].doc, i)
  {
    if i > 0 {
      var rev' := if ops[0].change then rev[ops[0].doc := rev[ops[0].doc] + 1] else rev;
      PlanCounts(ops[1..], rev', i - 1);
      ChangesFromFirst(ops, ops[i].doc, i);
    }
  }

  /** The changes of one transaction to a document take effect in the order given, and the
      places between two of them are exactly those of its own changes in between: no other
      transaction changes the document there. */
  lemma {:induction false} ChangesStayTogether(p: Program, run: seq<System>, i: nat, d: DocKey, k: nat, l: nat)
    requires IsRun(p, run) && i < |run| && d in run[i].docs && k < |run[i].docs[d].log| && l < |run[i].docs[d].log|
    requires run[i].docs[d].log[k].txn == run[i].docs[d].log[l].txn
    ensures var log := run[i].docs[d].log; log[k].txn in p && log[k].op < |p[log[k].txn]| && log[l].op < |p[log[l].txn]|
    ensures var log := run[i].docs[d].log; var ops := p[log[k].txn];
      l - k == ChangesBefore(ops, d, log[l].op) - ChangesBefore(ops, d, log[k].op)
  {
    RunInv(p, run, i);
    var doc := run[i].docs[d];
    assert DocOk(p, run[i].txns, d, doc);
    assert EffectOk(p, run[i].txns, d, doc.log[k], doc.first + k);
    assert EffectOk(p, run[i].txns, d, doc.log[l], doc.first + l);
    var t := doc.log[k].txn;
    assert StoredOk(p[t], run[i].txns[t]);
    hide IsRun, Inv, DocOk;
    var rev :| Covers(p[t], rev) && run[i].txns[t].revnos == RevnosFor(p[t], rev);
    PlanCounts(p[t], rev, doc.log[k].op);
    PlanCounts(p[t], rev, doc.log[l].op);
  }
}
