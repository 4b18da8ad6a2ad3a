/**
 Many runners pushing transactions through their states over a shared store.

 A database call is one atomic action of one runner; between two of its calls a runner keeps
 its program position and possibly stale copies of transactions. Runners may stop or crash
 between any two actions. Which assertions hold, whether pre-requisites were found and which
 queue entries get pulled is left open, so every outcome the code can have is a behaviour here.
 */
module TxnProtocol {
  import opened TxnGraph
  import opened Tokens

  type RunnerId = nat

  datatype TxnState = Preparing | Prepared | Aborting | Applying | Aborted | Applied

  /** An update of a document, or an assertion about it that changes nothing. */
  datatype Op = Op(doc: DocKey, change: bool)

  type Program = map<Id, seq<Op>>

  /** A transaction document, or a runner's copy of one. */
  datatype Txn = Txn(state: TxnState, nonce: Nonce, revnos: seq<int>)

  datatype Effect = Effect(txn: Id, op: nat)

  /** A document. `first` and `log` are history: its revision at the start, and the operations
      that have taken effect on it since. */
  datatype Doc = Doc(queue: seq<Token>, revno: int, first: int, log: seq<Effect>)

  type Revisions = map<DocKey, int>

  /** Where a runner stands inside `advance`. */
  datatype Position =
    | Idle
    | Advancing(t: Id)
    | AddingTokens(t: Id, nonce: Nonce, todo: seq<DocKey>, rev: Revisions)
    | LostPrepare(t: Id, rev: Revisions)
    | Rescanning(t: Id, todo: seq<DocKey>, rev: Revisions)
    | TokenMissing(t: Id)
    | Asserting(t: Id, revnos: seq<int>)
    | Checkpointing(t: Id, revnos: seq<int>)
    | LostCheckpoint(t: Id)
    | SettingAborting(t: Id)
    | LostAbort(t: Id)
    | PullingAborted(t: Id)
    | ApplyingOp(t: Id, op: nat)
    | SettingApplied(t: Id)

  datatype Runner = Runner(copies: map<Id, Txn>, at: Position)

  datatype System = System(txns: map<Id, Txn>, docs: map<DocKey, Doc>, runners: map<RunnerId, Runner>)

  /** What a runner does next; parameters are the choices left open. */
  datatype Action =
    | Spawn                          // a runner starts, or starts again after a crash
    | Submit(t: Id)                  // Run inserts a new transaction
    | Load(t: Id)                    // load a transaction document
    | Begin(t: Id)                   // advance is called
    | Stop                           // advance returns, with or without an error, or panics
    | StartPrepare(nonce: Nonce, todo: seq<DocKey>)
    | AddToken
    | SaveNonce
    | ReloadAfterPrepare(usable: bool)
    | StartRescan(todo: seq<DocKey>)
    | RescanDoc
    | FinishRescan
    | ReloadMissing
    | AssertHolds
    | AssertFails
    | Checkpoint
    | ReloadAfterCheckpoint
    | SetAborting
    | ReloadAfterAbort
    | PullAborted(doc: DocKey, kept: seq<Token>)
    | SetAborted
    | StartAbort
    | StartApply
    | ApplyOp(kept: seq<Token>)
    | FinishOps
    | SetApplied

  // ---------------------------------------------------------------------------------------
  // Revisions

  /** The revision each operation must find, from the current ones: a change adds one. */
  function RevnosFor(ops: seq<Op>, rev: Revisions): (r: seq<int>)
    requires Covers(ops, rev)
    ensures |r| == |ops|
  {
    if ops == [] then [] else
      [rev[ops[0].doc]] + RevnosFor(ops[1..], if ops[0].change then rev[ops[0].doc := rev[ops[0].doc] + 1] else rev)
  }

  ghost predicate Covers(ops: seq<Op>, rev: Revisions) {
    forall i :: 0 <= i < |ops| ==> ops[i].doc in rev
  }

  ghost predicate CoversWith(ops: seq<Op>, rev: Revisions, todo: seq<DocKey>) {
    forall i :: 0 <= i < |ops| ==> ops[i].doc in rev || ops[i].doc in todo
  }

  // ---------------------------------------------------------------------------------------
  // Actions

  /** Every document of `todo` is one that an operation is about. */
  ghost predicate OnlyDocs(ops: seq<Op>, todo: seq<DocKey>) {
    forall d :: d in todo ==> exists i :: 0 <= i < |ops| && ops[i].doc == d
  }

  ghost predicate Ahead(q: seq<Token>, x: Token, y: Token) {
    exists i, j :: 0 <= i < j < |q| && q[i] == x && q[j] == y
  }

  /** What a pull leaves of a queue, in the old order. */
  ghost predicate Thinner(kept: seq<Token>, q: seq<Token>) {
    && (forall x :: x in kept ==> x in q)
    && forall x, y :: Ahead(kept, x, y) ==> Ahead(q, x, y)
  }

  ghost predicate Enabled(p: Program, s: System, r: RunnerId, a: Action) {
    if a.Spawn? then true
    else if r !in s.runners then false
    else if a.Submit? then s.runners[r].at.Idle? && a.t in p && a.t !in s.txns
    else if a.Load? then s.runners[r].at.Idle? && a.t in s.txns
    else if a.Begin? then s.runners[r].at.Idle? && a.t in s.runners[r].copies
    else if a.Stop? then true
    else
      && !s.runners[r].at.Idle? && s.runners[r].at.t in s.runners[r].copies
      && s.runners[r].at.t in s.txns && s.runners[r].at.t in p
      && EnabledAt(p[s.runners[r].at.t], s, s.runners[r].at, s.runners[r].copies[s.runners[r].at.t], a)
  }

  /** The actions of a runner at `at`, holding the copy `c`, for a transaction with operations `ops`. */
  ghost predicate EnabledAt(ops: seq<Op>, s: System, at: Position, c: Txn, a: Action) {
    match a
    case StartPrepare(nonce, todo) =>
      at.Advancing? && c.state.Preparing? && nonce != 0 && CoversWith(ops, map[], todo) && OnlyDocs(ops, todo)
    case AddToken => at.AddingTokens? && at.todo != [] && at.todo[0] in s.docs
    case SaveNonce => at.AddingTokens? && at.todo == []
    case ReloadAfterPrepare(usable) => at.LostPrepare?
    case StartRescan(todo) => at.Advancing? && c.state.Prepared? && CoversWith(ops, map[], todo) && OnlyDocs(ops, todo)
    case RescanDoc => at.Rescanning? && at.todo != [] && at.todo[0] in s.docs
    case FinishRescan => at.Rescanning? && at.todo == []
    case ReloadMissing => at.TokenMissing?
    case AssertHolds => at.Asserting?
    case AssertFails => at.Asserting?
    case Checkpoint => at.Checkpointing?
    case ReloadAfterCheckpoint => at.LostCheckpoint?
    case SetAborting => at.SettingAborting?
    case ReloadAfterAbort => at.LostAbort?
    case PullAborted(doc, kept) => at.PullingAborted? && doc in s.docs && Thinner(kept, s.docs[doc].queue)
    case SetAborted => at.PullingAborted?
    case StartAbort => at.Advancing? && c.state.Aborting?
    case StartApply => at.Advancing? && c.state.Applying?
    case ApplyOp(kept) => at.ApplyingOp? && at.op < |ops| && ops[at.op].doc in s.docs && at.op < |c.revnos|
                       && Thinner(kept, s.docs[ops[at.op].doc].queue)
    case FinishOps => at.ApplyingOp? && at.op >= |ops|
    case SetApplied => at.SettingApplied?
    case _ => false
  }

  function Move(s: System, r: RunnerId, at: Position): System
    requires r in s.runners
  {
    s.(runners := s.runners[r := s.runners[r].(at := at)])
  }

  /** The runner's copy of `t` becomes `c`, and it moves on to `at`. */
  function Update(s: System, r: RunnerId, t: Id, c: Txn, at: Position): System
    requires r in s.runners
  {
    s.(runners := s.runners[r := Runner(s.runners[r].copies[t := c], at)])
  }

  function Save(s: System, t: Id, x: Txn): System {
    s.(txns := s.txns[t := x])
  }

  function Revnos(ops: seq<Op>, rev: Revisions): seq<int> {
    if forall i :: 0 <= i < |ops| ==> ops[i].doc in rev then RevnosFor(ops, rev) else []
  }

  function WithToken(q: seq<Token>, t: Token): seq<Token> {
    if t in q then q else q + [t]
  }

  /** The guarded update of one operation: revision and queue entry must match. */
  predicate Matches(op: Op, revno: int, token: Token, d: Doc) {
    op.change && revno >= 0 && d.revno == revno && token in d.queue
  }

  ghost function Do(p: Program, s: System, r: RunnerId, a: Action): System
    requires Enabled(p, s, r, a)
  {
    if a.Spawn? then s.(runners := s.runners[r := Runner(map[], Idle)])
    else if a.Submit? then Update(Save(s, a.t, Txn(Preparing, 0, [])), r, a.t, Txn(Preparing, 0, []), Idle)
    else if a.Load? then Update(s, r, a.t, s.txns[a.t], Idle)
    else if a.Begin? then Move(s, r, Advancing(a.t))
    else if a.Stop? then Move(s, r, Idle)
    else
      var run := s.runners[r];
      DoAt(p[run.at.t], s, r, run.at, run.copies[run.at.t], s.txns[run.at.t], a)
  }

  /** One action of `advance` for a transaction with operations `ops`, copy `c` and stored document `x`. */
  ghost function DoAt(ops: seq<Op>, s: System, r: RunnerId, at: Position, c: Txn, x: Txn, a: Action): System
    requires r in s.runners && !at.Idle? && EnabledAt(ops, s, at, c, a)
  {
    var t := at.t;
    match a
    // prepare
    case StartPrepare(nonce, todo) => Move(s, r, AddingTokens(t, nonce, todo, map[]))
    case AddToken =>
      var d := s.docs[at.todo[0]];
      Move(s.(docs := s.docs[at.todo[0] := d.(queue := WithToken(d.queue, Token(t, at.nonce)))]), r,
           AddingTokens(t, at.nonce, at.todo[1..], at.rev[at.todo[0] := d.revno]))
    case SaveNonce =>
      if x.state.Preparing? then
        Update(Save(s, t, x.(state := Prepared, nonce := at.nonce)), r, t, c.(state := Prepared, nonce := at.nonce),
               Asserting(t, Revnos(ops, at.rev)))
      else Move(s, r, LostPrepare(t, at.rev))
    case ReloadAfterPrepare(usable) =>
      Update(s, r, t, x,
             if x.state.Preparing? then Idle
             else if x.state.Prepared? && usable then Asserting(t, Revnos(ops, at.rev))
             else Advancing(t))
    // rescan
    case StartRescan(todo) => Move(s, r, Rescanning(t, todo, map[]))
    case RescanDoc =>
      var d := s.docs[at.todo[0]];
      Move(s, r, if Token(t, c.nonce) in d.queue then Rescanning(t, at.todo[1..], at.rev[at.todo[0] := d.revno])
                 else TokenMissing(t))
    case FinishRescan => Move(s, r, Asserting(t, Revnos(ops, at.rev)))
    case ReloadMissing => Update(s, r, t, x, if x.state.Preparing? || x.state.Prepared? then Idle else Advancing(t))
    // assert
    case AssertHolds => Move(s, r, Checkpointing(t, at.revnos))
    case AssertFails => Move(s, r, SettingAborting(t))
    // checkpoint
    case Checkpoint =>
      if x.state.Prepared? then
        Update(Save(s, t, x.(state := Applying, revnos := at.revnos)), r, t, c.(state := Applying, revnos := at.revnos),
          Advancing(t))
      else Move(s, r, LostCheckpoint(t))
    case ReloadAfterCheckpoint => Update(s, r, t, x, Advancing(t))
    // abortOrReload
    case SetAborting =>
      if x.state.Prepared? then
        Update(Save(s, t, x.(state := Aborting)), r, t, c.(state := Aborting), PullingAborted(t))
      else Move(s, r, LostAbort(t))
    case ReloadAfterAbort => Update(s, r, t, x, if x.state.Aborting? then PullingAborted(t) else Advancing(t))
    case StartAbort => Move(s, r, PullingAborted(t))
    case PullAborted(doc, kept) => s.(docs := s.docs[doc := s.docs[doc].(queue := kept)])
    case SetAborted => Update(Save(s, t, x.(state := Aborted)), r, t, c.(state := Aborted), Advancing(t))
    // apply
    case StartApply => Move(s, r, ApplyingOp(t, 0))
    case ApplyOp(kept) =>
      var op := ops[at.op];
      var d := s.docs[op.doc];
      Move(if Matches(op, c.revnos[at.op], Token(t, c.nonce), d)
           then s.(docs := s.docs[op.doc := Doc(kept, c.revnos[at.op] + 1, d.first, d.log + [Effect(t, at.op)])])
           else s,
           r, ApplyingOp(t, at.op + 1))
    case FinishOps => Update(s, r, t, c.(state := Applied), SettingApplied(t))
    case SetApplied =>
      Move(if x.state.Applying? then Save(s, t, x.(state := Applied)) else s, r, Idle)
  }

  ghost predicate Next(p: Program, s: System, s': System) {
    exists r, a :: Enabled(p, s, r, a) && s' == Do(p, s, r, a)
  }

  ghost predicate Init(s: System) {
    && s.txns == map[] && s.runners == map[]
    && forall d :: d in s.docs ==> s.docs[d].log == [] && s.docs[d].revno == s.docs[d].first
  }

  /** A finite piece of history: any interleaving of any number of runners. */
  ghost predicate IsRun(p: Program, run: seq<System>) {
    && run != [] && Init(run[0])
    && forall i :: 0 <= i < |run| - 1 ==> Next(p, run[i], run[i + 1])
  }
}
