/**
 The control of a flusher: what `run`, `recurse` and `advance` do between their database calls.

 Each runner of the transaction protocol is given the state its flusher keeps in memory: the queue
 of each document as it read it last, its place in the recursion or in the walk over the sorted
 components, and what the current call of `advance` may pull. Every step is one of the protocol's
 or none, so what is proved about all runs of the protocol holds here; but entries are pulled, and
 pre-requisites found, exactly as the queues in memory say.
 */
module TxnFlusher {
  import opened TxnGraph
  import opened SortedIds
  import opened TarjanSpec
  import opened Tarjan
  import opened Tokens
  import opened TxnProtocol
  import opened TxnSafety
  import opened TxnQueues
  import opened FlushOrder
  import opened FlushWalk

  /** A call of `recurse` in progress: the documents and queue entries it has still to look at. */
  datatype Frame = Frame(t: Id, docs: seq<DocKey>, entries: seq<Token>)

  datatype Task =
    | Recursing(stack: seq<Frame>)          // looking at the entries of the last frame
    | Entering(stack: seq<Frame>, t: Id)    // `recurse` has been called for `t`
    | Flushing(calls: seq<Call>)            // the calls by force that are left, the current one first

  /** `toPull` holds the documents that the abort in progress has still to pull from. */
  datatype Flusher = Flusher(goal: Id, queue: Queues, task: Task, call: Option<Call>, toPull: seq<DocKey>)

  datatype World = World(s: System, flushers: map<RunnerId, Flusher>)

  datatype Move =
    | Start                                 // a runner starts, or starts again
    | Run(goal: Id)                         // it is asked to run a new transaction
    | Resume(goal: Id)                      // or to resume one
    | Begin                                 // `advance` is called
    | Act(a: Action)                        // one action inside `advance`
    | Return                                // `advance` returns nil or asks for pre-requisites
    | NextDoc                               // `recurse` goes on to the next document
    | LoadNext(k: nat)                      // it loads the transaction of its entry `k`
    | Leave                                 // it returns
    | Flush(m: map<Id, seq<Id>>)            // the successor lists are built and sorted
    | GiveUp                                // an error or a panic ends the flush

  // ---------------------------------------------------------------------------------------
  // Queues in memory

  /** The queue of `d` as read last; empty if never read. */
  function View(queue: Queues, d: DocKey): seq<Token> {
    if d in queue then queue[d] else []
  }

  /** The documents of a transaction in ascending order, each once. */
  ghost function DocKeys(ops: seq<Op>): (r: seq<DocKey>)
    ensures forall d :: d in r <==> exists i :: 0 <= i < |ops| && ops[i].doc == d
  {
    Ascending(set i | 0 <= i < |ops| :: ops[i].doc)
  }

  predicate Found(queue: Queues, token: Token, docs: seq<DocKey>) {
    forall d :: d in docs ==> token in View(queue, d)
  }

  /** Entry `i` stands ahead of `token` and belongs to another transaction. */
  predicate OtherAhead(q: seq<Token>, token: Token, i: nat) {
    i < |q| && token !in q[..i] && q[i].id != token.id
  }

  ghost predicate PreReqs(queue: Queues, token: Token, docs: seq<DocKey>) {
    exists d, i :: d in docs && OtherAhead(View(queue, d), token, i)
  }

  /** The documents of a transaction in the order of its operations. */
  function OpDocs(ops: seq<Op>): (r: seq<DocKey>)
    ensures forall d :: d in r <==> exists i :: 0 <= i < |ops| && ops[i].doc == d
  {
    if ops == [] then [] else
      var rest := OpDocs(ops[..|ops| - 1]);
      var last := ops[|ops| - 1].doc;
      assert ops == ops[..|ops| - 1] + [ops[|ops| - 1]];
      if last in rest then rest else rest + [last]
  }

  /** What is left of a queue when `gone` is pulled. */
  function Without(q: seq<Token>, gone: seq<Token>): (r: seq<Token>)
    ensures forall x :: x in r <==> x in q && x !in gone
  {
    if q == [] then [] else (if q[0] in gone then [] else [q[0]]) + Without(q[1..], gone)
  }

  /** What `advance` may pull: a nil map stands for the transaction alone. */
  function PullMap(call: Call, nonce: Nonce): map<Id, Nonce> {
    if call.pull.Some? then call.pull.value else map[call.id := nonce]
  }

  /** The transaction's own entry is kept until its last change of the document. */
  ghost function Kept(ops: seq<Op>, i: nat, token: Token): Option<Token>
    requires i < |ops|
  {
    if IsPullOp(ops, i) then None else Some(token)
  }

  /** The nonces of the transactions seen. */
  function Nonces(copies: map<Id, Txn>): map<Id, Nonce> {
    map t | t in copies :: copies[t].nonce
  }

  // ---------------------------------------------------------------------------------------
  // Steps

  ghost predicate IsForced(f: Flusher) { f.task.Flushing? }

  predicate Fresh(w: World, r: RunnerId) {
    r in w.s.runners && r !in w.flushers && w.s.runners[r] == Runner(map[], Idle)
  }

  /** A flusher between two calls of `advance`. */
  predicate Between(w: World, r: RunnerId) {
    r in w.s.runners && r in w.flushers && w.flushers[r].call.None? && w.s.runners[r].at.Idle?
  }

  /** A flusher inside `advance`, in the middle of the transaction called for. */
  predicate Inside(w: World, r: RunnerId) {
    && r in w.s.runners && r in w.flushers && w.flushers[r].call.Some?
    && !w.s.runners[r].at.Idle? && w.s.runners[r].at.t == w.flushers[r].call.value.id
    && w.s.runners[r].at.t in w.s.runners[r].copies
  }

  predicate AllKnown(entries: seq<Token>, copies: map<Id, Txn>) {
    forall x :: x in entries ==> x.id in copies
  }

  predicate HasFrame(f: Flusher) { f.task.Recursing? && f.task.stack != [] }

  function Top(f: Flusher): Frame
    requires HasFrame(f)
  {
    f.task.stack[|f.task.stack| - 1]
  }

  function WithTop(f: Flusher, frame: Frame): Flusher
    requires HasFrame(f)
  {
    f.(task := Recursing(f.task.stack[..|f.task.stack| - 1] + [frame]))
  }

  /** The transaction `advance` is called for next. */
  function NextCall(f: Flusher): Option<Call> {
    match f.task
    case Recursing(_) => None
    case Entering(_, t) => Some(Call(t, None))
    case Flushing(calls) => if calls == [] then None else Some(calls[0])
  }

  /** `advance` without force stops here: entries of others are ahead. */
  ghost predicate StopsForPreReqs(p: Program, f: Flusher, run: Runner)
    requires !run.at.Idle? && run.at.t in run.copies
  {
    && !IsForced(f) && run.at.t in p
    && var c := run.copies[run.at.t]; var token, docs := Token(run.at.t, c.nonce), DocKeys(p[run.at.t]);
    PreReqs(f.queue, token, docs)
    && (run.at.Asserting? || (run.at.Advancing? && c.state == Prepared && Found(f.queue, token, docs)))
  }

  /** How the flusher's memory restricts an action of the protocol. */
  ghost predicate Obeys(p: Program, s: System, f: Flusher, run: Runner, a: Action)
    requires f.call.Some? && !run.at.Idle? && run.at.t in run.copies && run.at.t in p && run.at.t in s.txns
  {
    var at, ops, c := run.at, p[run.at.t], run.copies[run.at.t];
    match a
    case StartPrepare(_, todo) => todo == DocKeys(ops)
    case StartRescan(todo) => todo == DocKeys(ops) && !StopsForPreReqs(p, f, run)
    case ReloadAfterPrepare(usable) => usable == Found(f.queue, Token(at.t, s.txns[at.t].nonce), DocKeys(ops))
    case AssertHolds => !StopsForPreReqs(p, f, run)
    case AssertFails => !StopsForPreReqs(p, f, run)
    case PullAborted(doc, kept) => f.toPull != [] && doc == f.toPull[0] && doc in s.docs
      && kept == Without(s.docs[doc].queue, Pulled(View(f.queue, doc), PullMap(f.call.value, c.nonce), None))
    case SetAborted => f.toPull == []
    case ApplyOp(kept) => at.ApplyingOp? && at.op < |ops| && ops[at.op].doc in s.docs
      && var doc, token := ops[at.op].doc, Token(at.t, c.nonce);
      kept == Without(s.docs[doc].queue,
                      Pulled(View(f.queue, doc), PullMap(f.call.value, c.nonce), Kept(ops, at.op, token)))
    case _ => true
  }

  /** What the flusher remembers of an action. */
  ghost function Remember(p: Program, s: System, f: Flusher, at: Position, a: Action): Flusher
    requires !at.Idle?
  {
    match a
    case AddToken =>
      if at.AddingTokens? && at.todo != [] && at.todo[0] in s.docs then
        f.(queue := f.queue[at.todo[0] := WithToken(s.docs[at.todo[0]].queue, Token(at.t, at.nonce))])
      else f
    case RescanDoc =>
      if at.Rescanning? && at.todo != [] && at.todo[0] in s.docs then
        f.(queue := f.queue[at.todo[0] := s.docs[at.todo[0]].queue])
      else f
    case AssertFails => if at.t in p then f.(toPull := OpDocs(p[at.t])) else f
    case StartAbort => f.(toPull := [])
    case PullAborted(_, _) => if f.toPull == [] then f else f.(toPull := f.toPull[1..])
    case _ => f
  }

  /** The successor lists of the queues in memory; the goal is not done. */
  ghost predicate CanFlush(w: World, r: RunnerId, m: map<Id, seq<Id>>) {
    && Between(w, r) && w.flushers[r].task == Recursing([])
    && var f, copies := w.flushers[r], w.s.runners[r].copies;
    && f.goal in copies && copies[f.goal].state != Applied && copies[f.goal].state != Aborted
    && IsQueueGraph(Nonces(copies), f.queue, m)
  }

  ghost function CallsFor(seen: map<Id, Nonce>, queue: Queues, m: map<Id, seq<Id>>, goal: Id): seq<Call>
    requires IsQueueGraph(seen, queue, m)
  {
    GraphIsClosed(seen, queue, m);
    ComponentsSeen(seen, queue, m);
    var sorted := Components(Edges(m));
    if LeadsTo(m, goal) then Walk(seen, sorted, |sorted|, map[]) else [Call(goal, None)]
  }

  ghost predicate Returns(p: Program, f: Flusher, run: Runner)
    requires !run.at.Idle? && run.at.t in run.copies
  {
    || (run.at.Advancing? && (run.copies[run.at.t].state == Applied || run.copies[run.at.t].state == Aborted))
    || StopsForPreReqs(p, f, run)
  }

  ghost predicate Legal(p: Program, w: World, r: RunnerId, m: Move) {
    match m
    case Start => true
    case Run(goal) => Fresh(w, r) && goal in p && goal !in w.s.txns
    case Resume(goal) => Fresh(w, r) && goal in w.s.txns
    case Begin => Between(w, r) && NextCall(w.flushers[r]).Some? &&
      NextCall(w.flushers[r]).value.id in w.s.runners[r].copies
    case Act(a) => Inside(w, r) && !Outside(a) && Enabled(p, w.s, r, a) &&
      Obeys(p, w.s, w.flushers[r], w.s.runners[r], a)
    case Return =>
      if Inside(w, r) then Returns(p, w.flushers[r], w.s.runners[r])
      else r in w.s.runners && r in w.flushers && w.flushers[r].call.Some? && w.s.runners[r].at.Idle?
    case NextDoc => Between(w, r) && HasFrame(w.flushers[r]) && Top(w.flushers[r]).docs != []
      && AllKnown(Top(w.flushers[r]).entries, w.s.runners[r].copies)
    case LoadNext(k) => Between(w, r) && HasFrame(w.flushers[r])
      && var entries := Top(w.flushers[r]).entries;
      k < |entries| && AllKnown(entries[..k], w.s.runners[r].copies)
      && entries[k].id !in w.s.runners[r].copies && entries[k].id in w.s.txns
    case Leave => Between(w, r) && HasFrame(w.flushers[r]) && Top(w.flushers[r]).docs == []
      && AllKnown(Top(w.flushers[r]).entries, w.s.runners[r].copies)
    case Flush(m) => CanFlush(w, r, m)
    case GiveUp => r in w.s.runners && r in w.flushers
  }

  /** `advance` has returned. */
  ghost function Continue(p: Program, f: Flusher, preReqs: bool): Flusher {
    match f.task
    case Recursing(_) => f.(call := None)
    case Entering(stack, t) =>
      if preReqs && t in p
      then f.(call := None, task := Recursing(stack + [Frame(t, DocKeys(p[t]), [])]))
      else f.(call := None, task := Recursing(stack))
    case Flushing(calls) => f.(call := None, task := Flushing(if calls == [] then [] else calls[1..]))
  }

  function Drop(flushers: map<RunnerId, Flusher>, r: RunnerId): map<RunnerId, Flusher> {
    map q | q in flushers && q != r :: flushers[q]
  }

  ghost function After(p: Program, w: World, r: RunnerId, m: Move): World
    requires Legal(p, w, r, m)
  {
    match m
    case Start => World(Do(p, w.s, r, Spawn), Drop(w.flushers, r))
    case Run(goal) =>
      World(Do(p, w.s, r, Submit(goal)), w.flushers[r := Flusher(goal, map[], Entering([], goal), None, [])])
    case Resume(goal) =>
      World(Do(p, w.s, r, Load(goal)), w.flushers[r := Flusher(goal, map[], Entering([], goal), None, [])])
    case Begin =>
      var f := w.flushers[r];
      World(Do(p, w.s, r, TxnProtocol.Begin(NextCall(f).value.id)), w.flushers[r := f.(call := NextCall(f))])
    case Act(a) =>
      var s' := Do(p, w.s, r, a);
      var f := Remember(p, w.s, w.flushers[r], w.s.runners[r].at, a);
      World(s', if r in s'.runners && s'.runners[r].at.Idle? && !a.SetApplied?
                then Drop(w.flushers, r) else w.flushers[r := f])
    case Return =>
      if Inside(w, r) then
        World(Do(p, w.s, r, Stop),
              w.flushers[r := Continue(p, w.flushers[r], StopsForPreReqs(p, w.flushers[r], w.s.runners[r]))])
      else
        World(w.s, w.flushers[r := Continue(p, w.flushers[r], false)])
    case NextDoc =>
      var f := w.flushers[r];
      World(w.s, w.flushers[r := WithTop(f, Frame(Top(f).t, Top(f).docs[1..], View(f.queue, Top(f).docs[0])))])
    case LoadNext(k) =>
      var f := w.flushers[r];
      var id, rest := Top(f).entries[k].id, WithTop(f, Top(f).(entries := Top(f).entries[k + 1..]));
      World(Do(p, w.s, r, Load(id)), w.flushers[r := f.(task := Entering(rest.task.stack, id))])
    case Leave =>
      var f := w.flushers[r];
      World(w.s, w.flushers[r := f.(task := Recursing(f.task.stack[..|f.task.stack| - 1]))])
    case Flush(m) =>
      var f := w.flushers[r];
      World(w.s, w.flushers[r := f.(task := Flushing(CallsFor(Nonces(w.s.runners[r].copies), f.queue, m, f.goal)))])
    case GiveUp => World(Do(p, w.s, r, Stop), Drop(w.flushers, r))
  }

  ghost predicate Steps(p: Program, w: World, w': World) {
    exists r, m :: Legal(p, w, r, m) && w' == After(p, w, r, m)
  }

  ghost predicate First(w: World) {
    Init(w.s) && w.flushers == map[]
  }

  /** A finite piece of history of any number of flushers. */
  ghost predicate IsHistory(p: Program, run: seq<World>) {
    && run != [] && First(run[0])
    && forall i :: 0 <= i < |run| - 1 ==> Steps(p, run[i], run[i + 1])
  }

  // ---------------------------------------------------------------------------------------
  // Histories of flushers are runs of the protocol

  /** The system part of each world. */
  function Systems(run: seq<World>): (r: seq<System>)
    ensures |r| == |run| && forall i :: 0 <= i < |r| ==> r[i] == run[i].s
  {
    seq(|run|, i requires 0 <= i < |run| => run[i].s)
  }

  /** The action of the protocol behind a move; a runner that only thinks stays where it is. */
  ghost function ActionOf(w: World, r: RunnerId, m: Move): Action {
    match m
    case Start => Spawn
    case Run(goal) => Submit(goal)
    case Resume(goal) => Load(goal)
    case Begin =>
      if r in w.flushers && NextCall(w.flushers[r]).Some?
      then TxnProtocol.Begin(NextCall(w.flushers[r]).value.id) else Stop
    case Act(a) => a
    case LoadNext(k) =>
      if r in w.flushers && HasFrame(w.flushers[r]) && k < |Top(w.flushers[r]).entries|
      then Load(Top(w.flushers[r]).entries[k].id) else Stop
    case Return => Stop
    case NextDoc => Stop
    case Leave => Stop
    case Flush(_) => Stop
    case GiveUp => Stop
  }

  lemma {:induction false} StepIsAction(p: Program, w: World, r: RunnerId, m: Move)
    requires Legal(p, w, r, m)
    ensures Enabled(p, w.s, r, ActionOf(w, r, m)) && After(p, w, r, m).s == Do(p, w.s, r, ActionOf(w, r, m))
  {
    hide Obeys, StopsForPreReqs, IsQueueGraph, CallsFor, EnabledAt, DoAt, Remember, Continue;
    if r in w.s.runners && w.s.runners[r].at.Idle? { assert w.s.runners[r := w.s.runners[r]] == w.s.runners; }
  }

  /** A history of flushers is a run of the protocol. */
  lemma {:induction false} HistoryIsRun(p: Program, run: seq<World>)
    requires IsHistory(p, run)
    ensures IsRun(p, Systems(run))
  {
    var plain := Systems(run);
    forall i | 0 <= i < |plain| - 1 ensures TxnProtocol.Next(p, plain[i], plain[i + 1]) {
      assert Steps(p, run[i], run[i + 1]);
      var r, m :| Legal(p, run[i], r, m) && run[i + 1] == After(p, run[i], r, m);
      hide Legal, After;
      StepIsAction(p, run[i], r, m);
    }
  }

  /** At moment `i` the runner makes the move `m`. */
  ghost predicate Moved(p: Program, run: seq<World>, i: nat, r: RunnerId, m: Move) {
    i + 1 < |run| && Legal(p, run[i], r, m) && run[i + 1] == After(p, run[i], r, m)
  }

  lemma {:induction false} StepOf(p: Program, run: seq<World>, i: nat) returns (r: RunnerId, m: Move)
    requires IsHistory(p, run) && i + 1 < |run|
    ensures Moved(p, run, i, r, m)
  {
    hide Legal, After, First;
    assert Steps(p, run[i], run[i + 1]);
    r, m :| Legal(p, run[i], r, m) && run[i + 1] == After(p, run[i], r, m);
  }

  lemma {:induction false} HistoryInv(p: Program, run: seq<World>, i: nat)
    requires IsHistory(p, run) && i < |run|
    ensures TxnSafety.Inv(p, run[i].s)
  {
    HistoryIsRun(p, run);
    RunInv(p, Systems(run), i);
  }
}
