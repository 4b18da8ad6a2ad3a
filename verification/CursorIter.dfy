/**
 The iterator over a query's results: a queue of documents filled by replies, emptied by the
 caller, and refilled by at most one request at a time.
 */
module CursorIter {

  datatype Option<T> = None | Some(value: T)

  datatype Failure = NotFound | Other

  /** What one uninterrupted stretch of `Next` ends with; `Blocked` never returns. */
  datatype Turn<Doc> = Delivered(doc: Doc) | Ended | Waiting | TimedOut | Panicked | Blocked

  /** How sending a request can go. */
  datatype Sending = Sent | NoSocket | QueryFailed

  /** What the connection hands to the reply callback. */
  datatype Reply<Doc> =
    | ReplyError
    | NoDocuments(cursor: nat)
    | Document(number: nat, replyDocs: nat, cursor: nat, doc: Doc)

  /** How many documents a request asks for; a negative one asks for a single batch. */
  function Asked(opLimit: int): nat { if opLimit < 0 then -opLimit else opLimit }

  /** A request that asks for no more than the limit; zero leaves the number to the server. */
  predicate Fits(limit: nat, opLimit: int) { limit == 0 || 1 <= Asked(opLimit) <= limit }

  class Iter<Doc> {
    var docData: seq<Doc>
    var err: Option<Failure>
    var cursorId: nat
    var opLimit: int
    var limit: int
    var docsToReceive: int
    var docsBeforeMore: int
    /** Whether a call returned with the mutex held. */
    var locked: bool

    /** Whether a limit was set; the field itself falls to zero when it is used up. */
    ghost const limited: bool
    /** Whether the first request fitted the limit. */
    ghost const fits: bool
    /** The limit of the request that has had no reply yet. */
    ghost var outstanding: Option<int>
    /** Documents of the current reply still to be handed over. */
    ghost var pending: nat
    /** Requests that were counted but failed to go out. */
    ghost var phantom: nat
    ghost var received: seq<Doc>
    ghost var taken: seq<Doc>

    /** Right after the query itself has been sent, or has failed to go out. */
    constructor (limit: nat, opLimit: int, sending: Sending)
      ensures Valid() && received == [] && taken == [] && docData == [] && pending == 0 && !locked
      ensures limited == (limit != 0) && fits == Fits(limit, opLimit)
      ensures this.limit == limit && this.opLimit == opLimit && docsToReceive == 1 && cursorId == 0
      ensures outstanding == if sending.Sent? then Some(opLimit) else None
      ensures err.Some? <==> !sending.Sent?
    {
      docData, cursorId, locked := [], 0, false;
      this.limit, this.opLimit := limit, opLimit;
      docsToReceive, docsBeforeMore := 1, 0;
      err := if sending.Sent? then None else Some(Other);
      limited, fits := limit != 0, Fits(limit, opLimit);
      outstanding, phantom := if sending.Sent? then Some(opLimit) else None, if sending.Sent? then 0 else 1;
      pending, received, taken := 0, [], [];
    }

    /** How many documents the outstanding request may still bring. */
    ghost function Requested(): nat
      reads this
    {
      if outstanding.Some? then Asked(outstanding.value) else 0
    }

    ghost predicate Valid()
      reads this
    {
      // Every document received was taken or is queued, in the order of arrival.
      && received == taken + docData
      && docsToReceive == pending + (if outstanding.Some? then 1 else 0) + phantom
      && (phantom > 0 ==> err.Some?)
      && (outstanding.Some? ==> outstanding.value == opLimit)
      && (if limited then limit >= 0 && (limit == 0 ==> err.Some?) else limit == 0 && fits)
      && (limited && fits ==> Within())
      // The countdown to the next request runs only while none is outstanding.
      && (docsBeforeMore >= 0 && outstanding.Some? ==> docData == [] && pending == 0)
    }

    /** What is queued, arriving or requested stays within what is left of the limit. */
    ghost predicate Within()
      reads this
    {
      && |docData| + pending + Requested() <= limit
      && opLimit != 0
      && (limit > 0 && opLimit < 0 ==> cursorId == 0)
      && (limit > 0 && docsBeforeMore >= 0 && outstanding.None? ==> |docData| + pending < limit)
    }

    /** What the next request asks for: no more than is left of the limit, where one is left. */
    ghost function NextLimit(): (next: int)
      reads this
      ensures limit <= 0 ==> next == opLimit
      ensures limit > 0 ==> next <= opLimit && next + docsToReceive + |docData| <= limit
      ensures next == opLimit || next + docsToReceive + |docData| == limit
    {
      if limit > 0 && limit - docsToReceive - |docData| < opLimit then limit - docsToReceive - |docData| else opLimit
    }

    /** Whether handing over a document is the moment to ask for more. */
    ghost predicate Due()
      reads this
    {
      cursorId != 0 && err.None? && docsBeforeMore == 0
    }

    /** Asks for more, for no more than is left of the limit. */
    method GetMore(sending: Sending)
      requires Valid() && outstanding.None? && err.None?
      requires limited && fits ==> 0 < limit && |docData| + pending < limit && opLimit > 0
      requires docsBeforeMore <= 0 || (docData == [] && pending == 0)
      modifies this`err, this`opLimit, this`docsToReceive, this`outstanding, this`phantom
      ensures docsToReceive == pending + (if outstanding.Some? then 1 else 0) + phantom
      ensures phantom > 0 ==> err.Some?
      ensures limited && fits ==> opLimit >= 1 && |docData| + pending + Requested() <= limit
      ensures opLimit == if sending.NoSocket? then old(opLimit) else old(NextLimit())
      ensures outstanding == if sending.Sent? then Some(old(NextLimit())) else None
      ensures err == if sending.Sent? then None else Some(Other)
      ensures docsToReceive == old(docsToReceive) + if sending.NoSocket? then 0 else 1
      ensures phantom == old(phantom) + if sending.QueryFailed? then 1 else 0
    {
      if sending.NoSocket? {
        err := Some(Other);
        return;
      }
      if limit > 0 {
        var left := limit - docsToReceive - |docData|;
        if left < opLimit { opLimit := left; }
      }
      if sending.QueryFailed? {
        err := Some(Other);
        phantom := phantom + 1;
      } else {
        outstanding := Some(opLimit);
      }
      docsToReceive := docsToReceive + 1;
    }

    /** Only an open cursor can fail to be killed; the failure replaces the mere end of the data. */
    method KillCursor(killFails: bool) returns (killed: bool)
      modifies this`err, this`cursorId
      ensures cursorId == 0 && (killed <==> !(old(cursorId) != 0 && killFails))
      ensures err == if killed then old(err) else Some(Other)
    {
      killed := true;
      if cursorId != 0 {
        killed := !killFails;
        if !killed && (err.None? || err.value.NotFound?) { err := Some(Other); }
        cursorId := 0;
      }
    }

    /** Takes the first of the queued documents. */
    method Take(sending: Sending, killFails: bool) returns (turn: Turn<Doc>)
      requires Valid() && !locked && docData != []
      modifies this
      ensures turn != Panicked ==> Valid()
      ensures turn == Panicked <==> old(limit) == 1 && |old(docData)| > 1
      ensures turn == Ended <==> old(limit) == 1 && |old(docData)| == 1 && old(cursorId) != 0 && killFails
      ensures turn == Panicked || turn == Ended || turn == Delivered(old(docData)[0])
      ensures received == old(received) && pending == old(pending)
      ensures taken == old(taken) + [old(docData)[0]] && docData == old(docData)[1..]
      ensures turn == Ended ==> err == Some(Other)
      ensures locked <==> turn == Ended
      ensures limit == if old(limit) > 0 then old(limit) - 1 else old(limit)
      ensures old(limit) != 1 ==>
        && cursorId == old(cursorId)
        && outstanding == (if old(Due()) && sending.Sent? then Some(opLimit) else old(outstanding))
        && err == (if old(Due()) && !sending.Sent? then Some(Other) else old(err))
        && docsBeforeMore == old(docsBeforeMore) - (if old(cursorId) != 0 && old(err).None? then 1 else 0)
      ensures old(limit) == 1 ==> cursorId == 0 || turn == Panicked
      ensures old(limit) == 1 ==> outstanding == old(outstanding) && docsBeforeMore == old(docsBeforeMore)
      ensures old(limit) == 1 && turn.Delivered? ==> err == Some(NotFound)
      ensures outstanding != old(outstanding) ==> old(outstanding).None?
    {
      var doc := docData[0];
      docData := docData[1..];
      taken := taken + [doc];
      assert received == taken + docData;
      if limit > 0 {
        limit := limit - 1;
        if limit == 0 {
          if |docData| > 0 { return Panicked; }
          err := Some(NotFound);
          var killed := KillCursor(killFails);
          if !killed {
            locked := true;
            return Ended;
          }
        }
      }
      CountDown(sending);
      turn := Delivered(doc);
    }

    /** While the cursor is open, asks for more in the background exactly when the countdown is at zero. */
    method CountDown(sending: Sending)
      requires Valid() && (docsBeforeMore >= 0 ==> outstanding.None?)
      modifies this`err, this`opLimit, this`docsToReceive, this`outstanding, this`phantom, this`docsBeforeMore
      ensures Valid()
      ensures docsBeforeMore == old(docsBeforeMore) - if cursorId != 0 && old(err).None? then 1 else 0
      ensures outstanding == if old(Due()) && sending.Sent? then Some(opLimit) else old(outstanding)
      ensures err == if old(Due()) && !sending.Sent? then Some(Other) else old(err)
      ensures opLimit == if old(Due()) && !sending.NoSocket? then old(NextLimit()) else old(opLimit)
      ensures docsToReceive == old(docsToReceive) + if old(Due()) && !sending.NoSocket? then 1 else 0
      ensures outstanding != old(outstanding) ==> old(outstanding).None?
    {
      if cursorId != 0 && err.None? {
        if docsBeforeMore == 0 { GetMore(sending); }
        docsBeforeMore := docsBeforeMore - 1;
      }
    }

    /**
     One stretch of `Next`, from taking the lock or waking up until it returns or waits again.
     Queued documents are delivered one by one in order. The one that uses up the limit is lost
     exactly when killing a cursor that is still open fails; the lock then stays taken, and every
     later call blocks. The panic is reached exactly when documents are left at that point, which
     never happens if the first request fitted the limit. A call that waits has a reply to wait for
     exactly when one was on its way or its own request went out: it waits even if that failed.
     */
    method NextTurn(timedOut: bool, sending: Sending, killFails: bool) returns (turn: Turn<Doc>)
      requires Valid()
      modifies this
      ensures turn != Panicked ==> Valid()
      ensures turn == Blocked <==> old(locked)
      ensures turn == Blocked ==> unchanged(this)
      ensures turn == Panicked <==> !old(locked) && old(limit) == 1 && |old(docData)| > 1
      ensures fits ==> turn != Panicked
      ensures received == old(received) && pending == old(pending)
      ensures !old(locked) && old(docData) != [] && turn != Panicked ==>
        (turn.Delivered? <==> !(old(limit) == 1 && old(cursorId) != 0 && killFails))
      ensures turn.Delivered? ==>
        && old(docData) != [] && turn.doc == old(docData)[0]
        && docData == old(docData)[1..] && taken == old(taken) + [turn.doc]
      ensures !old(locked) && old(docData) != [] && !turn.Delivered? && turn != Panicked ==>
        turn == Ended && locked && docData == [] && taken == old(taken) + old(docData) && err == Some(Other)
      ensures turn.Delivered? ==> !locked
      ensures !old(locked) && old(docData) == [] ==> docData == [] && taken == old(taken) && !locked
      ensures !old(locked) && old(docData) == [] ==>
        (turn == Ended <==> old(err).Some? || (old(docsToReceive) == 0 && old(cursorId) == 0))
      ensures !old(locked) && old(docData) == [] && turn != Ended ==>
        turn == if old(docsToReceive) == 0 && timedOut then TimedOut else Waiting
      ensures limit == if old(limit) > 0 && !old(locked) && old(docData) != [] then old(limit) - 1 else old(limit)
      ensures turn == Waiting ==> (outstanding.Some? || pending > 0 <==> old(docsToReceive) > 0 || sending.Sent?)
      ensures turn == Waiting && old(docsToReceive) == 0 ==>
        && outstanding == (if sending.Sent? then Some(old(NextLimit())) else None)
        && err == (if sending.Sent? then None else Some(Other))
      ensures turn == Waiting && old(docsToReceive) > 0 ==> unchanged(this)
      ensures turn == TimedOut ==> unchanged(this)
      ensures turn == Ended && old(docData) == [] ==> err == if old(err).Some? then old(err) else Some(NotFound)
      ensures turn.Delivered? && old(limit) != 1 ==>
        && outstanding == (if old(Due()) && sending.Sent? then Some(opLimit) else old(outstanding))
        && err == (if old(Due()) && !sending.Sent? then Some(Other) else old(err))
      ensures turn.Delivered? && old(limit) == 1 ==> outstanding == old(outstanding) && err == Some(NotFound)
      ensures outstanding != old(outstanding) ==> old(outstanding).None?
      ensures turn.Delivered? && old(limit) != 1 ==> cursorId == old(cursorId)
    {
      if locked { return Blocked; }
      if err.None? && |docData| == 0 && (docsToReceive > 0 || cursorId != 0) {
        if docsToReceive == 0 {
          if timedOut { return TimedOut; }
          GetMore(sending);
        }
        return Waiting;
      }
      if |docData| > 0 {
        turn := Take(sending, killFails);
        return;
      } else if err.Some? {
        return Ended;
      } else if cursorId == 0 {
        err := Some(NotFound);
        return Ended;
      }
      turn := Panicked;
    }

    /** After how many of the documents at hand and arriving to ask for more; never at the limit. */
    ghost function Before(replyDocs: nat, ahead: int): int
      reads this
    {
      if limit == 0 || |docData| + replyDocs < limit then |docData| + replyDocs - ahead else -1
    }

    /** The first document of a reply tells how many come and where to ask for more. */
    method Announce(replyDocs: nat, cursor: nat, ahead: int)
      requires docsToReceive == phantom && pending == 0 && outstanding.None? && replyDocs >= 1
      requires limited && fits ==> 0 < limit && |docData| + replyDocs <= limit
      modifies this`docsToReceive, this`docsBeforeMore, this`cursorId, this`pending
      ensures docsToReceive == pending + phantom && pending == replyDocs - 1 && cursorId == cursor
      ensures docsBeforeMore == Before(replyDocs, ahead)
      ensures limited && fits && docsBeforeMore >= 0 ==> |docData| + replyDocs < limit
    {
      docsToReceive := docsToReceive + replyDocs - 1;
      var docsToProcess := |docData| + replyDocs;
      if limit == 0 || docsToProcess < limit {
        docsBeforeMore := docsToProcess - ahead;
      } else {
        docsBeforeMore := -1;
      }
      cursorId := cursor;
      pending := replyDocs - 1;
    }

    /**
     The reply callback; it waits for ever once the lock stays taken. `ahead` is the share of the
     reply at which to ask for more. The server sends no more documents than requested and closes
     the cursor of a single batch, and the connection hands over one reply at a time.
     */
    method OnReply(reply: Reply<Doc>, ahead: int)
      requires Valid()
      requires reply.Document? && reply.number > 0 ==> pending > 0
      requires !(reply.Document? && reply.number > 0) ==> pending == 0 && outstanding.Some?
      requires reply.Document? && reply.number == 0 ==> reply.replyDocs >= 1
      requires reply.Document? && reply.number == 0 && outstanding.value != 0 ==>
        reply.replyDocs <= Asked(outstanding.value)
      requires !reply.ReplyError? && !(reply.Document? && reply.number > 0) && outstanding.value < 0 ==>
        reply.cursor == 0
      modifies this
      ensures Valid() && locked == old(locked)
      ensures old(locked) ==> unchanged(this)
      ensures taken == old(taken) && limit == old(limit)
      ensures !old(locked) ==>
        && received == old(received) + (if reply.Document? then [reply.doc] else [])
        && docData == old(docData) + (if reply.Document? then [reply.doc] else [])
        && outstanding == (if reply.Document? && reply.number > 0 then old(outstanding) else None)
        && pending ==
          (if !reply.Document? then 0 else if reply.number == 0 then reply.replyDocs - 1 else old(pending) - 1)
        && cursorId ==
          (if reply.ReplyError? || (reply.Document? && reply.number > 0) then old(cursorId)
           else if reply.NoDocuments? && reply.cursor == 0 then old(cursorId) else reply.cursor)
        && err ==
          (if reply.ReplyError? then Some(Other)
           else if reply.NoDocuments? && reply.cursor == 0 then Some(NotFound) else old(err))
        && docsBeforeMore ==
          (if reply.Document? && reply.number == 0 then old(Before(reply.replyDocs, ahead)) else old(docsBeforeMore))
      ensures opLimit == old(opLimit) && phantom == old(phantom)
    {
      if locked { return; }
      docsToReceive := docsToReceive - 1;
      if !(reply.Document? && reply.number > 0) { outstanding := None; }
      match reply {
        case ReplyError => err := Some(Other);
        case NoDocuments(cursor) =>
          if cursor != 0 { cursorId := cursor; } else { err := Some(NotFound); }
        case Document(number, replyDocs, cursor, doc) =>
          if number == 0 { Announce(replyDocs, cursor, ahead); } else { pending := pending - 1; }
          received := received + [doc];
          docData := docData + [doc];
          assert received == taken + docData;
      }
    }
  }

  /** `Limit(2)`, a reply of two documents, and a cursor that cannot be killed: the second is lost. */
  method SecondOfTwoIsLost<Doc>(x: Doc, y: Doc)
    returns (first: Turn<Doc>, second: Turn<Doc>, third: Turn<Doc>, ghost received: seq<Doc>)
    ensures received == [x, y]
    ensures first == Delivered(x) && second == Ended && third == Blocked
  {
    var iter := new Iter<Doc>(2, 2, Sent);
    iter.OnReply(Document(0, 2, 7, x), 0);
    iter.OnReply(Document(1, 2, 7, y), 0);
    received := iter.received;
    assert iter.docData == [x, y];
    first := iter.NextTurn(false, Sent, true);
    assert iter.docData == [y];
    second := iter.NextTurn(false, Sent, true);
    third := iter.NextTurn(false, Sent, true);
  }

  /**
   A request for more that cannot be sent strands the call that made it: it waits with no reply on
   its way, so nobody wakes it, and the error is never reported.
   */
  method FailedRequestStrands<Doc>(doc: Doc, sending: Sending)
    returns (turn: Turn<Doc>, err: Option<Failure>, ghost awaited: bool)
    requires !sending.Sent?
    ensures turn == Waiting && err == Some(Other) && !awaited
  {
    var iter := new Iter<Doc>(0, 0, Sent);
    iter.OnReply(Document(0, 1, 7, doc), 0);
    assert iter.docData == [doc];
    turn := iter.NextTurn(false, Sent, false);
    turn := iter.NextTurn(false, sending, false);
    err, awaited := iter.err, iter.outstanding.Some? || iter.pending > 0;
  }

  /**
   Whenever the first request does not fit the limit, a server that sends what it may leads to the
   panic: fitting is exactly what keeps it away.
   */
  method UnfitPanics<Doc>(limit: nat, opLimit: int, doc: Doc) returns (turn: Turn<Doc>)
    requires !Fits(limit, opLimit)
    ensures turn == Panicked
  {
    var iter := new Iter<Doc>(limit, opLimit, Sent);
    for k := 0 to limit + 1
      invariant iter.Valid() && !iter.locked && iter.limit == limit && |iter.docData| == k
      invariant if k == 0 then iter.outstanding == Some(opLimit) && iter.pending == 0 else iter.pending == limit + 1 - k
    {
      iter.OnReply(Document(k, limit + 1, 0, doc), 0);
    }
    for k := 0 to limit - 1
      invariant iter.Valid() && !iter.locked && iter.limit == limit - k && |iter.docData| == limit + 1 - k
    {
      turn := iter.NextTurn(false, Sent, false);
    }
    turn := iter.NextTurn(false, Sent, false);
  }
}
