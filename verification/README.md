# Muteswan: verified models of its hard parts

Muteswan is a pseudonymous message board over Tor. Its server side keeps data in MongoDB through the mgo
driver, which it carries in source; circles are shared as QR codes that a Go package prints and a JavaScript
reader decodes in the browser; its Android client moves keys and posts about in Base64. This project models
the parts of that code with the most state and arithmetic, and proves what they promise.

* **Transactions** (`TxnGraph`, `Tarjan`, `Tokens`, `FlushOrder`, `FlushWalk`, `TxnProtocol`, `TxnSafety`,
  `TxnQueues`, `TxnOrder`, `TxnMissing`, `TxnTries`; `TarjanOrder`, `FlushAgree`; `TxnFlusher`, `TxnRecursion`,
  `TxnAbort`, `TxnCareful`, `TxnTurn`; `TxnSteps`, `TxnCycle`, `TxnStory`, `TxnPanic`, `TxnLoss`, `TxnClash`).
  Many runners push multi-document transactions through six states over shared documents. The component sort
  is proved in place against a function of the edge set, the flush order against the queues it was built from,
  and safety over every run of any number of runners that may crash anywhere and act on stale copies. Over
  every run it is settled when an update of an applied transaction is missing. `TxnFlusher` adds what each
  flusher keeps in memory, the queues it read last, its recursion and its walk, and from these decides what it
  pulls and whether it waits; the last six modules hold concrete histories of it.
* **Reed-Solomon** (`Doubling`, `GaloisField`, `GaloisTables`, `GaloisLiterals`, `Polynomials`,
  `PolynomialOps`, `Codewords`, `ErrorPolynomials`, `EuclidRows`, `RsEncoder`, `RsSolutions`, `RsRepair`,
  `RsDecoder`, `ElemBytes`). From the field laws of the tables to full correction: the decoder restores every
  word with at most half as many errors as check bytes (ISO/IEC 18004:2006, section 6.5.2), and its outcome is
  settled for every other word as well.
* **QR printer and parser** (`QrBits`, `QrVersions`, `QrReaderVersions`, `QrBlocks`, `QrTurns`,
  `QrInterleave`, `QrDeinterleave`, `QrContent`, `QrSample`, `QrReader`, `QrSegments`, `QrPlacement`, `QrGrid`,
  `QrDecoder`, `BchCode`). Each layer has its round trip; `QrDecoder` joins them into one from content to content through
  misread codewords (ISO/IEC 18004:2006, sections 6.4 to 6.10).
* **BSON** (`BsonValues`, `BsonDecoder`, `BsonCodec`, `BsonSamples`). Nested, length-prefixed printing with lengths patched
  afterwards, against the cursor-based reader, for every document and every input.
* **GridFS, result iterator, queue** (`GridFs`, `CursorIter`, `RingQueue`). Buffers, a prefetch cache and
  counters that agree with a plain byte string or sequence over every run of operations.
* **Base64** (`Base64`, with `Octets` and `Arithmetic` shared). Exact buffer sizes and the round trip in three
  alphabets (RFC 3548, sections 3 and 4).

Code that changes things in place is a class or an array method here, tied by its contract to a function; what
the code promises is proved about that function. Database calls are single atomic actions. In `TxnProtocol`
everything a call may or may not do (an assertion holding, pre-requisites found, entries pulled) is left open, so
what is proved of its runs covers every outcome; `TxnFlusher` leaves only assertions and the interleaving open,
and every history of it is such a run (`TxnFlusher.HistoryIsRun`).

Where the code falls short of what one would expect of it, the model keeps the code's behaviour and the exact
condition is proved:

* Three data counts in the printer's version table are mistyped (`QrReaderVersions.TableAddsUp`). The printer
  never uses them; the sizes it computes agree with the reader's table everywhere (`QrBlocks.SizesAgree`).
* The reader refuses what the printer announces as UTF-8, so a text reads back exactly when it is alphanumeric
  and not empty (`QrSegments.TextBackIff`).
* A rescan can miss the entry of a transaction that still needs it, which the code answers with a panic: a
  runner that loads a transaction another one has left applying applies it alone, and pulls everything ahead of
  it in the queues it has read, prepared transactions included (`TxnPanic.RescanPanicReached`). The panic comes
  within reach exactly with the first pull that takes an entry still wanted (`TxnMissing.PanicIffTaken`,
  `TxnMissing.PanicIffNotWhole`).
* A flush can pull an entry too early, even the one of the transaction it applies, whose next change of the
  document is then lost (`TxnLoss.UpdateIsLost`). It needs a queue that shows more than when the graph was built;
  otherwise flushes pull carefully (`TxnCareful.NoMoreIsCareful`, and the exact condition of a pull in
  `TxnCareful.CarefulIff`).
* The order of a cycle is meant as a global agreement, but two flushers can disagree on it: one that has read the
  queues before a leading transaction was applied enters the cycle elsewhere (`TxnClash.SightsDisagree`; exactly
  then, `FlushAgree.FlushesAgreeIff`). Both plan the same revisions, and a transaction counts as applied without
  its updates, although `Run` promises otherwise (`TxnClash.ClashReached`). When an update of an applied
  transaction is missing, over every run, says `TxnTries.MissingIff`.
* `Seek` to the end of a file that ends on a chunk border, or of an empty file, asks for a chunk that does not
  exist and reports an error, and targets before the start are not checked (`GridFs.Reader.Seek`).
* BSON cuts Go's `int` to 32 bits and turns the obsolete binary subtype 2 into plain bytes; a document survives
  exactly when no integer is out of range and no such binary data occurs (`BsonDecoder.RoundTrip`).
* The iterator loses the document that uses up its limit exactly when killing a cursor still open fails, and
  every later call blocks (`CursorIter.Iter.NextTurn`, reached in `CursorIter.SecondOfTwoIsLost`). Its panic on
  documents left at the limit is reached exactly for first requests that do not fit the limit
  (`CursorIter.UnfitPanics`), such as those of `Limit(1)` followed by `Batch(2)`.
* A call of `Next` whose own request for more cannot be sent waits for a reply that nobody will send
  (`CursorIter.FailedRequestStrands`; exactly then, `CursorIter.Iter.NextTurn`).
* The Reed-Solomon decoder ends without an exception on words it has not made codewords, and hands some back as
  they are: exactly those whose second half of the syndromes is zero (`RsRepair.UnnoticedIff`). In general the
  result is a codeword exactly when the evaluator's degree is below the locator's
  (`RsRepair.RepairIsCodewordIff`).
* Reed-Solomon decoding is unambiguous exactly for words of at most 255 bytes or with fewer than two check bytes
  (`Codewords.LengthLimit`); no QR block comes near that.

`dafny verify dfyconfig.toml` checks the whole project.

## Model

| member | source | states |
|---|---|---|
| `TarjanSpec.ComponentsPartition` | src/labix.org/v2/mgo/txn/tarjan.go:8-29 | For every finite graph closed under successors the components hold each node exactly once, are non-empty and strongly connected, and no edge leads from a component to a later one |
| `TarjanSpec.SameComponentIffMutual` | src/labix.org/v2/mgo/txn/tarjan.go:51-96 | Two nodes come out in the same component exactly when each reaches the other: components are strongly connected and maximal |
| `TarjanSpec.ReverseTopological` | src/labix.org/v2/mgo/txn/tarjan.go:51-96 | What a node reaches comes out in its own component or an earlier one |
| `TarjanSpec.ReachesBackward` | src/labix.org/v2/mgo/txn/tarjan.go:51-96 | Any path, of any length, from component k stays in the components up to k |
| `Tarjan.TarjanData.StrongConnect` | src/labix.org/v2/mgo/txn/tarjan.go:51-96 | The in-place visit leaves index, stack and output exactly as the visiting function says, returns the low link, and touches no older node's low link |
| `Tarjan.TarjanData.VisitSuccessors` | src/labix.org/v2/mgo/txn/tarjan.go:59-74 | The loop over the sorted successors equals the visiting function step by step; nothing already visited is lost |
| `Tarjan.TarjanData.VisitSuccessor` | src/labix.org/v2/mgo/txn/tarjan.go:61-74 | One successor: new ones are visited, stacked ones lower the low link, finished ones change nothing |
| `Tarjan.TarjanData.PopComponent` | src/labix.org/v2/mgo/txn/tarjan.go:76-93 | Popping stops exactly at the root's place on the stack; the new component is what was above it, reversed, and only its flags are cleared |
| `Tarjan.TarjanSort` | src/labix.org/v2/mgo/txn/tarjan.go:8-29 | The output is a function of the edge set alone: neither map order nor the order or repetition in the successor lists can change it |
| `Tarjan.SortedNodes` | src/labix.org/v2/mgo/txn/tarjan.go:16-27 | Visiting starts from the nodes in ascending order, however the map yields them |
| `TarjanOrder.ComponentsDescend` | src/labix.org/v2/mgo/txn/tarjan.go:51-96 | In each component, who comes out earlier was visited later |
| `TarjanOrder.ComponentIsTour` | src/labix.org/v2/mgo/txn/tarjan.go:51-96 | A component comes out in the reverse order of a depth-first tour within it, from the member the whole visit comes to first |
| `TarjanOrder.OrdersAgreeIff` | src/labix.org/v2/mgo/txn/tarjan.go:51-96 | Two graphs with a common component that is the same inside let its members out in the same order if and only if they enter it at the same member |
| `TarjanOrder.UnledEntry` | src/labix.org/v2/mgo/txn/tarjan.go:16-27 | A component that no edge leads into is entered at its smallest member |
| `Tokens.TokensToPull` | src/labix.org/v2/mgo/txn/flusher.go:904-925 | The entries removed are everything up to the last valid entry of a pulled transaction, that entry spared if it is the one to keep, and behind it the outdated entries of such transactions |
| `Tokens.PulledIff` | src/labix.org/v2/mgo/txn/flusher.go:904-925 | Exactly the entries that go: those ahead of the last valid entry of a transaction to pull, that entry unless it is to be kept, and behind it the outdated entries of such transactions |
| `Tokens.PulledValid` | src/labix.org/v2/mgo/txn/flusher.go:904-925 | A valid entry is removed only if its transaction is pulled or it stands ahead of a valid entry of a pulled one; the kept token only in the second case |
| `FlushOrder.AddQueue` | src/labix.org/v2/mgo/txn/flusher.go:55-93 | One queue adds exactly the links of its chain of valid entries, and readiness is lost exactly when a link into the goal exists |
| `FlushOrder.BuildSuccessors` | src/labix.org/v2/mgo/txn/flusher.go:52-94 | Over all queues in any order: an edge for each pair of neighbouring valid entries, a node for each valid entry, and `ready` exactly when nothing leads to the goal |
| `FlushOrder.LeadsToIffPreceded` | src/labix.org/v2/mgo/txn/flusher.go:52-94 | The goal is not ready exactly when some queue holds a valid entry ahead of a valid entry of the goal |
| `FlushOrder.PrecedesReach` | src/labix.org/v2/mgo/txn/flusher.go:60-94 | A valid entry anywhere ahead of another in a queue, not only next to it, reaches it in the graph |
| `FlushOrder.GraphIsClosed` | src/labix.org/v2/mgo/txn/flusher.go:52-94 | The graph built from queues is closed under successors, as the sort demands |
| `FlushAgree.InnerEdge` | src/labix.org/v2/mgo/txn/flusher.go:52-94 | Inside a component of the queue graph an edge stands for two members next to each other in some queue, entries of others left aside |
| `FlushAgree.FlushesAgreeIff` | src/labix.org/v2/mgo/txn/flusher.go:105-127 | Two flushes, from whatever queues they have read, that find the members of a cycle in the same order in every queue force them in the same order if and only if their sorts enter the cycle at the same member |
| `FlushAgree.UnledFlushesAgree` | src/labix.org/v2/mgo/txn/flusher.go:105-127 | They do if in neither snapshot anybody else has a valid entry right ahead of a member |
| `FlushWalk.Flush` | src/labix.org/v2/mgo/txn/flusher.go:110-127 | The loop over the components makes the calls of the walk, with the pull map each of them gets |
| `FlushWalk.Run` | src/labix.org/v2/mgo/txn/flusher.go:52-127 | On a snapshot of the queues: the goal alone if ready, otherwise the components of the queue graph in order |
| `FlushWalk.PredecessorsFirst` | src/labix.org/v2/mgo/txn/flusher.go:97-127 | A transaction with a valid entry ahead of another's in some queue, in a different component, is advanced before it |
| `FlushWalk.FlushAdvancesEachOnce` | src/labix.org/v2/mgo/txn/flusher.go:97-127 | A flush advances exactly the transactions with a valid entry in some queue, each once |
| `FlushWalk.PullsOnlyAdvanced` | src/labix.org/v2/mgo/txn/flusher.go:110-127 | No call ever pulls a valid entry of another transaction that has not been advanced yet, even from a queue thinned out meanwhile |
| `FlushWalk.OwnEntryStays` | src/labix.org/v2/mgo/txn/flusher.go:724-729 | Before its pull operation a transaction's own entry is never among the entries pulled |
| `FlushWalk.SharedComponentKeepsEntries` | src/labix.org/v2/mgo/txn/flusher.go:112-120 | Where several transactions share a component, no member pulls an entry of itself or of the others |
| `FlushWalk.ReadyPullsOwn` | src/labix.org/v2/mgo/txn/flusher.go:97-103 | A ready goal pulls no valid entry but its own |
| `FlushWalk.PullClosed` | src/labix.org/v2/mgo/txn/flusher.go:110-127 | What a call may pull is closed under valid predecessors |
| `FlushWalk.FlushPullsCarefully` | src/labix.org/v2/mgo/txn/flusher.go:110-127 | What a call of a flush pulls, from a queue thinned out or grown meanwhile, is an entry with a nonce its transaction did not get, one of a transaction advanced before, or the caller's own |
| `TxnSafety.InvNext` | src/labix.org/v2/mgo/txn/flusher.go:156-187 | Every action of every runner keeps the invariant of the store and all stale copies; histories of documents only grow |
| `TxnSafety.RunInv` | src/labix.org/v2/mgo/txn/flusher.go:156-187 | The invariant holds in every state of every run, with any number of runners, interleavings and crashes |
| `TxnSafety.RunLater` | src/labix.org/v2/mgo/txn/txn.go:24-31 | Between any two moments of a run each stored transaction only moves forward, its nonce and revisions fixed once set |
| `TxnSafety.StoredStatesFollowGraph` | src/labix.org/v2/mgo/txn/flusher.go:156-187 | Each step leaves a stored transaction as it is or takes an edge of the six-state graph |
| `TxnSafety.AbortedWriteIsSafe` | src/labix.org/v2/mgo/txn/flusher.go:587-644 | When any runner performs the unconditional write of aborted, the stored state is aborting or aborted, never applying or applied |
| `TxnSafety.AppliedNeverAborted` | src/labix.org/v2/mgo/txn/flusher.go:646-671 | If any runner ever applies a transaction, no runner holds it as aborting or aborted at any time of the run |
| `TxnSafety.AppliersAgree` | src/labix.org/v2/mgo/txn/flusher.go:657-669 | All runners that apply a transaction, at whatever times, use the same nonce and the same revisions |
| `TxnSafety.NoImpossibleState` | src/labix.org/v2/mgo/txn/flusher.go:156-219 | At each position inside `advance` the state is one the code expects there; a failed write of prepared, applying or aborting finds the transaction gone ahead, so a failed assertion is never followed by the checkpoint |
| `TxnSafety.RevisionCountsEffects` | src/labix.org/v2/mgo/txn/flusher.go:697-752 | Between any two moments the revision of a document rises by exactly the number of operations that took effect on it |
| `TxnSafety.AtMostOnce` | src/labix.org/v2/mgo/txn/flusher.go:697-752 | Each update takes effect at most once over all runners, crashes and resumptions |
| `TxnSafety.AbortedHasNoEffect` | src/labix.org/v2/mgo/txn/flusher.go:894-901 | A transaction that any runner holds as aborted has no effect on any document, before or after |
| `TxnSafety.PlanCounts` | src/labix.org/v2/mgo/txn/flusher.go:352-358 | The revision an operation is to find is the current one plus the changes its own transaction makes to the document before it |
| `TxnSafety.ChangesStayTogether` | src/labix.org/v2/mgo/txn/flusher.go:697-752 | The updates one transaction makes to a document take effect in order with nobody else's update in between |
| `TxnQueues.QInvNext` | src/labix.org/v2/mgo/txn/flusher.go:156-187 | The invariant of queues and revisions survives every careful step: entries of prepared transactions are queued, those of started ones until each update is made, and an update tried is one made or overtaken |
| `TxnQueues.PreparedStaysQueued` | src/labix.org/v2/mgo/txn/flusher.go:458-467 | With careful pulls a prepared transaction's entry is in the queue of each of its documents |
| `TxnQueues.CarefulRescanNeverPanics` | src/labix.org/v2/mgo/txn/flusher.go:458-467 | With careful pulls a rescan that misses an entry always finds the transaction gone ahead, over every run |
| `TxnQueues.AppliedTookEffect` | src/labix.org/v2/mgo/txn/flusher.go:697-752 | In runs with careful pulls each update of an applied transaction stands in the log at the revision planned for it exactly when no other started transaction planned a change of the document for that revision |
| `TxnQueues.AppliedExactlyOnce` | src/labix.org/v2/mgo/txn/flusher.go:697-752 | In runs with careful pulls and without such a clash each update of an applied transaction is in the log exactly once |
| `TxnOrder.KeepsPlace` | src/labix.org/v2/mgo/txn/flusher.go:221-345 | As long as a transaction has its update of a document to come, its entry stays in the queue and nothing gets ahead of it |
| `TxnOrder.OneAtATime` | src/labix.org/v2/mgo/txn/flusher.go:492-506 | Who reads the revision of a document in turn, with nothing unfinished ahead, finds the update of every earlier reader made |
| `TxnOrder.NoClash` | src/labix.org/v2/mgo/txn/flusher.go:465-483 | In runs with careful pulls, if transactions plan from revisions read in turn, no two ever plan a change of the same document for the same revision |
| `TxnOrder.OrderedExactlyOnce` | src/labix.org/v2/mgo/txn/flusher.go:697-752 | In such runs each update of an applied transaction is in the log exactly once, over all runners, crashes and resumptions |
| `TxnTries.MissingIff` | src/labix.org/v2/mgo/txn/flusher.go:722-752 | Over every run, whatever is pulled: an update of an applied transaction is missing exactly when another transaction has taken its revision, or its document is not past that revision and the entry was gone when this change or an earlier one of the document was tried |
| `TxnTries.TryAccounts` | src/labix.org/v2/mgo/txn/flusher.go:722-752 | A try of a change brings its document past the revision planned, or finds the entry gone |
| `TxnFlusher.HistoryIsRun` | src/labix.org/v2/mgo/txn/flusher.go:32-187 | Histories of flushers, with the queues, recursion and walk each keeps in memory, are runs of the protocol; what such a history keeps beyond that is said by the rows of TxnRecursion, TxnAbort, TxnCareful and TxnTurn |
| `TxnRecursion.FlushKnows` | src/labix.org/v2/mgo/txn/flusher.go:131-154 | When a flusher builds its graph, each transaction it has seen is done, or asked for its pre-requisites; and since then, for each of its documents, there was a moment at which every transaction in the queue in memory was among those now seen |
| `TxnRecursion.HistoryExplores` | src/labix.org/v2/mgo/txn/flusher.go:131-154 | At every moment of the recursion each transaction seen is done, being advanced, has a call of `recurse` open with what it still has to look at, or has been looked into completely |
| `TxnAbort.AbortTakesEntries` | src/labix.org/v2/mgo/txn/flusher.go:587-641 | When a transaction whose assertions failed is marked as aborted, there was since then, for each document of its operations, a moment at which no entry that the pull names in the queue in memory stood in the stored queue |
| `TxnAbort.AbortTakesOwn` | src/labix.org/v2/mgo/txn/flusher.go:609-634 | So its own entry was gone at that moment from the queue of each document in which the flusher had seen it, unless the pull map leaves the transaction out |
| `TxnAbort.ResumedAbortPullsNothing` | src/labix.org/v2/mgo/txn/flusher.go:178-179 | An abort found in the store and resumed takes no entry from any queue |
| `TxnCareful.CarefulIff` | src/labix.org/v2/mgo/txn/flusher.go:724-729 | A flusher pulls carefully exactly when each stored entry that its queue in memory puts up to the last valid one it may pull is one it knows to be outdated or done, or its own at its last change |
| `TxnCareful.AloneIsCareful` | src/labix.org/v2/mgo/txn/flusher.go:673-690 | A transaction that pulls itself alone, with nothing of others ahead in the queue in memory, pulls carefully |
| `TxnCareful.KnownTakes` | src/labix.org/v2/mgo/txn/flusher.go:110-127 | What a call of a flush takes from a queue that shows no more than the graph was built from: outdated entries, those of transactions called before, and its own in time |
| `TxnCareful.HistoryStands` | src/labix.org/v2/mgo/txn/flusher.go:32-154 | In every history each flusher that flushes stands at a call of the walk over the graph of the queues it had in memory, with all called before done |
| `TxnCareful.NoMoreIsCareful` | src/labix.org/v2/mgo/txn/flusher.go:110-127 | A flush that finds no more in a queue than when its graph was built pulls carefully from it |
| `TxnCareful.QuietHistoryIsCareful` | src/labix.org/v2/mgo/txn/flusher.go:32-187 | Histories in which each pull is of one of these two kinds are careful runs |
| `TxnCareful.QuietNeverPanics` | src/labix.org/v2/mgo/txn/flusher.go:458-467 | In them no rescan ever panics, and prepared transactions keep their entries |
| `TxnTurn.HistoryReads` | src/labix.org/v2/mgo/txn/flusher.go:240-262 | In every history each revision read stands with the queue in memory that was read with it, and no entry stands in a queue twice |
| `TxnTurn.UnforcedInTurn` | src/labix.org/v2/mgo/txn/flusher.go:336-358 | A transaction that is planned without force plans in turn: no pre-requisites in the queues means nothing of others ahead at the moment of reading |
| `TxnTurn.OrderlyExactlyOnce` | src/labix.org/v2/mgo/txn/flusher.go:697-752 | In histories with such pulls, what is forced being read in turn too, each update of an applied transaction is in the log exactly once |
| `TxnMissing.WholeNext` | src/labix.org/v2/mgo/txn/flusher.go:221-365 | Steps that take no wanted entry keep every wanted one queued and every rescan from missing one; wanted are the entries of prepared transactions and those a preparing runner has added |
| `TxnMissing.PanicIffNotWhole` | src/labix.org/v2/mgo/txn/flusher.go:458-467 | Wherever a run stands, the panic of a rescan can follow without a further wanted entry taken exactly when a wanted entry is missing already or a rescan has missed one |
| `TxnMissing.StaysWholeIff` | src/labix.org/v2/mgo/txn/flusher.go:904-925 | Among all steps of all runners, those that endanger the queues are exactly those that take a wanted entry |
| `TxnMissing.PanicIffTaken` | src/labix.org/v2/mgo/txn/flusher.go:458-467 | The panic comes within reach with the first step that takes a wanted entry, and not before |
| `TxnPanic.RescanPanicReached` | src/labix.org/v2/mgo/txn/flusher.go:131-187 | A history of three flushers that ends in the panic: the one that resumes the first of two transactions loads the second, left applying by the one that forced it, and applies it alone |
| `TxnPanic.PullsAlone` | src/labix.org/v2/mgo/txn/flusher.go:677-729 | What it pulls from the queues it has read: in one document everything, with the prepared transaction ahead, in the other the own entry |
| `TxnLoss.UpdateIsLost` | src/labix.org/v2/mgo/txn/flusher.go:682-729 | A history without crashes in which a flush pulls the entry of the very transaction it applies before its second change of a document, which is lost, and the transaction counts as applied |
| `TxnClash.SightsDisagree` | src/labix.org/v2/mgo/txn/flusher.go:105-127 | Two queues in memory that show a cycle in the same order, with and without a transaction ahead of it, whose sorts put its members in opposite orders |
| `TxnClash.ClashReached` | src/labix.org/v2/mgo/txn/flusher.go:105-127 | A history in which two flushers force the transactions of one cycle in those opposite orders, plan the same revisions, and one transaction counts as applied without any of its updates |
| `Doubling.OrderIs255` | src/muteswan-webclient/public/jsqrcode/src/gf256.js:26-48 | No smaller positive power of 2 than the 255th is 1: the exponent table runs through a full cycle |
| `Doubling.LogExists` | src/muteswan-webclient/public/jsqrcode/src/gf256.js:26-48 | Every non-zero byte is a power of 2, so every entry of the logarithm table is filled |
| `GaloisField.MulAssoc` | src/muteswan-webclient/public/jsqrcode/src/gf256.js:93-112 | The product read off the tables is associative |
| `GaloisField.MulDistrib` | src/muteswan-webclient/public/jsqrcode/src/gf256.js:93-116 | It distributes over exclusive or, on both sides |
| `GaloisField.MulExp` | src/muteswan-webclient/public/jsqrcode/src/gf256.js:73-112 | Powers multiply by adding exponents, without any bound on them |
| `GaloisField.InvIsInverse` | src/muteswan-webclient/public/jsqrcode/src/gf256.js:85-92 | The table inverse of a non-zero element is its inverse on both sides |
| `GaloisTables.PowerTable` | src/muteswan-webclient/public/jsqrcode/src/gf256.js:30-39 | The doubling loop, reduction included, fills in the powers of 2 |
| `GaloisTables.LogTable` | src/muteswan-webclient/public/jsqrcode/src/gf256.js:40-43 | The second loop, which overwrites no entry wrongly, inverts the first |
| `GaloisTables.GF256.constructor` | src/muteswan-webclient/public/jsqrcode/src/gf256.js:26-48 | Both tables hold what multiplication and inversion need |
| `GaloisTables.GF256.Multiply` | src/muteswan-webclient/public/jsqrcode/src/gf256.js:93-108 | Table lookup with its shortcuts for 0 and 1 is the field product |
| `GaloisTables.GF256.Inverse` | src/muteswan-webclient/public/jsqrcode/src/gf256.js:85-92 | Table lookup is the field inverse, for all but zero |
| `GaloisLiteralsProof.LiteralPowers` | src/github.com/qpliu/qrencode-go/qrencode/errorcorrection.go:145-162 | The printer's literal table holds the powers of 2: it agrees with the table the decoder computes |
| `GaloisLiteralsProof.LiteralLogarithms` | src/github.com/qpliu/qrencode-go/qrencode/errorcorrection.go:163-180 | The printer's literal logarithms agree with the decoder's computed ones |
| `Polynomials.TimesAssoc` | src/muteswan-webclient/public/jsqrcode/src/gf256poly.js:139-163 | Multiplication of polynomials is associative |
| `Polynomials.TimesLength` | src/muteswan-webclient/public/jsqrcode/src/gf256poly.js:139-163 | Degrees add under multiplication: there are no zero divisors |
| `Polynomials.EvalTimes` | src/muteswan-webclient/public/jsqrcode/src/gf256poly.js:77-102 | Evaluation takes products to products |
| `PolynomialOps.Normalise` | src/muteswan-webclient/public/jsqrcode/src/gf256poly.js:26-57 | Leading zeros go, nothing else does |
| `PolynomialOps.BuildMonomial` | src/github.com/qpliu/qrencode-go/qrencode/errorcorrection.go:203-213 | The monomial of that degree and coefficient, zero included |
| `PolynomialOps.AddSub` | src/muteswan-webclient/public/jsqrcode/src/gf256poly.js:103-138 | The shifted coefficient-wise addition is the sum of the polynomials, whichever is longer |
| `PolynomialOps.Multiply` | src/muteswan-webclient/public/jsqrcode/src/gf256poly.js:139-163 | The nested loops over coefficients compute the product |
| `PolynomialOps.MultiplyByScalar` | src/muteswan-webclient/public/jsqrcode/src/gf256poly.js:164-181 | Scaling with its shortcuts for 0 and 1 |
| `PolynomialOps.MultiplyByMonomial` | src/muteswan-webclient/public/jsqrcode/src/gf256poly.js:182-199 | The product with a monomial, computed by padding |
| `PolynomialOps.Divide` | src/github.com/qpliu/qrencode-go/qrencode/errorcorrection.go:297-315 | Long division ends with p = q * x + remainder and a remainder of smaller degree |
| `PolynomialOps.EvaluateAt` | src/muteswan-webclient/public/jsqrcode/src/gf256poly.js:77-102 | Horner's rule, with the shortcuts at 0 and 1, is the value of the polynomial |
| `RsEncoder.GeneratorRoots` | src/github.com/qpliu/qrencode-go/qrencode/errorcorrection.go:219-226 | The generator vanishes exactly at the powers it is built from, whatever the degree |
| `RsEncoder.GeneratorCache.BuildGenerator` | src/github.com/qpliu/qrencode-go/qrencode/errorcorrection.go:219-226 | Over any sequence of calls the cache holds at each place the product of that many linear factors; earlier entries never change |
| `RsEncoder.GenerateECBytes` | src/github.com/qpliu/qrencode-go/qrencode/errorcorrection.go:132-142 | Data followed by its check bytes vanishes at the first n powers of 2, so the decoder sees no syndromes |
| `RsEncoder.CheckBytesUnique` | src/github.com/qpliu/qrencode-go/qrencode/errorcorrection.go:132-142 | In words of at most 255 bytes no other check bytes would do |
| `Codewords.MinimumDistance` | src/github.com/qpliu/qrencode-go/qrencode/errorcorrection.go:132-142 | Two different codewords of at most 255 bytes differ in more places than there are check bytes |
| `Codewords.LengthLimit` | src/muteswan-webclient/public/jsqrcode/src/rsdecoder.js:29-66 | Decoding up to half as many errors as check bytes is unambiguous exactly for words of at most 255 bytes or fewer than two check bytes: beyond, two codewords differ in two places and a word lies half way |
| `Codewords.ReceivedSyndrome` | src/muteswan-webclient/public/jsqrcode/src/rsdecoder.js:31-49 | The syndromes of a received word are those of its error pattern alone |
| `ErrorPolynomials.KeyEquation` | src/muteswan-webclient/public/jsqrcode/src/rsdecoder.js:50-55 | Locator times syndromes is the evaluator modulo x^m, for every error pattern |
| `ErrorPolynomials.LocatorRoots` | src/muteswan-webclient/public/jsqrcode/src/rsdecoder.js:128-152 | The locator vanishes exactly at the inverses of the error locations |
| `ErrorPolynomials.EvaluatorAtRoot` | src/muteswan-webclient/public/jsqrcode/src/rsdecoder.js:153-175 | At such an inverse the evaluator gives the error's magnitude times the product over the other locations |
| `EuclidRows.NextRowsOk` | src/muteswan-webclient/public/jsqrcode/src/rsdecoder.js:85-115 | One turn keeps r = s * a + t * b for both rows, with falling degree |
| `EuclidRows.StopIsSolution` | src/muteswan-webclient/public/jsqrcode/src/rsdecoder.js:85-126 | With no more errors than the bounds of the algorithm allow, half as many as check bytes or one more, the row where it stops is the true locator and evaluator times one non-zero constant |
| `EuclidRows.ErrorsShow` | src/muteswan-webclient/public/jsqrcode/src/rsdecoder.js:31-51 | Errors no more than the check bytes cannot leave all syndromes zero |
| `RsDecoder.Syndromes` | src/muteswan-webclient/public/jsqrcode/src/rsdecoder.js:29-51 | The loop evaluates at each power, and reports no error exactly for codewords |
| `RsDecoder.RunEuclideanAlgorithm` | src/muteswan-webclient/public/jsqrcode/src/rsdecoder.js:67-127 | For any two polynomials it ends; the zero-divisor exception comes exactly for R below 2; otherwise the result is the first row of degree below R / 2, divided by its constant term, and the other exception comes exactly when that term is zero |
| `RsDecoder.EuclidMeaning` | src/muteswan-webclient/public/jsqrcode/src/rsdecoder.js:67-127 | On a normal end sigma(0) = 1, omega has degree below R / 2, and sigma times the syndromes equals omega modulo x^R |
| `RsSolutions.RowIsLocator` | src/muteswan-webclient/public/jsqrcode/src/rsdecoder.js:85-126 | For any word at all: the key equation can be solved within the bounds exactly when the stopping row has a constant term, and divided by it that row is the one solution with the shortest locator |
| `RsSolutions.SolutionIsMultiple` | src/muteswan-webclient/public/jsqrcode/src/rsdecoder.js:85-126 | Every solution within the bounds is a multiple of the stopping row |
| `RsDecoder.FindErrorLocations` | src/muteswan-webclient/public/jsqrcode/src/rsdecoder.js:128-152 | Success exactly when as many distinct roots as the degree are found; on failure there are no others |
| `RsDecoder.LocationsFound` | src/muteswan-webclient/public/jsqrcode/src/rsdecoder.js:128-152 | For a true locator the search finds the error locations and nothing else, shortcut for one error included |
| `RsDecoder.SearchSplits` | src/muteswan-webclient/public/jsqrcode/src/rsdecoder.js:128-152 | For any locator, shortcut included, the search succeeds exactly when the locator has as many distinct roots as its degree |
| `RsDecoder.Denominator` | src/muteswan-webclient/public/jsqrcode/src/rsdecoder.js:160-168 | The inner loop is the product, over all other locations, of 1 plus that location divided by this one |
| `RsDecoder.FindErrorMagnitudes` | src/muteswan-webclient/public/jsqrcode/src/rsdecoder.js:153-175 | Forney's formula for each location |
| `RsDecoder.Correct` | src/muteswan-webclient/public/jsqrcode/src/rsdecoder.js:56-64 | Each magnitude is added to the byte its location names; the exception comes exactly for a location outside the word |
| `RsDecoder.Decode` | src/muteswan-webclient/public/jsqrcode/src/rsdecoder.js:29-66 | Exact for every word: it ends with the codeword sent if that is within the bounds of the algorithm, at most half as many errors as check bytes or one more, and with a codeword in no other case; no constant term exactly when the key equation has no solution, too few roots exactly when the shortest locator does not split, a bad location exactly when it does but leaves the word; and without an exception a damaged word has been corrected by its locator and evaluator |
| `RsDecoder.NearIsWithin` | src/muteswan-webclient/public/jsqrcode/src/rsdecoder.js:67-126 | Half as many errors as check bytes are always within these bounds, and for an even number of check bytes they are the bounds |
| `RsRepair.RepairIsCodewordIff` | src/muteswan-webclient/public/jsqrcode/src/rsdecoder.js:53-65 | What is decoded without an exception differs from the word received in as many bytes as the locator's degree, and is a codeword exactly when the evaluator's degree is below it |
| `RsRepair.RepairIsWithin` | src/muteswan-webclient/public/jsqrcode/src/rsdecoder.js:53-65 | If it is a codeword, it lies within the bounds of the algorithm |
| `RsRepair.UnnoticedIff` | src/muteswan-webclient/public/jsqrcode/src/rsdecoder.js:29-66 | A damaged word comes back as it is exactly when the second half of its syndromes is zero |
| `RsRepair.DamageThatPasses` | src/muteswan-webclient/public/jsqrcode/src/rsdecoder.js:29-66 | With two check bytes the word 1, 2 is one: no codeword, but its second syndrome is zero |
| `QrVersions.DataCodewordsInBounds` | src/github.com/qpliu/qrencode-go/qrencode/version.go:30-283 | Every version and level has room for at least nine data codewords and at most what the count field widths allow |
| `QrVersions.ChooseVersion` | src/github.com/qpliu/qrencode-go/qrencode/version.go:289-296 | The smallest version that fits, and a refusal exactly when none does |
| `QrReaderVersions.TableAddsUp` | src/github.com/qpliu/qrencode-go/qrencode/version.go:30-274 | The printer's data counts add up to the version's size at every level but three (19 M, 29 Q, 34 M), where a count is mistyped |
| `QrReaderVersions.TotalsAgree` | src/muteswan-webclient/public/jsqrcode/src/version.js:82-90 | Printer and reader take each version for the same number of codewords |
| `QrBlocks.SizesAgree` | src/github.com/qpliu/qrencode-go/qrencode/errorcorrection.go:105-130 | For every version and level the block sizes the printer computes are those in the reader's separately typed table, they use up the data, and none of the size checks panics |
| `QrBlocks.SizesAddUp` | src/github.com/qpliu/qrencode-go/qrencode/errorcorrection.go:123-125 | The check that the group sizes add up to the total holds for all totals and block counts |
| `QrBlocks.BlocksTakeAllData` | src/github.com/qpliu/qrencode-go/qrencode/errorcorrection.go:105-130 | For all sizes: the blocks use up the data exactly when the check bytes divide evenly |
| `QrInterleave.GatherBytes` | src/github.com/qpliu/qrencode-go/qrencode/errorcorrection.go:41-67 | Looking at eight bits in turn gives the bytes of that stretch of the stream |
| `QrInterleave.InterleaveWithECBytes` | src/github.com/qpliu/qrencode-go/qrencode/errorcorrection.go:24-103 | It panics exactly for a wrong number of bits; otherwise the stream is the data in consecutive blocks, each completed to a codeword, taken in turns |
| `QrInterleave.InterleavingShaped` | src/github.com/qpliu/qrencode-go/qrencode/errorcorrection.go:28-77 | The blocks have the sizes of the version |
| `QrTurns.PartsBack` | src/muteswan-webclient/public/jsqrcode/src/datablock.js:90-115 | Taking the parser's places out of the printer's stream gives back the data and check bytes of every block |
| `QrDeinterleave.GetDataBlocks` | src/muteswan-webclient/public/jsqrcode/src/datablock.js:41-117 | It throws exactly for a wrong length; otherwise each block is filled from its places in the stream |
| `QrDeinterleave.BlocksBack` | src/muteswan-webclient/public/jsqrcode/src/datablock.js:41-117 | Interleave round trip: the parser's block j is the printer's block j, data followed by check bytes |
| `QrBits.ShiftInBits` | src/github.com/qpliu/qrencode-go/qrencode/boolbits.go:19-23 | Appending a number bit by bit and shifting the bits back in gives its low bits, for every width |
| `QrBits.BytesBack` | src/github.com/qpliu/qrencode-go/qrencode/errorcorrection.go:41-67 | Bits cut into bytes are the bits of those bytes |
| `QrBits.PackedBytes` | src/muteswan-webclient/public/jsqrcode/src/bmparser.js:155-193 | Collecting the bits of bytes, and up to seven more, gives the bytes |
| `QrContent.GetMode` | src/github.com/qpliu/qrencode-go/qrencode/mode.go:17-36 | The mode of `TextMode`, in one pass over the bytes; what that mode is for, says `TextModeIsShortest` |
| `QrContent.TextModeIsShortest` | src/github.com/qpliu/qrencode-go/qrencode/mode.go:17-83 | Of all modes that can carry a text its own is the only shortest one, in the content bits alone and with indicator and count field of any version; digits alone are numeric, and bytes only what is not alphanumeric |
| `QrContent.NumericLength` | src/github.com/qpliu/qrencode-go/qrencode/content.go:151-185 | Exactly ten bits for three digits, seven for two left over and four for one |
| `QrSample.TestContentBits` | src/github.com/qpliu/qrencode-go/qrencode/qr_test.go:9-19 | The printer's test: the alphanumeric text of eleven characters at level Q is printed in version 1 as the 104 bits listed there |
| `QrContent.CountFieldHolds` | src/github.com/qpliu/qrencode-go/qrencode/mode.go:38-83 | For every content that fits, the count field of the version chosen is wide enough for its length |
| `QrContent.AppendContent` | src/github.com/qpliu/qrencode-go/qrencode/content.go:149-211 | Refuses exactly the content the mode cannot carry, and otherwise appends its bits |
| `QrContent.AppendNumeric` | src/github.com/qpliu/qrencode-go/qrencode/content.go:151-184 | Digits in threes, with two or one left over |
| `QrContent.AppendAlphanumeric` | src/github.com/qpliu/qrencode-go/qrencode/content.go:185-203 | Characters in pairs, with one left over |
| `QrContent.AppendTerminator` | src/github.com/qpliu/qrencode-go/qrencode/content.go:213-239 | Ends exactly at the capacity; its panic is reached exactly when the bits were already too long |
| `QrContent.AppendPadding` | src/github.com/qpliu/qrencode-go/qrencode/content.go:226-235 | Alternating padding bytes up to the capacity |
| `QrContent.MakeContentBits` | src/github.com/qpliu/qrencode-go/qrencode/content.go:30-47 | Succeeds exactly when some version fits, and then prints header, count, content, terminator and padding to the capacity of that version |
| `QrContent.BinaryContentBits` | src/github.com/qpliu/qrencode-go/qrencode/content.go:21-28 | Any bytes that fit are printed in byte mode |
| `QrContent.StringContentBits` | src/github.com/qpliu/qrencode-go/qrencode/content.go:7-19 | A text is printed in its mode, after an announcement of UTF-8 where that is the byte mode |
| `QrReader.DataBlockReader.constructor` | src/muteswan-webclient/public/jsqrcode/src/databr.js:26-38 | A reader at bit 0 with the field widths of the version |
| `QrReader.DataBlockReader.GetNextBits` | src/muteswan-webclient/public/jsqrcode/src/databr.js:40-113 | For every width: up to the third byte touched, the next bits of one stream, highest first, zeros past the end; wider than its cases, zero and nothing read |
| `QrReader.DataBlockReader.NextMode` | src/muteswan-webclient/public/jsqrcode/src/databr.js:114-120 | The next four bits, or the end by position alone |
| `QrReader.DataBlockReader.GetDataLength` | src/muteswan-webclient/public/jsqrcode/src/databr.js:121-132 | The count field of the mode's width |
| `QrReader.DataBlockReader.GetFigureString` | src/muteswan-webclient/public/jsqrcode/src/databr.js:161-194 | The digits in groups of three, two and one, with leading zeros kept |
| `QrReader.DataBlockReader.GetRomanAndFigureString` | src/muteswan-webclient/public/jsqrcode/src/databr.js:133-160 | The characters in pairs and a last one |
| `QrReader.DataBlockReader.Get8BitByteArray` | src/muteswan-webclient/public/jsqrcode/src/databr.js:195-209 | The bytes |
| `QrSegments.FigureBack` | src/muteswan-webclient/public/jsqrcode/src/databr.js:161-194 | Printed digits read back, and the reader uses exactly the bits printed |
| `QrSegments.RomanBack` | src/muteswan-webclient/public/jsqrcode/src/databr.js:133-160 | Printed alphanumeric text reads back, and the reader uses exactly the bits printed |
| `QrSegments.BytesBack` | src/muteswan-webclient/public/jsqrcode/src/databr.js:195-209 | Printed bytes read back |
| `QrSegments.TableBack` | src/muteswan-webclient/public/jsqrcode/src/databr.js:138-138 | The reader's table undoes the printer's code for each of the 45 characters |
| `QrSegments.EndBack` | src/muteswan-webclient/public/jsqrcode/src/databr.js:114-120 | After the content the reader meets the terminator |
| `QrSegments.ContentBack` | src/muteswan-webclient/public/jsqrcode/src/databr.js:133-209 | In each of the three modes the content reads back and the reader stands right after it |
| `QrSegments.DataByte` | src/muteswan-webclient/public/jsqrcode/src/databr.js:247-324 | For any bytes at all: the segments up to the end, or the exception of the first mode or length that is wrong |
| `QrSegments.PrintedBack` | src/muteswan-webclient/public/jsqrcode/src/databr.js:247-324 | A printed content is the only segment read back, for every version, level and mode; empty content is refused |
| `QrSegments.Utf8Refused` | src/muteswan-webclient/public/jsqrcode/src/databr.js:268-274 | What the printer announces as UTF-8 the reader refuses as an invalid mode |
| `QrSegments.TextBackIff` | src/muteswan-webclient/public/jsqrcode/src/databr.js:247-324 | A text printed in its own mode reads back exactly when it is not empty and all alphanumeric |
| `QrPlacement.MasksAgree` | src/muteswan-webclient/public/jsqrcode/src/datamask.js:26-206 | The printer's mask formulas and the parser's, with coordinates swapped, are the same eight masks |
| `QrPlacement.OrderCovers` | src/github.com/qpliu/qrencode-go/qrencode/qrgrid.go:210-237 | For every odd size the zigzag visits each module outside column 6 exactly once |
| `QrPlacement.OrderAt` | src/github.com/qpliu/qrencode-go/qrencode/qrgrid.go:210-237 | Where each place of the zigzag is, in closed form: pairs of columns from the right, the first from the bottom upwards, the next downwards and so on, in each row the right module first, the timing column stepped over |
| `QrPlacement.FillMeaning` | src/github.com/qpliu/qrencode-go/qrencode/qrgrid.go:210-237 | The k-th free module gets the k-th bit, masked, or a masked zero; set modules keep their value |
| `QrPlacement.PlacementRoundTrip` | src/muteswan-webclient/public/jsqrcode/src/bmparser.js:155-193 | For every size, set of function modules and mask the codewords placed come back, if they fill the free modules but for less than a byte |
| `QrGrid.BitGrid.constructor` | src/github.com/qpliu/qrencode-go/qrencode/boolbits.go:34-36 | A new grid shows nothing |
| `QrGrid.BitGrid.Empty` | src/github.com/qpliu/qrencode-go/qrencode/boolbits.go:46-48 | True exactly for modules not yet set |
| `QrGrid.BitGrid.Set` | src/github.com/qpliu/qrencode-go/qrencode/boolbits.go:54-57 | Sets one module and no other |
| `QrGrid.BitGrid.PlaceOne` | src/github.com/qpliu/qrencode-go/qrencode/qrgrid.go:217-231 | One module of the walk: skipped if set, else the next bit or a zero, masked |
| `QrGrid.EmbedDataBits` | src/github.com/qpliu/qrencode-go/qrencode/qrgrid.go:210-237 | The walk in place, from the bottom right upwards, fills the grid along the zigzag whose places `OrderAt` gives, and panics exactly when bits are left over |
| `QrGrid.BitMatrix.Unmask` | src/muteswan-webclient/public/jsqrcode/src/datamask.js:39-51 | Flips exactly the masked modules, each once |
| `QrGrid.BitMatrix.ReadCodewords` | src/muteswan-webclient/public/jsqrcode/src/bmparser.js:141-202 | After unmasking in place, the bits of the free modules along the same zigzag from the bottom right upwards, packed into bytes; throws exactly for a wrong number of them |
| `QrGrid.GridRoundTrip` | src/muteswan-webclient/public/jsqrcode/src/bmparser.js:141-202 | A matrix that shows the printed grid reads as the codewords placed |
| `QrDecoder.CorrectErrors` | src/muteswan-webclient/public/jsqrcode/src/decoder.js:29-55 | The data bytes of a block near enough to a codeword are restored, its check bytes left as read |
| `QrDecoder.DecodeCodewords` | src/muteswan-webclient/public/jsqrcode/src/decoder.js:66-89 | If every block is readable, the bytes joined from the corrected blocks are the bits the printer started from |
| `QrDecoder.PrintSymbol` | src/github.com/qpliu/qrencode-go/qrencode/encode.go:22-28 | For any function modules: the interleaved codewords are placed around them, and it panics exactly for a wrong number of bits or too few free modules |
| `QrDecoder.GridShowsCodewords` | src/muteswan-webclient/public/jsqrcode/src/bmparser.js:141-202 | An undamaged matrix reads as the codewords printed, and all its blocks are readable |
| `QrDecoder.CleanIsReadable` | src/muteswan-webclient/public/jsqrcode/src/decoder.js:57-95 | The printer's own stream is readable |
| `QrDecoder.ReadSymbol` | src/muteswan-webclient/public/jsqrcode/src/decoder.js:57-95 | The whole way: any content printed in any mode, version and level comes back from the matrix if in each block at most half as many codewords were misread as there are check bytes |
| `BchCode.FindMSBSet` | src/github.com/qpliu/qrencode-go/qrencode/qrgrid.go:248-254 | The number of binary digits |
| `BchCode.CalculateBCHCode` | src/github.com/qpliu/qrencode-go/qrencode/qrgrid.go:239-246 | It ends with a code of fewer digits than the divisor that differs from the shifted value by a multiple over GF(2) |
| `BchCode.RemainderUnique` | src/github.com/qpliu/qrencode-go/qrencode/qrgrid.go:239-246 | There is only one such code |
| `BsonCodec.Encoder.AddElem` | src/labix.org/v2/mgo/bson/encode.go:213-389 | Appends kind, name and value; refuses exactly values that hold an object id of wrong length |
| `BsonCodec.Encoder.AddDoc` | src/labix.org/v2/mgo/bson/encode.go:79-120 | The length reserved and patched afterwards is the length of what was written, at every depth |
| `BsonCodec.Encoder.AddSlice` | src/labix.org/v2/mgo/bson/encode.go:185-205 | The elements of a document, or the items of an array under their decimal names |
| `BsonCodec.Encoder.AddBinary` | src/labix.org/v2/mgo/bson/encode.go:394-405 | Subtype 2 with its second length, all others with one |
| `BsonCodec.Encoder.ReserveInt32` | src/labix.org/v2/mgo/bson/encode.go:417-421 | Four zero bytes at the position returned |
| `BsonCodec.Encoder.SetInt32` | src/labix.org/v2/mgo/bson/encode.go:423-428 | Patches those four bytes and nothing else |
| `BsonCodec.Encoder.AddStr` | src/labix.org/v2/mgo/bson/encode.go:407-410 | Length with the final zero byte, then the bytes |
| `BsonCodec.Encoder.AddCStr` | src/labix.org/v2/mgo/bson/encode.go:412-415 | The bytes and a zero byte |
| `BsonCodec.Decoder.ReadDocElems` | src/labix.org/v2/mgo/bson/decode.go:345-382 | For any input: the elements and the cursor, or a failure, as the grammar says; the end must fall on the length |
| `BsonCodec.Decoder.ReadSliceDoc` | src/labix.org/v2/mgo/bson/decode.go:304-340 | The same for arrays, names skipped |
| `BsonCodec.Decoder.ReadElemTo` | src/labix.org/v2/mgo/bson/decode.go:396-484 | One value by its kind, or a failure on an unknown one |
| `BsonCodec.Decoder.ReadBytes` | src/labix.org/v2/mgo/bson/decode.go:750-757 | That many bytes, or a failure for a negative length or past the end |
| `BsonCodec.Decoder.ReadCStr` | src/labix.org/v2/mgo/bson/decode.go:694-708 | The bytes up to the next zero byte, or a failure when there is none |
| `BsonCodec.Decoder.ReadStr` | src/labix.org/v2/mgo/bson/decode.go:685-692 | A string with its length and final zero byte |
| `BsonCodec.Decoder.ReadBinary` | src/labix.org/v2/mgo/bson/decode.go:673-683 | Binary data, the inner length of subtype 2 dropped |
| `BsonCodec.Decoder.ReadInt32` | src/labix.org/v2/mgo/bson/decode.go:721-727 | Four bytes, lowest first, as a signed number |
| `BsonCodec.Decoder.ReadInt64` | src/labix.org/v2/mgo/bson/decode.go:729-739 | Eight bytes, lowest first, as a signed number |
| `BsonValues.Int32RoundTrip` | src/labix.org/v2/mgo/bson/encode.go:430-433 | Writing any integer and reading it back gives it truncated to 32 bits, and itself within range |
| `BsonValues.DecodedIsSame` | src/labix.org/v2/mgo/bson/decode.go:396-484 | A value is unchanged by the trip exactly when, at every depth, integers fit 32 bits and no binary data has subtype 2 |
| `BsonSamples.TestItems` | src/labix.org/v2/mgo/bson/bson_test.go:122-170 | The bytes of every kind of value modelled, as the table of the tests lists them |
| `BsonSamples.HelloWorld` | src/labix.org/v2/mgo/bson/bson_test.go:92-94 | The bytes of the sample document of bsonspec.org |
| `BsonDecoder.ValueBack` | src/labix.org/v2/mgo/bson/decode.go:396-484 | Reading where a value was written, whatever surrounds it, gives the value up to what the format loses and stops right after it, at every depth |
| `BsonDecoder.DecodeEncoded` | src/labix.org/v2/mgo/bson/decode.go:345-382 | Decoding an encoded document consumes exactly the bytes written |
| `BsonDecoder.RoundTrip` | src/labix.org/v2/mgo/bson/decode.go:345-382 | The very document comes back exactly when it holds no integer outside 32 bits and no binary data of subtype 2 |
| `GridFs.Writer.Write` | src/labix.org/v2/mgo/gridfs.go:518-563 | Appends to the file, however the data is cut into writes |
| `GridFs.Writer.Close` | src/labix.org/v2/mgo/gridfs.go:489-505 | The chunks stored are numbered in a row, all full but the last, and depend on the bytes alone |
| `GridFs.SplitOfJoin` | src/labix.org/v2/mgo/gridfs.go:518-601 | Full chunks and a last one are the only way to cut their contents |
| `GridFs.SplitChunk` | src/labix.org/v2/mgo/gridfs.go:683-717 | Chunk n exists exactly when the file reaches it, and holds the bytes from n times the chunk size on |
| `GridFs.Reader.GetChunk` | src/labix.org/v2/mgo/gridfs.go:683-717 | The next chunk, the same from the prefetch cache as from a fetch |
| `GridFs.Reader.Read` | src/labix.org/v2/mgo/gridfs.go:661-681 | Behaves as reading the byte string at the offset; end of file exactly when nothing is left |
| `GridFs.Reader.Seek` | src/labix.org/v2/mgo/gridfs.go:622-655 | Moves to any target up to the end and reports exactly: past the end; not found at an end on a chunk border with no chunk to fetch, or a chunk or more before the start; a failing slice less than a chunk before the start of a file that is not empty |
| `GridFs.Reader.MoveBefore` | src/labix.org/v2/mgo/gridfs.go:638-655 | A target before the start is not checked: the position is left there, and the call fails in one of two ways |
| `GridFs.Reader.MoveTo` | src/labix.org/v2/mgo/gridfs.go:636-655 | Buffer, chunk number and cache agree with the new offset |
| `GridFs.SeekInEmptyFile` | src/labix.org/v2/mgo/gridfs.go:622-655 | Seeking to the start of an empty file reports an error |
| `GridFs.SeekBeforeStart` | src/labix.org/v2/mgo/gridfs.go:622-655 | Seeking to one byte before a file of one byte cuts the buffer at a negative place |
| `CursorIter.Iter.constructor` | src/labix.org/v2/mgo/session.go:2209-2250 | Right after the query, sent or failed, one reply is awaited and nothing received, whatever limits were set |
| `CursorIter.Iter.KillCursor` | src/labix.org/v2/mgo/session.go:2374-2389 | Fails exactly for an open cursor that cannot be killed; the failure replaces the mere end of the data |
| `CursorIter.Iter.GetMore` | src/labix.org/v2/mgo/session.go:2608-2627 | One request at most: it asks for as many documents as before, or for what is left of the limit where that is less; how far it got decides what is awaited and reported |
| `CursorIter.Iter.CountDown` | src/labix.org/v2/mgo/session.go:2457-2462 | After handing over a document a request goes out exactly when the cursor is open, nothing failed and the countdown is at zero; the countdown runs on |
| `CursorIter.Iter.Take` | src/labix.org/v2/mgo/session.go:2444-2463 | The first queued document is handed over unless it uses up the limit and the open cursor cannot be killed, or documents are left at the limit; more is asked for exactly when it is due |
| `CursorIter.Iter.NextTurn` | src/labix.org/v2/mgo/session.go:2422-2494 | Documents are delivered in the order received; a call that waits has asked for more if nothing was awaited, and has a reply to wait for exactly when one was on its way or that request went out; the document that uses up the limit is lost exactly when killing a cursor still open fails, and from then on every call blocks; the panic comes exactly when documents are left at the limit |
| `CursorIter.Iter.OnReply` | src/labix.org/v2/mgo/session.go:3134-3168 | Every reply keeps the counters exact and restarts the countdown, which the limit rules out; if the first request fits the limit, queued, pending and requested documents never exceed what remains of it |
| `CursorIter.SecondOfTwoIsLost` | src/labix.org/v2/mgo/session.go:2444-2456 | A limit of two, one reply, and a cursor that cannot be killed: the second document is lost and the third call blocks |
| `CursorIter.FailedRequestStrands` | src/labix.org/v2/mgo/session.go:2426-2437 | A call whose own request for more cannot be sent waits although no reply is on its way, so the error is never reported |
| `CursorIter.UnfitPanics` | src/labix.org/v2/mgo/session.go:1779-1788 | For every limit that the first request does not fit, an honest server leads to the panic: fitting is exactly what keeps it away |
| `RingQueue.Queue.Push` | src/labix.org/v2/mgo/queue.go:38-49 | Appends to the queue's contents, growing if full |
| `RingQueue.Queue.Pop` | src/labix.org/v2/mgo/queue.go:51-64 | Takes the oldest element, or nothing from an empty queue |
| `RingQueue.Queue.Expand` | src/labix.org/v2/mgo/queue.go:66-91 | Growth while wrapped around keeps the contents and their order |
| `RingQueue.ExpandItems` | src/labix.org/v2/mgo/queue.go:66-91 | The wrapped part in front and the rest moved to the end unroll to the same sequence |
| `Base64.CharDecodes` | android/muteswan/src/org/muteswan/client/Base64.java:238-410 | In each alphabet the decoding table undoes the encoding table, for all 64 values |
| `Base64.CharIs` | android/muteswan/src/org/muteswan/client/Base64.java:238-373 | The 64 characters of each alphabet, in order |
| `Base64.DecodabetIs` | android/muteswan/src/org/muteswan/client/Base64.java:256-410 | The decoding table of all 256 bytes: tab, line feed, carriage return and space are white, `=` pads, the characters of the alphabet have their values, and nothing else has one |
| `Base64.Decode4Encode3` | android/muteswan/src/org/muteswan/client/Base64.java:1046-1115 | Decoding a group of four gives its one, two or three bytes |
| `Base64.EncodedFits` | android/muteswan/src/org/muteswan/client/Base64.java:954-972 | The text never exceeds the size computed for it, line breaks included |
| `Base64.BreaksAre` | android/muteswan/src/org/muteswan/client/Base64.java:973-985 | Line breaks stand after every 76 characters of a text and nowhere else |
| `Base64.EncodeBytesToBytes` | android/muteswan/src/org/muteswan/client/Base64.java:954-1005 | The loop fills the buffer with the encoded groups and breaks, and trims it |
| `Base64.Decode` | android/muteswan/src/org/muteswan/client/Base64.java:1164-1225 | For any text and range: white space skipped, the end at padding, a failure on any other character; writes stay inside the buffer |
| `Base64.WhiteSpaceSkipped` | android/muteswan/src/org/muteswan/client/Base64.java:1195-1225 | White space inserted anywhere in a text makes no difference to what is decoded |
| `Base64.RoundTrip` | android/muteswan/src/org/muteswan/client/Base64.java:1164-1225 | Decoding an encoded text gives the bytes, in every alphabet, with line breaks or without, from any position in the line |
| `Base64.EncodeThenDecode` | android/muteswan/src/org/muteswan/client/Base64.java:1134-1225 | The whole way, buffers and loops included |

## Left out

- Insert and Remove operations, the stash and the change log of transactions: updates and assertions only.
- Whether transactions make progress: the liveness of `ResumeAll`. What is proved about runs is safety.
- Pulls in `TxnProtocol` may remove any entries of a queue, more than the code does; `TxnFlusher` removes those the code does.
- TxnQueues.AppliedTookEffect: asks for careful pulls, which the code does not always make; `TxnTries.MissingIff` does without.
- TxnQueues.AppliedExactlyOnce: asks for careful pulls and that no clash of plans occurs, and the code ensures neither (`TxnLoss.UpdateIsLost`, `TxnClash.ClashReached`).
- TxnOrder.NoClash: asks that transactions plan in turn. All that are planned without force do (`TxnTurn.UnforcedInTurn`); one forced inside a cycle, or with leftovers of unseen transactions ahead, need not.
- TxnOrder.OrderedExactlyOnce: asks for the same.
- Errors of database calls other than a missing document: a flusher may give up at any point instead.
- TxnMissing.PanicIffNotWhole: asks that the documents of the transactions exist, since inserts are left out.
- Object ids and document keys are natural numbers in their order; a fresh nonce may be any non-empty one, collisions included.
- Go's sort library: an insertion sort stands in for it.
- The MongoDB server, sockets, clocks, cluster synchronisation, authentication and statistics.
- BSON reflection: struct tags, maps, getters and setters, type conversion, JavaScript with scope (read as an unknown kind), and the document type field. Times are milliseconds, floating-point numbers their 64 bits, and an `or` of disjoint bytes is a sum.
- BsonCodec.Encoder.AddElem: unsigned numbers, maps, structs, raw values, getters and JavaScript with scope are left out.
- BsonCodec.Encoder.AddDoc: maps, structs, raw values and getters are left out.
- BsonCodec.Decoder.ReadElemTo: JavaScript with scope reads as an unknown kind, and there is no conversion to a target type.
- BsonDecoder.RoundTrip: names free of zero bytes and sizes below 2^31, as the format itself demands; Go's `int` is written in 32 bits as the code does.
- The DataMatrix field, and JavaScript's habit of treating the coefficient list `[[0]]` as zero: it is the zero polynomial here.
- Kanji segments: the reader refers to a function that does not exist there, and fails; the model fails too.
- The concrete function modules of a symbol, mask penalties and the choice of the mask, format and version information in the symbol, finder patterns, perspective and rendering. The set of function modules and the mask number are parameters.
- QrDecoder.PrintSymbol: the function modules and the mask are given, where the source builds the one and chooses the other.
- QrDecoder.ReadSymbol: version, level and mask are given, where the source reads them from the symbol; asks that the function modules leave room for the version's codewords but for less than a byte, since alignment patterns are not modelled.
- The UTF-8 conversion the reader applies to the joined segments.
- The packed byte and word grids of the printer, which nothing uses, and the 32-bit words behind the parser's matrix.
- GridFs.Reader.Seek: after a target before the start of the file nothing is promised of later calls.
- MD5 sums, file metadata and errors of background chunk inserts in GridFS; stored chunks are a sequence.
- Unmarshalling of documents in the iterator; its clock is a parameter, and the share of a reply at which it asks for more is any integer.
- BchCode.CalculateBCHCode: asks that the shifted value fits a 64-bit integer, as Go's `int` demands.
- GZIP, streams, files and serialised objects in Base64; tables are given by ranges, and `or` of disjoint bits is a sum.
- HTTP handlers, the Android user interface and services, Tor and SOCKS, file stores, AES and hashing.
