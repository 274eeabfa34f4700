# A model of Watchman's core in Dafny

Watchman watches directory trees and answers queries about what changed. This project models the parts of it
that keep state under concurrency or move bytes in pieces, and proves what they promise over every input, every
run and every interleaving of their steps.

| component | modules |
|---|---|
| the LRU cache with single-flight lookups | `LruModel`, `LruRuns`, `LruRetention`, `TailQ`, `LruCache`, `LruStale` |
| BSER, the binary JSON encoding | `Bser`, `BserDecode`, `BserRoundTrip`, `BserLimits`, `BserMeaning`, `BserBounds`, `BserPrefix`, `BserVectors`, `BserParser`, `BserWriter` |
| PDU framing over streams that move a few bytes at a time | `Stream`, `PduFormat`, `PduBuffer`, `PduWire` |
| the file database, age-out and the since protocol | `ClockSpec`, `ViewModel`, `ViewDatabase`, `SinceProtocol` |
| the collection of pending changes | `RadixTree`, `PendingModel`, `PendingRuns`, `PendingChanges` |
| sync cookies | `CookieName`, `CookieModel`, `CookieRuns`, `CookieSync`, `CookiePending` |
| the parallel directory walker | `WalkModel`, `WalkRuns`, `WalkReach` |
| the publisher | `PubSubModel`, `PubSubRuns`, `PubSub` |
| subscriptions | `Subscriptions`, `SubscriptionRuns`, `SubscriberView` |
| shared | `Options`, `Filters`, `Runs` |

Most components come in three layers. A value-level model gives each critical section or atomic operation as one
step. A module whose name ends in `Runs` (and `SinceProtocol`, `SubscriberView`, `WalkReach` and `CookiePending`)
proves what every run of these steps keeps, with `Runs.Throughout` as the induction. A class holds the source's fields and pointers, and its methods, with the
source's loops, are proved to have the effect of the steps.

`dafny verify dfyconfig.toml` checks the whole project.

## What the code does differently from what one might expect

The members named in parentheses give an input that shows the behaviour, or the exact condition under which it occurs.

- `longestMatch` is documented as finding the longest stored prefix of a path. The code descends the tree and finds
  a stored prefix only if no other stored key extends it (`RadixTree.LongestMatchIsExact`), so an entry can be added
  below a recursive one (`PendingRuns.SiblingShadowsDirectory`, `PendingRuns.AddIsFlat`).
- A query reads the age-out tick before it takes the view's lock. An age-out in between can hide a deletion from the
  client (`SinceProtocol.OvertakenQueryLosesADeletion`, `SinceProtocol.AnswerIsExact`).
- `notifyCookie` takes a cookie file out of the map and decrements the counter in two steps. An abort in between can
  leave a promise that reports success although one of its files was aborted
  (`CookieRuns.SplitNotifyFromStart`, `CookieRuns.CalmIsExact`).
- When the first read of a PDU brings a single byte, the type stays undecided and the version 1 reader is entered all
  the same. The call fails, or, if the stale bytes in the buffer read as an integer, an error handler is given a range
  that goes past the allocation (`PduBuffer.PduBuffer.ReadPastEnd`, `PduWire.Exchange`, `PduWire.HeaderStaysBehind`).
- An exception of `readDir` ends a walker task without a result, an error or its subdirectories
  (`WalkRuns.BrokenRootLeavesNothing`, `WalkRuns.FinishedWalkIsComplete`).
- Erasing, setting or clearing a key while its lookup is in flight breaks the books of the cache
  (`LruStale.LedgerNeedsIdleKeys`). After an erasure the completed node is queued without being in the map, or evicted
  without having been there (`LruStale.EraseThenComplete`), and the lookup queue can break
  (`LruStale.ErasedLookupLosesAnother`). After a set the eviction of the stale node takes the new one out of the map
  (`LruStale.SetThenFail`). After a clear the lookup queue itself can break (`LruStale.ClearThenComplete`).
- A query error while a subscription settles leaves no clock to read the tick from, and the check on it aborts the
  process (`Subscriptions.ClientSubscription.ProcessSubscription`).
- A subscription that once drops notifications has a clock without SCM parameters from then on
  (`SubscriptionRuns.DropLosesScm`).
- A subscription remembers the tick of its last settle in 32 bits, so from tick 2^32 on every settle runs the query
  (`SubscriptionRuns.SettleWaitsForNextTick`).
- A sync without any cookie directory fails its own assertion (`CookieSync.CookieSync.Sync`).

## Model

| member | source | states |
|---|---|---|
| `LruRuns.RunKeepsLedger` | watchman/LRUCache.h:311-558 | In every run without set, erase or clear on an in-flight key: each node is in exactly the queue its kind names and the queues hold nothing else; the successful queue is in order of last use; each getter call is matched by one completion or one lookup in flight; map size = stores + in flight - evictions - erasures, and loads = hits + shares + misses + direct gets that threw |
| `LruRuns.RunKeepsPromises` | watchman/LRUCache.h:373-503 | In every such run a promise is either waiting at the node it was issued for or was fulfilled exactly once, with that node; no promise waits at two nodes |
| `LruRuns.VictimIsLeastRecentlyUsed` | watchman/LRUCache.h:619-659 | In every reachable state a successful victim of eviction was used before every other node of its queue |
| `LruRuns.CapacityBound` | watchman/LRUCache.h:486-493 | In every reachable state the map holds at most max(maxItems, in flight + 1) nodes |
| `LruRuns.CompletionTightens` | watchman/LRUCache.h:481-493 | Right after any completion the map holds at most max(maxItems, in flight) nodes |
| `LruRuns.RunWithoutSetIsTight` | watchman/LRUCache.h:588-599 | In runs without set the tighter bound max(maxItems, in flight) holds in every state |
| `LruRuns.TrimKeepsFlights` | watchman/LRUCache.h:615-659 | Whatever eviction removes, every lookup in flight stays with its node and its waiters |
| `LruRuns.StepKeepsLedger` | watchman/LRUCache.h:440-494 | One step of any kind keeps the queues, the order of use, the getter count and the statistics |
| `LruRuns.StepKeepsPromises` | watchman/LRUCache.h:399-429 | One step of any kind keeps every promise waiting at one node or fulfilled once |
| `LruRuns.NeitherAbortIsReachable` | watchman/LRUCache.h:440-475 | In every reachable state the node that a continuation captured is the one node with its number, is in the map under its key and in the lookup queue, and may complete with any result, after which it belongs to another queue; so neither abort is reached |
| `LruStale.LedgerNeedsIdleKeys` | watchman/LRUCache.h:508-580 | From every state that meets the ledger, a set, an erase or a clear keeps it if and only if it hits no lookup in flight |
| `LruStale.EraseThenComplete` | watchman/LRUCache.h:444-494 | Erasing a key in flight and completing it, with the eviction at the end: in every state the node is then either queued without being in the map, or was evicted and counted although the map lost nothing; it stays queued if and only if the map after the erasure exceeds maxItems by no more than the nodes that eviction takes first, and where only lookups in flight exceed maxItems there are none of those |
| `LruStale.CompleteErased` | watchman/LRUCache.h:444-494 | The completion of a node that the map no longer holds reaches neither abort, hands out the waiters, and queues the node before it evicts the excess |
| `LruStale.StrayStays` | watchman/LRUCache.h:619-659 | The order of eviction, counted: a node that enters a queue while not in the map is evicted exactly if the map exceeds maxItems by more than the expired errors at the head, the successful nodes and the other errors that come before it |
| `LruStale.SetThenFail` | watchman/LRUCache.h:508-635 | Setting a key in flight whose lookup then fails, in every state with no error cached and the map within maxItems: the eviction of the expired stale node takes the new node out of the map while it stays queued |
| `LruStale.ClearThenComplete` | watchman/LRUCache.h:444-494 | Clearing with lookups in flight and completing one leaves a queued node that is not in the map, and a sound lookup queue if and only if it was the only lookup or neither the first nor the last |
| `LruStale.ErasedLookupLosesAnother` | watchman/LRUCache.h:153-165 | If another lookup starts in between and no third one is in flight, the second removal takes the new node out of the lookup queue, whose links are then broken |
| `LruRuns.EvictOneTrims` | watchman/LRUCache.h:619-659 | Eviction removes one node if any node is not in flight, never one in flight, counts it, and keeps the order of use |
| `LruRetention.LookupMakesRoom` | watchman/LRUCache.h:384-429 | The getter form answers with a node that is there and not past its deadline, leaving all nodes alone but for one more promise; otherwise it starts a lookup, and of the other nodes none goes while they are fewer than maxItems, and otherwise one, if and only if one is not in flight |
| `LruRetention.SetMakesRoom` | watchman/LRUCache.h:508-538 | set stores the value under the key, with the same guarantee for the other nodes |
| `LruRetention.GetTakesOnlyExpired` | watchman/LRUCache.h:311-349 | The direct get answers with a node that is there, throws for one in flight, takes out an error past its deadline, and changes no other node |
| `LruRetention.CompletionKeeps` | watchman/LRUCache.h:444-494 | A completion stores the outcome; it evicts nothing while the map is within maxItems, and otherwise exactly as many nodes as bring it to maxItems, or all that are not in flight; what stays is unchanged |
| `LruRetention.ErrorsThenValues` | watchman/LRUCache.h:619-659 | Eviction takes the oldest error if its time is over, else the least recently used value, else, only when forced, the oldest error, and nothing otherwise |
| `LruRetention.ErrorLastsItsTime` | watchman/LRUCache.h:456-466 | A failed lookup is answered with its error until the time-to-live has passed since the lookup began, and starts anew after that |
| `LruRetention.AsyncGetIsCounted` | watchman/LRUCache.h:388-424 | Each load counts one hit, share or miss, as the answer says, and every node that went counts as evicted |
| `LruRetention.GetIsCounted` | watchman/LRUCache.h:316-347 | The same for the direct get, where a load that threw counts as nothing more |
| `LruRetention.SetIsCounted` | watchman/LRUCache.h:508-538 | set counts one store, and every other node that went as evicted |
| `LruRetention.CompletionIsCounted` | watchman/LRUCache.h:453-494 | A completion counts one store, and every node that went as evicted |
| `LruRetention.EraseIsCounted` | watchman/LRUCache.h:542-558 | erase takes out exactly the node of the key and counts one erasure if there was one |
| `LruRetention.ClearIsCounted` | watchman/LRUCache.h:573-580 | clear leaves nothing in the map or the queues, and all counters at zero but that of the clears |
| `TailQ.TailQHead.InsertTail` | watchman/LRUCache.h:146-151 | The pointer work appends the node to the sequence the links spell, forward and backward |
| `TailQ.TailQHead.Remove` | watchman/LRUCache.h:153-165 | The pointer work takes exactly that node out of the sequence the links spell, and the node keeps its own links; a node that was never linked changes nothing |
| `TailQ.TailQHead.RemoveAgain` | watchman/LRUCache.h:153-165 | Removing a node again changes nothing as long as nothing was put in its place |
| `TailQ.TailQHead.RemoveStale` | watchman/LRUCache.h:153-165 | Removing the former last node again after another was appended breaks the queue |
| `TailQ.TailQHead.RemoveCleared` | watchman/LRUCache.h:153-177 | Removing a node after its queue was cleared keeps the queue sound if and only if the node was alone in it or neither first nor last |
| `TailQ.TailQHead.Touch` | watchman/LRUCache.h:168-171 | The node moves to the end and the others keep their order |
| `LruCache.Cache.Get` | watchman/LRUCache.h:311-349 | The pointer-level direct get does what the value-level step does, with all queues sound |
| `LruCache.Cache.AsyncGet` | watchman/LRUCache.h:384-429 | The locked part of the getter form does what the value-level step does: hit, share, or a new lookup after making room |
| `LruCache.Cache.Complete` | watchman/LRUCache.h:444-494 | The locked part of completion does what the value-level step does, and hands out the waiters |
| `LruCache.Cache.EvictOne` | watchman/LRUCache.h:619-659 | The pointer-level eviction picks the victim the value-level step picks, unlinks it, takes its key out of the map and leaves the lookup queue alone, also while a queued node is not in the map |
| `LruCache.Cache.Set` | watchman/LRUCache.h:508-538 | set does what the value-level step does; a node in flight that it replaces leaves its place in the lookup queue open |
| `LruCache.Cache.Erase` | watchman/LRUCache.h:542-558 | erase does what the value-level step does, and returns the node that was there |
| `LruCache.Cache.Clear` | watchman/LRUCache.h:573-580 | clear does what the value-level step does |
| `BserRoundTrip.RoundTrip` | watchman/bser.cpp:424-677 | For every value within the limits, decoding its dump followed by any bytes consumes exactly the dump and returns the transported value, in both versions |
| `BserLimits.DumpDecodes` | watchman/bser.cpp:424-677 | The parser accepts the dump of a value, followed by any bytes, if and only if the value is within the limits on sizes, reals and depth, and then returns the transported value, with its string types as negotiated, and the bytes that follow |
| `BserMeaning.TransportCarries` | watchman/bser.cpp:163-168 | With version 1 or bit 0 of the capabilities every string arrives as a byte string; otherwise none arrives with a type it was not sent with |
| `BserPrefix.AnswerStands` | watchman/bser.cpp:424-677 | Bytes that follow never change what the parser answers, value or error, unless the answer was that the input ended |
| `BserPrefix.CutDumpIsRefused` | watchman/bser.cpp:472-484 | A dump cut short anywhere is refused, and because the input ended |
| `BserPrefix.DumpsAreApart` | watchman/bser.cpp:303-340 | No dump is a proper prefix of another, and equal dumps carry equal values |
| `BserLimits.DepthLimit` | watchman/bser.cpp:571-582 | 499 arrays inside each other are read and 500 are refused |
| `BserLimits.SizeLimit` | watchman/bser.cpp:548-559 | A size is accepted exactly from 0 to 2^32 - 1 |
| `BserLimits.RealLimit` | watchman/bser.cpp:532-541 | A real is refused exactly if its exponent bits are all ones |
| `BserLimits.UnknownTag` | watchman/bser.cpp:428-470 | No value starts with the skip mark or a tag above 0x0d |
| `BserLimits.Malformed` | watchman/bser.cpp:589-656 | Template keys that are not an array, an empty template and an object key that is not a string are refused |
| `BserVectors.TemplateSequence` | website/docs/bser.md:105-128 | The documented example of a templated array is the dump, byte for byte |
| `BserVectors.TomAndJerry` | watchman/test/BserTest.cpp:124-131 | The PDU of the test, byte for byte, in both versions |
| `BserVectors.IntegerBytes` | watchman/bser.cpp:90-133 | An integer is its tag and the least of one, two, four or eight bytes of its two's complement |
| `BserVectors.LowByteFirst` | watchman/bser.cpp:90-133 | The low byte comes first |
| `BserVectors.ObjectSequence` | watchman/bser.cpp:270-299 | An object of one member is tag, count, key and value |
| `BserMeaning.Arrives` | watchman/bser.cpp:163-299 | The transported value is the same document, up to templates, if and only if keys have no NUL byte and templated rows are objects that use only template keys; with its string types if and only if, besides, these are negotiated or there are only byte strings |
| `BserBounds.DecodeBound` | watchman/bser.cpp:571-671 | Whatever the input, a decoded value has at most 2 * consumed - 1 nodes and container nesting of at most 998, templates included |
| `BserRoundTrip.IntegerRoundTrip` | watchman/bser.cpp:90-133 | An integer comes back from the bytes written for it, whatever follows them |
| `BserRoundTrip.RoundTripTemplate` | watchman/bser.cpp:184-240 | A templated array comes back as the plain array of its rows |
| `Bser.SignedRoundTrip` | watchman/bser.cpp:101-131 | A 64-bit integer survives truncation to the width chosen for it |
| `BserParser.Parser.ParseValue` | watchman/bser.cpp:428-470 | The parser with its moving position gives the value, the rest and the error that the specification gives |
| `BserParser.Parser.ParseArray` | watchman/bser.cpp:571-582 | Same for the loop over array elements, with the depth limit |
| `BserParser.Parser.ParseTemplate` | watchman/bser.cpp:589-633 | Same for the loops over template rows and keys, where a repeated key takes its last value |
| `BserParser.Parser.ParseObject` | watchman/bser.cpp:635-656 | Same for the loop over members, where a repeated key keeps its first value |
| `BserParser.Parser.ParseInteger` | watchman/bser.cpp:511-541 | Same for integers of each width |
| `BserParser.Parser.ExpectSize` | watchman/bser.cpp:548-559 | Same for sizes: negative ones and ones over the limit are errors |
| `BserParser.Parser.Ensure` | watchman/bser.cpp:472-484 | No byte outside the buffer is read: a request beyond the end is an error and the position stays inside |
| `BserParser.Bunser` | watchman/bser.cpp:731-736 | The whole parse agrees with the specification of decoding on every input |
| `BserWriter.Dumper.Dump` | watchman/bser.cpp:303-340 | The encoder, in the measuring and in the writing pass, emits exactly the bytes of the value, or after a failed write a prefix of them |
| `BserWriter.Dumper.BserTemplate` | watchman/bser.cpp:184-240 | Same for templated arrays |
| `BserWriter.Dumper.BserObject` | watchman/bser.cpp:270-299 | Same for objects |
| `BserWriter.Dumper.BserArray` | watchman/bser.cpp:242-268 | Same for arrays |
| `BserWriter.Dumper.BserInt` | watchman/bser.cpp:90-133 | Same for integers |
| `BserWriter.WritePdu` | watchman/bser.cpp:352-398 | The length announced is the number of bytes the second pass writes; an unsupported version writes nothing and fails |
| `PduBuffer.PduBuffer.ShuntDown` | watchman/PDU.cpp:36-47 | The unread bytes move to the front unchanged |
| `PduBuffer.PduBuffer.FillBuffer` | watchman/PDU.cpp:49-74 | Buffered plus incoming bytes stay the same bytes in order, no read has size zero, and the positions stay in order |
| `PduBuffer.PduBuffer.ReadLength` | watchman/PDU.cpp:170-189 | The loop waits for as many bytes as the length needs and returns what the parser reads from the whole stream, however it is split |
| `PduBuffer.PduBuffer.DecodePduInfo` | watchman/PDU.cpp:148-190 | The capabilities and the length read in pieces are those of the whole byte string |
| `PduBuffer.PduBuffer.ReserveRoom` | watchman/PDU.cpp:212-231 | Doubling the allocation ends with room for the body and keeps the unread bytes |
| `PduBuffer.PduBuffer.ReadBserPdu` | watchman/PDU.cpp:192-274 | Reads a whole PDU for every chunking of the stream: the parser gets at least the announced bytes, and the answer is that of the specification |
| `PduBuffer.PduBuffer.ReadAndDetectPdu` | watchman/PDU.cpp:276-326 | The type and the capabilities found are those of the first bytes of the stream; the type stays undecided exactly when the first read brings one byte |
| `PduBuffer.PduBuffer.ReadPastEnd` | watchman/PDU.cpp:192-274 | The reader entered with a single byte buffered reads nothing from the stream and returns no value if and only if the stale bytes behind the first two do not start with the tag of an integer; otherwise the error handler asks for more bytes than the allocation has left |
| `PduBuffer.PduBuffer.DecodeNext` | watchman/PDU.cpp:460-485 | For every chunking the answer depends only on the bytes, except after a first read of one byte alone, where the stale bytes in the buffer decide between a failure and an overrun |
| `PduBuffer.OthersAreJson` | watchman/PDU.cpp:76-87 | Bytes without one of the two magics are not BSER, and fewer than two bytes fail |
| `PduFormat.BunserIntIsParsed` | watchman/bser.cpp:682-729 | The integer reader of the header agrees with the parser on any extension of what it has, and asks for more exactly when more is needed |
| `PduFormat.HeaderRoundTrip` | watchman/bser.cpp:369-391 | The header written is read back, whatever follows it |
| `BserWriter.JBuffer.Write` | watchman/PDU.cpp:511-539 | Bytes sent plus bytes buffered are the bytes written, in order, for every schedule of short writes; on failure they are a prefix |
| `BserWriter.JBuffer.Flush` | watchman/PDU.cpp:491-504 | Flushing moves bytes from the buffer to the peer without changing the whole; success leaves the buffer empty |
| `PduWire.BserEncodeToStream` | watchman/PDU.cpp:542-561 | On success the peer has exactly the bytes of the PDU; failure means a failed write or an unsupported version |
| `PduWire.OnePdu` | watchman/PDU.cpp:192-274 | The reader's answer to the bytes of one PDU followed by anything is the value that was sent, if and only if that is within the parser's limits, and otherwise a failure |
| `PduWire.Exchange` | watchman/PDU.cpp:460-561 | Encoder and decoder end to end, for every write and read schedule: unless a call fails the value arrives exactly when it is within the parser's limits and the first read brings more than one byte |
| `PduWire.HeaderStaysBehind` | watchman/PDU.cpp:255-265 | A version 1 header left in the buffer by an earlier PDU makes the next lone byte an overrun |
| `SinceProtocol.ClientFollowsServer` | watchman/Clock.cpp:130-157 | In every run of batches, age-outs, restarts and queries in which no age-out overtakes a query, each answer leaves the client with exactly the files that exist, and at any time its errors concern files changed after its clock or its next query is a fresh instance |
| `SinceProtocol.ErrorsAreForgotten` | watchman/Clock.cpp:130-157 | In every run, overtaken queries included, the recency list stays in order and without repetitions, and each answer leaves the client right about every file on it: it errs at most about files that were forgotten |
| `SinceProtocol.AnswerFitsList` | watchman/InMemoryView.cpp:515-552 | What one answer, overtaken or not, leaves the client with: the files of the list that exist, and of those not on the list the ones it knew before, unless the answer is fresh |
| `SinceProtocol.DeletionIsReported` | watchman/InMemoryView.cpp:515-596 | In every run a deletion that only age-outs with earlier horizons have passed over is in the answer to every query whose basis precedes it, and after any answer the client does not believe in the file |
| `SinceProtocol.AnswerIsExact` | watchman/query/eval.cpp:495-511 | An answer makes the client exact if and only if it is a fresh instance or no file the client knows was forgotten |
| `SinceProtocol.SteadyAnswerIsExact` | watchman/Clock.cpp:144-149 | It is exact when the age-out tick, read again under the lock, is not past the client's clock |
| `SinceProtocol.OvertakenQueryLosesADeletion` | watchman/query/eval.cpp:495-511 | A run in which the age-out tick is read before an age-out and the list after it: the deletion is not reported |
| `SinceProtocol.LossPersists` | watchman/Clock.cpp:144-149 | After that the client keeps the deleted file through every step other than a later age-out, a restart or the file's return |
| `SinceProtocol.StepKeepsStep` | watchman/InMemoryView.cpp:515-552 | Each step keeps the agreement between client and server up to the client's clock |
| `ClockSpec.Evaluate` | watchman/Clock.cpp:130-196 | A clock is a fresh instance exactly when it is of another process or root or older than the age-out tick, a named cursor exactly when it is new or older than that; the named cursor, and no other, moves to the current tick |
| `ViewModel.EarlyExitIsExact` | watchman/InMemoryView.cpp:568-596 | On a list ordered by tick the walk that stops early reports exactly the files changed after the tick |
| `ViewModel.Changed` | watchman/InMemoryView.cpp:377-387 | A change keeps the list duplicate-free and in order of tick |
| `ViewModel.AgedOut` | watchman/InMemoryView.cpp:515-552 | Age-out keeps the list in order, forgets only deleted files, and raises the age-out tick to at least the tick of each file it forgets |
| `ViewModel.AgeOutForgets` | watchman/InMemoryView.cpp:515-552 | With a head that exists or is newer than the horizon, exactly the files deleted and not changed after the horizon go, and the age-out tick becomes the greatest of the old one and theirs; with a deleted head that is not newer exactly the head goes |
| `ViewModel.ChangeShows` | watchman/InMemoryView.cpp:377-387 | The changed file is at the head with what was seen, the tick and the time; every other file is as it was |
| `ViewDatabase.ViewDatabase.RemoveFromFileList` | watchman/root/file.cpp:13-27 | The pointer work takes exactly that file out of the sequence the links spell |
| `ViewDatabase.ViewDatabase.InsertAtHeadOfFileList` | watchman/InMemoryView.cpp:419-426 | The pointer work puts the file in front of the sequence the links spell |
| `ViewDatabase.ViewDatabase.MarkFileChanged` | watchman/InMemoryView.cpp:377-387 | The intrusive list after a change is the list of the value-level step, each file linked once |
| `ViewDatabase.ViewDatabase.GetOrCreateChildFile` | watchman/InMemoryView.cpp:355-375 | The file of that name, new and unlinked if there was none |
| `ViewDatabase.ViewDatabase.Observe` | watchman/root/iothread.cpp:938-948 | A path found to exist or not has its file made if need be and moved to the head with the current tick |
| `ViewDatabase.ViewDatabase.AgeOutFile` | watchman/InMemoryView.cpp:493-513 | Erasing a file from its directory unlinks exactly its node |
| `ViewDatabase.ViewDatabase.AgeOut` | watchman/InMemoryView.cpp:515-552 | The walk that goes back to the last good file has the effect of the value-level step: all stale files go, or only the head when the head is stale |
| `ViewDatabase.ViewDatabase.TimeGenerator` | watchman/InMemoryView.cpp:568-596 | The walk over the links reports the prefix of the list newer than the tick |
| `RadixTree.LongestMatchIsExact` | watchman/thirdparty/libart/src/art-inl.h:624-664 | longestMatch finds a stored prefix of the path if and only if no other stored key extends that prefix |
| `RadixTree.FindLongestMatch` | watchman/thirdparty/libart/src/art-inl.h:624-664 | The loop computes the descent |
| `PendingRuns.NothingIsLost` | watchman/PendingCollection.cpp:60-142 | In every run of adds, appends, steals and clears, each path handed in is an entry or lies below a recursive entry, each possible cookie is an entry of its own, and no path occurs twice |
| `PendingRuns.AddKeepsCover` | watchman/PendingCollection.cpp:165-254 | Pruning, skipping and consolidation keep every covered path covered |
| `PendingRuns.AddKeepsCookie` | watchman/PendingCollection.cpp:189-227 | No later add removes an entry that may be a cookie |
| `PendingRuns.AddTakesExactly` | watchman/PendingCollection.cpp:165-254 | An add takes out exactly the entries inside the path that are not crawl-only and hold no cookie marker, and only if the entry of the path ends up recursive and not crawl-only |
| `PendingRuns.AddSkipsExactly` | watchman/PendingCollection.cpp:260-284 | A new path is skipped, and nothing changes, if and only if it holds no cookie marker and is inside a recursive entry, not crawl-only, whose name no other entry extends |
| `CookieName.MarkerIsFound` | watchman/Cookie.h:26-28 | The test finds the marker if and only if it stands at some position of the path |
| `CookiePending.CookieHasItsEntry` | watchman/PendingCollection.cpp:189-284 | In every run a cookie file that was handed in has an entry of its own until the items are stolen or cleared, whatever else is added |
| `CookiePending.AwaitedCookieHasItsEntry` | watchman/CookieSync.cpp:19-28 | So has every file that a sync, in any interleaving, still waits for |
| `PendingRuns.AddHonoursFlags` | watchman/PendingCollection.cpp:240-254 | An entry keeps everything it was asked for, its time and its origin through consolidation, and nothing is set that nobody asked for |
| `PendingRuns.AddIsFlat` | watchman/PendingCollection.cpp:260-284 | With neither CRAWL_ONLY nor cookies, an add leaves no entry below a recursive one if and only if no recursive entry above the path has its name extended by another stored key |
| `PendingRuns.SiblingShadowsDirectory` | watchman/PendingCollection.cpp:260-284 | From the empty collection, foo/bar recursive, foo/bard and then foo/bar/x: foo/bar/x becomes an entry below foo/bar |
| `PendingRuns.RunIsFlat` | watchman/PendingCollection.cpp:60-142 | In every run of such adds no entry ever lies strictly below a recursive one |
| `PendingChanges.PendingChanges.LinkHead` | watchman/PendingCollection.cpp:287-294 | The pointer work puts the node in front of the doubly linked sequence |
| `PendingChanges.PendingChanges.UnlinkItem` | watchman/PendingCollection.cpp:297-313 | The pointer work takes exactly that node out of the doubly linked sequence |
| `PendingChanges.PendingChanges.MaybePruneObsoletedChildren` | watchman/PendingCollection.cpp:165-238 | The repeat-until-none loop ends, removes exactly the entries strictly below the path that are neither CRAWL_ONLY nor possible cookies, from tree and list, and no mere sibling |
| `PendingChanges.PendingChanges.ConsolidateItem` | watchman/PendingCollection.cpp:240-254 | The entry gets the stronger flags and prunes with them; tree and list keep the same nodes |
| `PendingChanges.PendingChanges.IsObsoletedByContainingDir` | watchman/PendingCollection.cpp:260-284 | Decides by the descent what the value-level test decides |
| `PendingChanges.PendingChanges.Add` | watchman/PendingCollection.cpp:60-85 | Tree and list hold the same nodes once each, with consistent links, and have the items of the value-level add |
| `PendingChanges.PendingChanges.Append` | watchman/PendingCollection.cpp:111-142 | Same for the loop over a stolen chain whose nodes are relinked |
| `PendingChanges.PendingChanges.StealItems` | watchman/PendingCollection.cpp:144-147 | The chain returned spells all items and the collection is empty |
| `CookieRuns.CookiesAreCounted` | watchman/CookieSync.cpp:80-236 | In every interleaving of lock sections and decrements, a cookie's counter is the number of its files in the map plus those removed and not yet decremented, its promise is open exactly while that is positive, and every file is outstanding, served or aborted |
| `CookieRuns.PromiseIsCompletedOnce` | watchman/CookieSync.cpp:203-207 | A promise is completed at most once, by the step that takes the counter from one to zero |
| `CookieRuns.PathsAreNew` | watchman/CookieSync.cpp:89-107 | Until the 32-bit serial wraps, no cookie path repeats |
| `CookieModel.PathIsInjective` | watchman/CookieSync.cpp:259-266 | A cookie file's name determines its directory and serial |
| `CookieRuns.SuccessIsServed` | watchman/CookieSync.cpp:184-236 | When no abort splits a notifyCookie in two, success means that every file of the cookie was observed or cancelled |
| `CookieRuns.CalmIsExact` | watchman/CookieSync.cpp:184-236 | The condition is exact: swapping the map out can lead to a success with an aborted file if and only if notifyCookie then holds a file of a cookie that still has one in the map |
| `CookieRuns.SplitNotifyHidesAnAbort` | watchman/CookieSync.cpp:184-236 | From every such state the threads can finish so that the promise reports success although a file was aborted |
| `CookieRuns.SplitNotifyFromStart` | watchman/CookieSync.cpp:80-236 | The whole run that does so, from the start, with two directories and one sync |
| `CookieModel.SyncKeepsCount` | watchman/CookieSync.cpp:91-142 | A sync whose files are new starts with a counter equal to the files it created |
| `CookieSync.CookieSync.Sync` | watchman/CookieSync.cpp:80-148 | The new state is that of the step; the assertion fails exactly when there is no cookie directory |
| `CookieSync.CookieSync.Touch` | watchman/CookieSync.cpp:109-131 | The counter that loses one per failed creation ends as the number of files created |
| `CookieSync.CookieSync.RemoveCookieDir` | watchman/CookieSync.cpp:43-62 | Exactly the files whose path starts with the directory's name go, and a promise completes, with success, when its last file does |
| `CookieSync.CookieSync.AbortAllCookies` | watchman/CookieSync.cpp:184-201 | The map is emptied, open promises are aborted and completed ones keep their outcome |
| `CookieSync.CookieSync.NotifyCookie` | watchman/CookieSync.cpp:209-236 | The file goes and its promise completes when it was the last; other cookies do not change |
| `WalkRuns.EveryScheduleIsSound` | watchman/fs/ParallelWalk.cpp:91-264 | In every schedule the counter is the number of live tasks, each queue gets one end sentinel, after everything else, and holds each result and error of each task exactly once |
| `WalkRuns.ZeroIsFinal` | watchman/fs/ParallelWalk.cpp:93-104 | Once the count is zero it stays zero, and only the sentinels follow |
| `WalkRuns.AncestorsComeFirst` | watchman/fs/ParallelWalk.cpp:229-245 | In every schedule the results of all directories above a directory precede its own |
| `WalkRuns.FinishedWalkIsComplete` | watchman/fs/ParallelWalk.cpp:154-246 | A walk that ended and was never stopped accounts for every directory on the root mount, by one result, one opendir error or because it was ignored, if and only if reading none of them breaks off with an exception |
| `WalkRuns.FinishedWalkAccounts` | watchman/fs/ParallelWalk.cpp:181-245 | It accounts for one directory if and only if neither it nor a directory above it breaks off; then it has a result exactly when it was listed and an opendir error exactly when it could not be opened |
| `WalkRuns.BrokenRootLeavesNothing` | watchman/fs/UnixDirHandle.cpp:384-391 | A schedule in which readDir throws at the second entry of the root: both queues end, with no result and no error, and the subdirectory is never opened |
| `WalkRuns.ResultsAreReachable` | watchman/fs/ParallelWalk.cpp:215-245 | Only reachable directories have results |
| `WalkReach.OnlyTheRootsMount` | watchman/fs/ParallelWalk.cpp:181-226 | In every schedule, at all times, results and opendir errors are of directories reached from the root only through subdirectories on its mount named neither . nor .., listed and failed respectively; stat errors are of entries there whose stat fails |
| `WalkReach.EveryPlaceIsRead` | watchman/fs/ParallelWalk.cpp:154-246 | A finished walk that was never stopped, in a tree whose reading does not break off, has opened every such directory, and has its result or error and every stat error |
| `WalkReach.StopIsFinal` | watchman/fs/ParallelWalk.cpp:159-161 | Once the walk is stopped, a directory whose task has not begun leaves no result, no error and no tasks, whatever follows |
| `WalkModel.ReadDirTask` | watchman/fs/ParallelWalk.cpp:163-246 | The loops over the entries give the plan: stat errors in order, the result, then the subdirectories on the same mount; . and .. and failed entries are left out of the result; an exception while reading leaves only the stat errors |
| `WalkModel.ResultFirst` | watchman/fs/ParallelWalk.cpp:229-245 | A task that has spawned has pushed its result |
| `PubSubRuns.SubscribersMissNothing` | watchman/PubSub.cpp:57-169 | In every run what a subscriber has received is a gap-free, strictly increasing run of the serials enqueued, and garbage collection keeps the next item a live subscriber needs |
| `PubSubRuns.GetPendingCatchesUp` | watchman/PubSub.cpp:57-93 | Right after each getPending the subscriber has every item from its start, not later than its subscription, to the last one, once each |
| `PubSubRuns.CollectIsSound` | watchman/PubSub.cpp:120-136 | Garbage collection drops nothing a live subscriber has not seen |
| `PubSubRuns.CollectionIsExact` | watchman/PubSub.cpp:120-136 | Collection leaves exactly the items that some live subscriber has not got past |
| `PubSubRuns.EnqueueQueues` | watchman/PubSub.cpp:138-169 | enqueue puts the item, numbered next, at the end if and only if someone is subscribed, after dropping what nobody wants; without a subscriber nothing is left |
| `PubSub.Publisher.GetPending` | watchman/PubSub.cpp:57-93 | The backward search and the copy loop append exactly the unseen items and move the serial to the last of them |
| `PubSub.Publisher.Enqueue` | watchman/PubSub.cpp:138-179 | An item is queued exactly when a live subscriber is left; the new state is that of the step |
| `PubSub.Publisher.CollectGarbage` | watchman/PubSub.cpp:120-136 | The loops drop the items below the least serial of the live subscribers |
| `PubSub.Publisher.Destroy` | watchman/PubSub.cpp:23-55 | The vacated references go, then the garbage |
| `PubSub.Publisher.Subscribe` | watchman/PubSub.cpp:107-114 | A new subscriber that has seen nothing |
| `Subscriptions.ClientSubscription.GetSubscriptionAction` | watchman/cmds/subscribe.cpp:63-117 | For every order of the policy map: up to date when the tick was seen, else drop if an asserted state says drop, else defer if one is asserted, else execute |
| `Subscriptions.ClientSubscription.ProcessSubscription` | watchman/cmds/subscribe.cpp:142-214 | A settle has the effect of the value-level step on the since clock and the last tick; with the tick moved, no state with a policy asserted and no VCS operation to defer it, it notifies exactly on news that is kept and takes the process down exactly if the query itself fails; otherwise neither |
| `SubscriberView.SubscriberFollowsServer` | watchman/cmds/subscribe.cpp:142-300 | In every run of server steps, settles and flushes without drops, in which no age-out overtakes a query, a subscriber that replaces on a fresh instance and patches otherwise agrees with the server up to its basis, and right after each query whose results are not discarded it knows exactly the files that exist |
| `SubscriberView.FinishIsAnswer` | watchman/cmds/subscribe.cpp:254-300 | Keeping an empty answer to oneself tells the subscriber as much as sending it; discarding results is the same as never having run the query |
| `SubscriberView.DropIsHarmless` | watchman/cmds/subscribe.cpp:160-172 | A drop between batches keeps the agreement if and only if there was nothing to tell |
| `Subscriptions.ClientSubscription.Flush` | watchman/cmds/subscribe.cpp:392-432 | A flush drops or runs the query, ignoring deferral; it notifies exactly if it does not drop and there is news, and never takes the process down |
| `SubscriptionRuns.WindowsTile` | watchman/cmds/subscribe.cpp:142-288 | In every run of settles and flushes the windows of completed queries and drops follow each other, without gap or overlap, from the first basis to the present one |
| `SubscriptionRuns.EachTickOnce` | watchman/cmds/subscribe.cpp:142-288 | Each tick from the first basis to the present one lies in exactly one window |
| `SubscriptionRuns.SettleWaitsForNextTick` | watchman/cmds/subscribe.cpp:189-199 | After a settle that ran its query the next one finds nothing to do until the tick moves, even when the results were discarded and the window stayed open, if and only if the tick is below 2^32 |
| `SubscriptionRuns.DropWaitsForNextTick` | watchman/cmds/subscribe.cpp:160-172 | A drop closes the window up to the present tick, and the next settle finds nothing to do until the tick moves, with the same exception |
| `SubscriptionRuns.HeldBackIsKept` | watchman/cmds/subscribe.cpp:173-210 | A settle that is deferred, held back by a VCS operation or whose query throws leaves the subscription as it was, and a settle at that tick that nothing holds back runs the query |
| `SubscriptionRuns.FlushIsNoSettle` | watchman/cmds/subscribe.cpp:417-432 | A flush that runs the query moves the basis alone |
| `Subscriptions.NotifiesOnNews` | watchman/cmds/subscribe.cpp:254-300 | A query notifies if and only if its results are kept and it is not empty, is a fresh instance or, under SCM, was rebased; it moves the basis if and only if they are kept |
| `SubscriptionRuns.DropLosesScm` | watchman/cmds/subscribe.cpp:160-172 | In every run the clock carries SCM parameters exactly as long as it did at first and nothing was dropped; after a drop no result is held back because of an SCM operation any more |

## Left out

- Everything outside the components above: query expressions and fields, watchers, triggers, the command layer, SCM and Eden support, the client libraries and the Windows branches. They would add members without a property that spans operations.
- The JSON side of the PDU code, `streamPdu` and `streamN`: only BSER PDUs are decoded. `DecodeNext` answers `NotBser` for JSON.
- PduBuffer.PduBuffer.DecodeNext: lengths, those that stale bytes would announce included, are bounded by 2^30, so that doubling the allocation stays within 32 bits; the JSON readers are left out.
- PduBuffer.PduBuffer.ReadPastEnd: stale lengths are bounded by 2^30, for the same reason; what becomes of the process after the overrun is not modelled.
- BserLimits.DumpDecodes: dumps are shorter than 2^63 bytes, so that every length in them is what json_int_t holds.
- PduBuffer.PduBuffer.ReadAndDetectPdu: pretty-printed JSON from standard input is not told from compact JSON.
- PduBuffer.PduBuffer.FillBuffer: fewer than 2^30 bytes are unread, for the same reason.
- PduBuffer.PduBuffer.ReserveRoom: lengths are bounded by 2^30, for the same reason.
- PduBuffer.PduBuffer.ReadBserPdu: lengths are bounded by 2^30, for the same reason.
- PduWire.OnePdu: bodies are bounded by 2^30 bytes, for the same reason.
- PduWire.Exchange: PDUs are bounded by 2^30 bytes, for the same reason.
- BserWriter.JBuffer.Write: pieces are bounded by 2^31 - 1 bytes, because the source keeps the size of a piece in a signed integer.
- BserWriter.Dumper.Dump: no string or key is longer than 2^31 - 1 bytes, for the same reason; the whole encoding may be.
- BserWriter.Dumper.BserTemplate: the same bound on single strings.
- BserWriter.Dumper.BserObject: the same bound on single strings and keys.
- BserWriter.Dumper.BserArray: the same bound on single strings.
- BserWriter.WritePdu: the same bound on single strings and keys.
- PduWire.BserEncodeToStream: the same bound on single strings and keys.
- BserRoundTrip.RoundTrip: mixed strings and the check that a string is valid UTF-8 are not modelled; the host is little-endian; a double is its eight bytes. Hash tables are lists of members in insertion order, and objects are compared up to that order.
- BserMeaning.Arrives: templates are forgotten on the way, as the format intends, and are not compared.
- LruRuns.RunKeepsLedger: runs that set, erase or clear a key in flight are excluded, because the property fails for exactly those steps, as `LruStale.LedgerNeedsIdleKeys` shows.
- LruStale.SetThenFail: only for a map within maxItems, so that the completion itself evicts nothing.
- LruRuns.RunKeepsPromises: the same runs are excluded.
- TailQ.TailQHead.Remove: a node that was removed before is treated by `RemoveAgain`, `RemoveStale` and `RemoveCleared`, not here.
- LruCache.Cache.Complete: a node that the map no longer holds is treated in `LruStale`, not here.
- LruCache.Cache.AsyncGet: the timeout wrapped around the returned future and the getter's own execution are not modelled; a completion is a separate step that may come at any later time.
- ViewDatabase.ViewDatabase.AgeOut: the directory tree is one map from full path to file, so the erasure of directories after their files is not modelled, and age-out is one step. When the head of the list is stale only the head is removed, as in the source.
- ViewDatabase.ViewDatabase.AgeOutFile: the directories to erase are not collected, for the same reason.
- ViewDatabase.ViewDatabase.GetOrCreateChildFile: directories and the creation stamp are not modelled.
- ViewDatabase.ViewDatabase.Observe: the comparison of old and new stat data, which decides whether a path that exists is marked, is left to the caller.
- ViewDatabase.ViewDatabase.TimeGenerator: only a clock as the basis, and no relative root.
- SinceProtocol.ClientFollowsServer: the query has no expression, path or suffix generator; it returns every file the time generator or, on a fresh instance, the walk over all files gives. Since queries by timestamp are left out, because timestamps are not monotone.
- ClockSpec.Evaluate: parsing and printing of clock strings is not modelled, and the protocol is proved for clocks, not for named cursors.
- RadixTree.LongestMatchIsExact: node sizes, path compression and the bounded prefix comparison of libart are not modelled; they do not change which leaf the descent ends at. `search`, `insert`, `erase` and `iterPrefix` are operations of a map.
- PendingChanges.PendingChanges.Append: the sync promises that travel with a chain are not modelled.
- CookieSync.CookieSync.Sync: file creation is a parameter that says which touches fail; unlinking is left out. `syncToNow` with its timeout is left out.
- CookieRuns.CookiesAreCounted: runs stop at the last 32-bit serial; beyond it a path can repeat.
- WalkRuns.FinishedWalkIsComplete: exceptions other than those of `readDir`, and those `openDir` and stat report, are not modelled. The directory tree does not change during the walk and is finite. Only what is put in the queues is stated; `taskAwareDequeue` can return early when the count reaches zero between its two checks, so nothing is said about the first missing value a consumer sees.
- PubSub.Publisher.Enqueue: notification callbacks, payload contents and the wrap of the 64-bit serial are not modelled.
- SubscriptionRuns.WindowsTile: a change of root instance is not modelled here.
- SubscriberView.SubscriberFollowsServer: the query has no expression and the root instance does not change; that an SCM-aware answer also lists files by comparing revisions is not modelled.
- Memory that the source frees is simply no longer referred to.
