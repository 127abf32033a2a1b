# es-lite: delivery and history guarantees

A Dafny model of es-lite, an event store for Go with a Postgres and a SQLite backend, and proofs of what
it promises: a feed that never skips a committed event, a tamper-evident history per stream, commands
that behave as if they ran one at a time, and projections that see each event in order.

The modules follow the program.

- `Wrappers`, `Ascending`: shared types, and counting in ordered keys.
- `EventLog`, `Paging`: the log in global order and the bounded page read over it.
- `HorizonFence`, `FencedReader`: the Postgres horizon fence. Append transactions draw an xid, then
  positions, and settle in any order; readers keep `boundL` and `fenceR`. `HorizonFence` is the
  transition system in which every statement is a step. `FencedReader` is the code, run against it.
- `Leases`, `FeedDelivery`, `AckWindow`: the feed server, its lease and checkpoint stores, and the
  consumer's ack window, as interleaved steps with crashes, reconnects, takeovers and late saves, on top
  of the fence.
- `TakeoverRun`: one whole run of that protocol in which an acknowledgement lands after a takeover.
- `ByteStrings`, `StreamIds`, `Envelopes`, `ChainVerify`, `PagedVerify`, `ChainedAppend`, `StreamStore`,
  `Anchors`, `Claims`, `SqliteStore`, `AnchoredHistory`: the canonical encoding, the hash chain, its
  checker, the appends of both backends, uniqueness claims, anchors, and what a checked anchor proves.
  SHA-256 (section 6.2 of FIPS 180-4) is any function to 32 bytes; results that depend on it say "or here
  is a collision".
- `Aggregate`, `Commands`, `CommandLoop`, `SerialAppends`, `CommandsOnStore`, `TimeTravel`: loading,
  snapshots, concurrent commands with retry down to the statements of their transactions, and time travel.
  Deciders and codecs are parameters.
- `Projection`, `ProjectionRunner`, `BufferedMarker`, `BufferedProjection`: marker-deduplicated dispatch,
  rebuild, the buffering marker, and a projection over it.

Runs are sequences of steps, and the main theorems hold for every run. Where the Go code is a loop or an
object with fields, it is a method or a class here, and its contract ties it to the run it takes part in.

## Where code and documentation differ

The model follows the code.

- `feed/server.go:580-582` says a lease lost between the holder check and the save never advances the
  cursor. It does, exactly when the acknowledged window lies past it:
  `FeedDelivery.CheckedAckLandsAfterTakeover`, and `TakeoverRun.TakeoverMovesTheCheckpoint` is a run in
  which it happens. No event is lost by it, because `FeedDelivery.AtLeastOnce` does not depend on the lease.
- A stream that was replaced under its own owner token still releases the key when it ends, and thereby
  drops the live stream's lease: `Leases.LateReleaseUnfencesTheLiveStream`. A stream on schedule keeps its
  lease exactly when nobody releases under its token: `Leases.OnScheduleHoldsExactlyWhen`.
- Postgres keeps a lease's lifetime in whole microseconds, so a lifetime and an interval that `NewServer`
  accepts can still lapse between renewals: `Leases.SubMicrosecondLifetimeLapses`.
- `VerifyStreamWith` ends on a short page, so a gap that runs up to a page's end hides the rest of the
  stream: `PagedVerify.GapHiddenByPageSize`, and exactly when in `PagedVerify.PagedReportIsFullExactlyWhen`.
- An anchor at a position the log has not reached yet does not stay valid:
  `SqliteStore.AnchorChecksExactlyWhen`.
- `ReadAllBounded` on Postgres describes its two queries as one snapshot. At READ COMMITTED they are two;
  the page is right all the same: `FencedReader.Workspace.SelectAndFetch`.
- A snapshot written through before a caller-owned transaction rolls back makes the next load wrong:
  `Commands.RolledBackAppend` says exactly when, and `Commands.RolledBackAppendPoisonsTheCache` is one case.
- `LoadAsOfTime` with the zero time is a current load: `TimeTravel.LoadAsOfTime`.
- `BufferedMarker` says it never rewinds. After a flush it does, exactly when
  `BufferedMarker.SaveRewindsExactlyWhen` says (`BufferedMarker.RewindAfterFlush`); and a save of zero can
  return nil while `MaxCount` or more saves wait, which is the exception in
  `BufferedMarker.BufferedMarker.Save` (`BufferedMarker.ZeroSaveOverAFullWindow`).

## Model

| member | source | states |
|---|---|---|
| HorizonFence.DeliveredRangeIsFinal | postgres/wsstore.go:407-494 | In every interleaving of append transactions and reader rounds, a committed row inside a returned bound has no open transaction owning a position at or below it, and nothing at or below it ever appears, changes or goes away. |
| HorizonFence.HeadIsASettlePoint | postgres/wsstore.go:668-697 | A head that `Head` returned is final in the same sense, so a cursor may be put there without skipping an event that commits later. |
| HorizonFence.TailingLosesNothing | postgres/wsstore.go:532-632 | A consumer whose cursor moves only to delivered positions has, after any further history, been given exactly the matching rows up to its cursor, each once and in order. |
| HorizonFence.ClearedFenceSettles | postgres/wsstore.go:440-449 | Once xmin has reached R, every transaction that drew a position at or below L has settled. |
| HorizonFence.ClearedIsXminReached | postgres/wsstore.go:440-449 | The cleared test is `xmin >= R`, with xmin the smaller of the lowest running xid and latest completed plus one. |
| HorizonFence.SettledIsFinal | postgres/wsstore.go:151-274 | No statement of any transaction adds to or changes a settled prefix, because each draws its xid before its positions. |
| HorizonFence.DbInvKept | postgres/wsstore.go:178-181 | Every database step keeps xids before positions, positions unique, and rows only at owned positions. |
| HorizonFence.FencePairKept | postgres/wsstore.go:418-435 | Whatever runs, an owner of a position at or below L keeps an xid below R, so a stored pair stays usable. |
| HorizonFence.CommittedInsideGranted | postgres/wsstore.go:402-416 | A committed row inside a granted bound closes the sequence up to it, also for the fresh sequence that reports 1 before any draw. |
| HorizonFence.InvAlongRun | postgres/wsstore.go:457-494 | The invariant of database and readers holds in every reachable state. |
| HorizonFence.StoredFenceClearsExactlyWhen | postgres/wsstore.go:424-449 | A stored round clears exactly when every transaction with an older xid has settled; the reader's own aborted xid never holds it back. |
| HorizonFence.AtMostOneEmptyPageWhenQuiet | postgres/wsstore.go:457-494 | With nothing in flight and a matching row waiting, this call's bound reaches a matching row or the next call's bound reaches them all. |
| HorizonFence.PositionBeforeXidLosesARow | postgres/wsstore.go:169-181 | The xid-first rule is needed: drawing a position first lets a cleared fence deliver past an open position. |
| FencedReader.Workspace.constructor | postgres/store.go:255-257 | A new value has no stored round. |
| FencedReader.Workspace.Issue | postgres/wsstore.go:407-449 | One statement after whatever others did first sees their effect, changes no other reader, and counts as a call exactly when it enters one. |
| FencedReader.Workspace.FenceBound | postgres/wsstore.go:457-494 | One call extends the interleaved history; a returned bound is granted; it fails exactly when a statement it gets to fails, and which those are follows from the stored round, the state others left and the cursor; an error keeps the stored round, a positive bound clears it, a blocked stored round is kept. |
| FencedReader.Workspace.StartRound | postgres/wsstore.go:475-494 | With no round stored it fails exactly when a statement it issues fails, and draws nothing when the sequence is not past the cursor. |
| FencedReader.Workspace.CheckStoredRound | postgres/wsstore.go:461-473 | A stored round either clears, returning its own L and forgetting the pair, or stays as it was; it fails exactly when its statement does. |
| FencedReader.Workspace.DrawAndCheck | postgres/wsstore.go:482-494 | A new round returns the L read before its xid, or stores exactly that L and the xid drawn; it fails exactly when the draw or the check does, and then stores nothing. |
| FencedReader.Workspace.ReadAllBounded | postgres/wsstore.go:532-632 | Whatever commits before and between its queries, a page is exactly the matching rows from the cursor to its last position in the log at the end, that range is closed for good, and the page takes all its limits allow; no types give an empty page; it is unavailable exactly when a statement of the fence fails, and otherwise fails only, naming it, for a first matching row inside the bound that is over the cap. |
| FencedReader.Workspace.SelectAndFetch | postgres/wsstore.go:554-631 | What the first query chose is still right when the second fetches it, though they do not share a snapshot; it fails exactly when the first matching row is over the cap. |
| FencedReader.PageIsClosed | postgres/wsstore.go:566-631 | A page read under a granted bound equals the log's matching rows in its range after any further steps. |
| FencedReader.PageStaysComplete | postgres/wsstore.go:566-610 | A page stays the right page for the bound whatever others do before the fetch. |
| FencedReader.SentStaysExact | feed/server.go:428-490 | What was sent up to a settled cursor stays exactly the matching rows as the log grows. |
| FencedReader.StreamPages | feed/server.go:428-490 | The read and send loop makes one fenced read per round and has sent exactly the matching rows from where it began to where it is, none over the cap; it waits only when no matching row is left inside the bound it read up to, and fails only for a failed statement of the round it had reached or an over-cap row next in line. |
| FencedReader.ReadRound | feed/server.go:428-470 | One round: what was sent before it is still exactly right after it, and with its page added is right up to the new cursor. |
| FencedReader.Fetch | postgres/wsstore.go:614-631 | Fetching the chosen positions returns the chosen rows. |
| Paging.ReadPage | sqlite/feed.go:100-192 | Page selection: an error exactly when the first matching row is over the cap; otherwise the longest prefix within count, byte and cap limits, at least one row if any matches, truncated exactly when a limit other than the count cut it. |
| Paging.PageCoversItsRange | sqlite/feed.go:129-192 | A page is exactly the matching rows between the old and the new cursor. |
| Paging.IdleMeansDrained | feed/server.go:471-489 | The loop idles only when nothing matching is left inside the bound; a truncated page always has a matching successor. |
| Paging.PagesRefineTheLog | sqlite/feed.go:100-192 | Pages chained by their last position are together the plain filtered log, each row once and in order, none over the cap. |
| EventLog.PrefixIsRange | postgres/wsstore.go:566-610 | Cutting an ordered range after its n-th row is lowering its upper bound to that row. |
| EventLog.RowsInSplits | postgres/wsstore.go:566-610 | Reading a range in two parts is reading it whole. |
| EventLog.RowsIn | postgres/wsstore.go:566-575 | The rows of the position query: only matching rows of the range, all of them, in strictly increasing position. |
| EventLog.HeadAt | postgres/wsstore.go:680-697 | The largest matching position at or below a bound, 0 if none. |
| Leases.SavesCommute | postgres/feed.go:112-129 | In either order two saves leave the highest position; the rows agree altogether exactly when the fingerprints are equal or one is empty. |
| Leases.CheckpointStore.Save | postgres/feed.go:112-129 | The upsert keeps the larger position and, for an empty fingerprint, the stored one; other keys are untouched. |
| Leases.CheckpointStore.ResetTo | postgres/feed.go:135-152 | A reset sets the position unconditionally. |
| Leases.CheckpointStore.Delete | postgres/feed.go:155-168 | Removes the key's row only. |
| Leases.LeaseStore.Acquire | postgres/feed.go:213-237 | Succeeds exactly when the key is free, this owner's, or expired; then the owner holds it for the lifetime given. |
| Leases.LeaseStore.Renew | postgres/feed.go:243-261 | Extends the owner's row, expired or not, and fails exactly when the row is not the owner's. |
| Leases.LeaseStore.Release | postgres/feed.go:265-278 | Removes the row exactly when it is the owner's. |
| Leases.LeaseStore.Holder | postgres/feed.go:285-303 | Reports an owner exactly when that owner's lease has not expired. |
| Leases.OnScheduleHoldsExactlyWhen | feed/server.go:310-337 | A stream whose renewals complete on schedule holds the key at every instant of a run exactly when nobody releases it under its token; no other owner can take it over. |
| Leases.LateReleaseUnfencesTheLiveStream | feed/server.go:297-305 | A replaced stream's late release drops the live stream's lease and another owner takes the key. |
| Leases.LostStaysLost | feed/server.go:310-337 | After a takeover every renewal and holder check of the old owner fails until it acquires again. |
| Leases.NormaliseIntervals | feed/server.go:127-143 | Fails only for a lifetime of one nanosecond; otherwise renewal falls due before expiry, and an interval that already did is kept. |
| Leases.TickingIsOnSchedule | feed/server.go:310-337 | A ticker that fires within the interval of the last completion, with renewals that complete within a latency, keeps renewals on schedule when the two fit into the lifetime. |
| Leases.AlwaysHeldExactlyWhen | feed/server.go:127-143 | Every run of the renewal loop without a release keeps the lease exactly when interval plus latency is below the lifetime. |
| Leases.SubMicrosecondLifetimeLapses | postgres/feed.go:213-237 | A lifetime of 1500 ns renewed every 1200 ns is accepted unchanged, keeps its lease at nanosecond precision, and lapses on Postgres, which keeps whole microseconds. |
| FeedDelivery.AtLeastOnce | feed/server.go:347-491 | In every run of streams, acks, lost leases, takeovers, same-owner zombies that go on handling and acknowledging after their end, late saves, crashes and resets, each committed matching event at or below the stored checkpoint was handled, unless an operator moved the checkpoint over it. |
| FeedDelivery.ResumeNeverClamps | feed/server.go:376-404 | Without forward resets no position in play exceeds the raw head: the resume loop never clamps, it only waits out a blocked fence. |
| FeedDelivery.StreamStartsAtTheCheckpoint | feed/server.go:376-404 | Then a stream stands exactly at the checkpoint it loaded until its first event is sent, whatever runs meanwhile. |
| FeedDelivery.AckWindowConservation | eventfeed/eventfeed.go:304-351 | Handled events are those acked, plus those in claimed windows in flight, plus those rejected, plus the current count; windows are disjoint and each acknowledges its own last event; the consumer's window and the server's page limit are independent. |
| FeedDelivery.CheckpointNeverRewinds | sqlite/feed.go:226-240 | Without an operator the checkpoint never goes back, in whatever order saves land. |
| FeedDelivery.SavedPositionStays | feed/server.go:592-602 | Once a save has landed the checkpoint never falls below it. |
| FeedDelivery.TakenOverStreamIsFenced | feed/server.go:310-337 | After a takeover an old stream's next renewal ends it and every ack checked later is rejected, until that owner subscribes again. |
| FeedDelivery.CheckedAckLandsAfterTakeover | feed/server.go:580-602 | From any state where an ack passes its check, the key can change hands before the save; the save then lands, and moves the checkpoint exactly when its window lies past it. |
| TakeoverRun.TakeoverMovesTheCheckpoint | feed/server.go:592-602 | A run from a fresh subscription after which the key is another owner's, the checkpoint is 0, and the save of the old owner, who can no longer renew, moves it to 1. |
| FeedDelivery.InvKept | feed/server.go:347-607 | Every step keeps every position in play covered: settled, and handled if it matches. |
| FeedDelivery.PageBecomesBuf | feed/server.go:428-470 | A page read inside a granted bound is the next stretch of matching rows, and it is settled. |
| FeedDelivery.DeliverCovers | eventfeed/eventfeed.go:304-324 | Handling the next buffered event covers everything up to it. |
| AckWindow.Server.Checkpoint | feed/server.go:587-607 | Accepted exactly when the owner held the key at the check, whatever the stores became since; an accepted ack saves on top of that, a rejected one leaves it and names the holder. |
| AckWindow.Attempt.Send | eventfeed/eventfeed.go:304-324 | The handler is called until it succeeds or the context ends, and only a success is accounted; a window this fills is claimed and acknowledged before Send returns, unless a tick claimed it first; the whole is a trace of the delivery protocol with this attempt's own tick, renewal and end running at every point. |
| AckWindow.Attempt.Call | eventfeed/eventfeed.go:304-317 | The retry loop: every call before the last failed, and it gives up only when the context ends with the last call failed too. |
| AckWindow.Attempt.Account | eventfeed/eventfeed.go:313-317 | A handled event is one protocol delivery, and the result says whether the window is full. |
| AckWindow.WindowWaits | eventfeed/eventfeed.go:268-292 | While Send is at work the window stays as it was, or a tick has claimed the whole of it. |
| AckWindow.WindowStays | eventfeed/eventfeed.go:326-333 | A claimed window is acknowledged once: nothing but its own check and save touches it, whichever acks race. |
| AckWindow.Attempt.Subscribe | feed/server.go:206-266 | Succeeds exactly when the key is free, this owner's or expired, and is one protocol subscription; a refusal changes nothing. |
| AckWindow.Attempt.Meanwhile | eventfeed/eventfeed.go:268-292 | Whatever others and the attempt's own loops do, stores and fields hold what the run says. |
| AckWindow.Attempt.Confirm | eventfeed/eventfeed.go:345-351 | Acknowledging a claimed window, with anything but this very acknowledgement running between check and save, stores or rejects it, exactly by who held the key at the check. |
| AckWindow.Attempt.Claim | eventfeed/eventfeed.go:334-345 | Claims the whole window and its highest position as one protocol step, or does nothing when it is empty. |
| AckWindow.Attempt.Ack | eventfeed/eventfeed.go:334-351 | An empty window succeeds and does nothing; otherwise the ack is the protocol's claim, check and save with anything else in between, other acks of the attempt among it; it succeeds exactly when the owner held the key at the check, at the highest handled position, and leaves its window stored or rejected accordingly. |
| ByteStrings.BigEndianRoundTrip | es/hash.go:111-119 | A number below 256^k is recovered from its k big-endian bytes. |
| ByteStrings.FieldsRoundTrip | es/hash.go:111-132 | Length-prefixed and fixed-width fields are read back from the front, whatever follows. |
| ByteStrings.FieldsInjective | es/hash.go:111-132 | Equal encodings of the same layout are encodings of equal fields. |
| ByteStrings.DomainsSeparate | es/hash.go:21-26 | Encodings that begin with different length-prefixed domains differ. |
| StreamIds.ParseIsInverse | es/streamid.go:50-66 | Parsing a canonical id gives a stream id exactly when that id is valid and this is its canonical form. |
| StreamIds.CanonicalInjective | es/streamid.go:50-52 | Valid stream ids with the same canonical form are the same. |
| Envelopes.DecodeEnvelopeRoundTrip | es/hash.go:49-68 | Every attested field is recovered from the canonical encoding, up to microseconds, zero time equal to the epoch, and a malformed previous hash equal to zeros. |
| Envelopes.CanonicalEnvelopeInjective | es/hash.go:49-75 | Equal encodings attest equal fields. |
| Envelopes.DomainsDisjoint | es/hash.go:21-26 | Envelope, unchained-head and anchor encodings are never equal. |
| ChainVerify.ChainChecker.constructor | es/verify.go:110-123 | A new checker has seen nothing and reports nothing. |
| ChainVerify.ChainChecker.Next | es/verify.go:127-144 | Feeding a row gives the report of the whole sequence seen so far; after a break it stays broken at the same version. |
| ChainVerify.ChainChecker.CheckOne | es/verify.go:146-200 | The checks in the source's order find the break the specification names. |
| ChainVerify.CheckDecides | es/verify.go:146-200 | A row passes exactly when it continues the chain: its stream, the next version, and a correct hash and link, or an unhashed row where one is still allowed. |
| ChainVerify.AcceptsExactlyChains | es/verify.go:127-200 | The checker accepts exactly the chains, and then reports the first chained version, the last version and the head hash. |
| ChainVerify.EqualHeadsEqualHistory | es/verify.go:127-200 | Tamper evidence: accepted histories from version 1 of equal length and equal head hash begin their chains together and agree on every attested field of every chained row, or a collision is exhibited. |
| ChainVerify.SameHashSameFields | es/hash.go:70-75 | Rows of equal hash attest equal fields, or their encodings collide. |
| PagedVerify.VerifyStreamWith | es/verify.go:69-102 | Refuses an invalid stream id; otherwise the report is the checker's on the rows the page loop reaches. |
| PagedVerify.FeedPages | es/verify.go:79-95 | The page loop feeds exactly those rows, or breaks among them. |
| PagedVerify.PagedReportIsFullExactlyWhen | es/verify.go:69-102 | The report is that of the whole stream exactly when the rows it reaches are not a chain or the last stored version lies in or before the page where the gap-free prefix ends. |
| PagedVerify.PageSizeDoesNotMatter | es/verify.go:69-102 | On contiguous versions every page size gives the full report. |
| PagedVerify.GapHiddenByPageSize | es/verify.go:90-92 | Versions 1, 2 and 5 pass with pages of 2 and break with pages of 500. |
| ChainedAppend.BuildBatch | postgres/wsstore.go:212-263 | The insert loop that rewrites `prev` builds the batch in which each event links to the one before it. |
| ChainedAppend.BatchExtends | postgres/wsstore.go:212-263 | A batch on a stream's own head keeps the stream a chain, over any unhashed prefix. |
| ChainedAppend.StreamVerifies | es/verify.go:146-200 | The checker accepts such a stream, with the first chained version k + 1 and its length as the head. |
| ChainedAppend.ChainIgnoresStoreColumns | es/hash.go:45-48 | The hash does not depend on the global position or the stored hash. |
| StreamStore.ConcurrentAppendsVerify | postgres/wsstore.go:193-263 | Every stream that any interleaving of append transactions produces, over any unhashed prefix, is accepted, chained from k + 1, with its length as the head. |
| StreamStore.CommitIsAtTheEnd | postgres/wsstore.go:192-260 | A transaction that inserted rows commits them exactly at the stream's end and linked to its head. |
| StreamStore.RecordedAtIsMonotonic | postgres/wsstore.go:202-210 | With a clock that does not go back, `recorded_at` does not decrease with the version in any interleaving, and an as-of read is a version prefix. |
| StreamStore.AsOfIsPrefix | sqlite/store.go:398-406 | On ordered rows an as-of read is the prefix of exactly the rows recorded by then. |
| StreamStore.StreamOnlyGrows | postgres/wsstore.go:151-274 | Committed rows keep their version and content. |
| Anchors.Sort | es/anchor.go:62-69 | The copy is sorted by workspace and canonical id and is a permutation of the heads. |
| Anchors.SortedIsUnique | es/anchor.go:62-69 | With distinct keys there is one sorted order, whatever algorithm produced it. |
| Anchors.AnchorRoot | es/anchor.go:61-85 | The buffer loop hashes the encoding of the sorted heads. |
| Anchors.RootIgnoresOrder | es/anchor.go:61-85 | Any permutation of heads with distinct keys has the same root. |
| Anchors.AnchorBytesInjective | es/anchor.go:70-84 | Equal anchor encodings list the same keys, versions and effective hashes. |
| Anchors.EqualRootsEqualHeads | es/anchor.go:61-85 | Equal roots mean the same keys, versions and effective hashes, or a collision is exhibited. |
| SqliteStore.Store.constructor | sqlite/store.go:102-137 | A new log is empty and well formed. |
| SqliteStore.Store.ReadHead | sqlite/store.go:325-346 | The stream's version and the link its next event must carry. |
| SqliteStore.Store.Append | sqlite/store.go:194-319 | Succeeds exactly when the id and the constraints are valid, no payload is over the cap, the stream is at the expected version, no event id is taken and every claimed value is free after the releases; then it adds the chained batch at the end and the claims, otherwise log and claims are unchanged. |
| Claims.ApplyClaims | sqlite/store.go:353-380 | Releases first, then claims: refused exactly when a claimed value is then held by anyone or claimed twice; otherwise exactly the claimed values become this stream's. |
| Claims.ForeignClaimsStay | sqlite/store.go:348-352 | What another stream holds, no append of this one takes or frees. |
| Claims.ReclaimIsFree | sqlite/store.go:348-352 | A stream may release and claim a value it holds in one append, in either order. |
| SqliteStore.AppendKeepsLog | sqlite/store.go:236-319 | Every stream of the log stays a chain and positions stay increasing. |
| SqliteStore.Store.Anchor | sqlite/anchor.go:39-64 | Records the root over every stream's head at or below the bound, 0 meaning the log head. |
| SqliteStore.Store.CheckAnchor | sqlite/anchor.go:93-104 | Passes exactly when the anchor recomputed on the present log is the given one. |
| SqliteStore.Store.ReadHeads | sqlite/anchor.go:130-156 | Accumulates exactly the rows that are their stream's last at or below the bound. |
| SqliteStore.AnchorUnchanged | sqlite/anchor.go:93-104 | Rows appended above the anchored position leave the anchor as it is. |
| SqliteStore.AnchorChecksExactlyWhen | sqlite/anchor.go:39-104 | After further appends an anchor still checks exactly when they landed above its position, or a collision is exhibited; at or below the log head that is always so. |
| AnchoredHistory.EqualRootsEqualHistory | es/anchor.go:42-85 | Two logs that verify and have the same root at a position agree, for every stream, on how many rows lie at or below it, where its chain begins and every attested field of every chained row, or a collision is exhibited. |
| AnchoredHistory.CheckedAnchorKeepsHistory | sqlite/anchor.go:93-104 | A log that verifies and still checks against an anchor over the whole earlier log holds everything that log held, stream by stream, or a collision is exhibited. |
| AnchoredHistory.HeadIsLastRow | sqlite/anchor.go:130-156 | The row the anchor takes for a stream is the last of its rows at or below the position. |
| Aggregate.FoldConcat | aggregate/runtime.go:446-473 | Folding a log is folding its first part and then the rest from there. |
| Aggregate.SeededFold | aggregate/runtime.go:419-444 | From a sound snapshot the tail fold is the full fold. |
| Aggregate.FoldEach | aggregate/runtime.go:446-473 | The decode, upcast and evolve loop computes the fold, failing exactly when an event cannot be read. |
| Aggregate.Load | aggregate/runtime.go:416-479 | A current load is the fold of the whole stream with its version; a bounded one is the fold of exactly that prefix, or beyond the stream an error with the version it does have. |
| Aggregate.LoadAsOfVersion | aggregate/runtime.go:372-382 | The fold of the first v events, the initial state for 0, an error beyond the stream; the cache plays no part. |
| Aggregate.LoadStale | aggregate/runtime.go:399-411 | Over a sound cache the state is the fold of the prefix at the reported version, the whole stream when the cache alone did not answer. |
| Commands.Serializable | aggregate/runtime.go:246-362 | In every interleaving of commands with retry, faults and crashes, each append one step, the stream is what was there followed by batches, each what Decide produced on the fold of exactly the events before it, on a state not terminal; no call wrote two, a refused or conflicting call wrote none, and no call attempts more than retries plus one times. `CommandsOnStore.HandlingIsSerializable` is the same without that one step. |
| CommandsOnStore.HandlingIsSerializable | postgres/wsstore.go:94-274 | The same for calls with retry whose appends are transactions of interleaved statements: such a run is a run of `Commands`, so one batch per call over all its attempts, decided on exactly what precedes it, within the retry budget; and the stream they write is an unbroken chain. |
| CommandsOnStore.StepRefines | postgres/wsstore.go:193-260 | Every statement of a transaction shows to no call until its commit, which is one append of `Commands`; a rollback after a failed version check or insert is its conflict. |
| CommandsOnStore.CommitAdds | postgres/wsstore.go:193-260 | A commit adds exactly what its call decided, at the version the call loaded; an append without events adds nothing. |
| CommandsOnStore.SuccessIsCommitted | aggregate/runtime.go:336-361 | A success reports committed rows: its events stand at from..to, decided on what precedes them, with their fold as its state. |
| SerialAppends.StatementsAreSerializable | postgres/wsstore.go:193-260 | The same stream of batches, in commit order, for every interleaving of the statements of the appending transactions, each begun with what Decide produced on the fold of the first expectedVersion events. |
| Commands.LoadAfterAnyHistory | aggregate/runtime.go:419-444 | After any history of late, reordered, failed and foreign-version snapshot writes, and whatever runs between reading the cache and reading the log, a load is the full fold at the version the log then has. |
| Commands.ResultStaysTrue | aggregate/runtime.go:336-361 | A success stays true of the log for ever: its events stand at from..to, decided on what precedes them, and its state is the fold up to `to`. |
| Commands.TerminalIsFinal | aggregate/runtime.go:291-293 | Nothing is appended after a terminal state. |
| Commands.DoneIsFinal | aggregate/runtime.go:246-258 | A finished call does nothing more. |
| Commands.RolledBackAppend | aggregate/runtime.go:316-353 | If the transaction of a caller-owned append rolls back after the write-through, the next load is right exactly when no snapshot of new events was written. |
| Commands.RolledBackAppendPoisonsTheCache | aggregate/runtime.go:316-353 | A faithful runtime whose empty stream then loads as state 1 at version 1. |
| Commands.InvKept | aggregate/runtime.go:279-362 | Every step keeps the cache sound, the stream serial and every call's state the fold of the prefix it names. |
| CommandLoop.Handler.HandleAt | aggregate/runtime.go:246-258 | The retry loop is a trace of the protocol's steps that ends with this outcome, within the retry budget; a success reports what is in the log, and a failure has its cause in the trace: an append of this call that faulted, or a moment at which it could not read the stream or encode an event. |
| CommandLoop.Handler.HandleOnce | aggregate/runtime.go:279-362 | One pass, cache and log read at different moments, finishes with its outcome, a failure with its cause, or lost a write race and is charged one attempt. |
| CommandLoop.Handler.AppendNow | aggregate/runtime.go:316-361 | The append, with every fault, and what the caller is told; it fails only for a fault. |
| CommandLoop.Handler.TryAppend | aggregate/runtime.go:316-335 | The append ends the pass for a fault or a lost race, and otherwise leaves the call with its events appended. |
| CommandLoop.DecideNow | aggregate/runtime.go:287-314 | The checks between load and append in the source's order, with the encode loop. |
| CommandLoop.FoldForward | aggregate/runtime.go:336-340 | Folding the appended events onto the state. |
| TimeTravel.LoadAsOfTime | aggregate/runtime.go:386-389 | On rows recorded in order the answer is that of the version reached by then; the zero time is a current load. |
| TimeTravel.AsOfTimeIsAsOfVersion | aggregate/runtime.go:436-473 | In every concurrent run the as-of-time state is the as-of-version state at the one version reached by then, and once a later row has committed no append changes it. |
| Projection.DispatchFollowsTheLog | projection/runner.go:142-169 | Under any in-order redelivery with handler failures, failed or buffered saves, reconnects and crashes, first calls are exactly the consumed events past the marker, in order, none at or below a marker missing, and repeats are at most the failed or lost saves. |
| Projection.ExactlyOnceWithoutLosses | projection/runner.go:44-76 | With no save failed or lost, dispatch is exactly once. |
| Projection.InvKept | projection/runner.go:139-169 | Every step keeps the count of repeats and of events that a crash would repeat within the saves failed, lost or unflushed. |
| ProjectionRunner.Runner.LoadMarker | projection/runner.go:124-137 | The marker is read once and does not move by being read. |
| ProjectionRunner.Runner.ApplyOne | projection/runner.go:142-169 | Skips at or below the marker, calls the handler for consumed events only, and acknowledges only a saved position. |
| ProjectionRunner.Runner.ApplyBatch | projection/runner.go:195-202 | Applies a batch up to the first envelope a port does not let through, and exactly that one, handled or not as the port that failed says. |
| ProjectionRunner.PassIsWanted | projection/runner.go:195-202 | A pass over ordered rows handles each consumed row past the marker once, in order, and leaves the marker at the furthest. |
| ProjectionRunner.Replay | projection/replay.go:28-49 | The page loop applies a prefix of the rows past `from`: all of them, returning the last position, unless it stops at a page it could not read or a row a port refused; then it returns the last position of a page applied in full. |
| ProjectionRunner.Rebuild | projection/runner.go:208-210 | Every consumed row past the marker, up to where it got, was handled once and in order; it gets through unless a read or a port fails; from a reset marker that is every consumed row. |
| ProjectionRunner.LogFeed | projection/runner.go:44-76 | The polling loop over a growing log is a run of deliveries whose next row is always the one after its position; it gets as far as its pages reach, unless every try at a row was refused when the context ended. |
| ProjectionRunner.Handle | projection/runner.go:59-66 | The retry loop makes its tries up to the first acknowledged one, or all of them, and moves past the envelope exactly in the first case. |
| ProjectionRunner.RebuildMatchesLive | projection/runner.go:89-113 | Whatever happened to a live projection, its first handler calls are what a rebuild from the same marker over the rows it reached handles. |
| BufferedMarker.BufferedMarker.constructor | projection/buffered_marker.go:47-62 | Defaults for non-positive options; nothing pending. |
| BufferedMarker.BufferedMarker.FlushPending | projection/buffered_marker.go:124-146 | In any key order, writes up to the first failure and fails exactly when a write does; no reader is told anything else than before, and every projection's port is as it was or flushed; the triggers reset exactly on success. |
| BufferedMarker.BufferedMarker.Save | projection/buffered_marker.go:87-109 | Moves only its projection, only up from what is pending; flushes exactly when due and fails exactly when that flush does; as a marker port it is one of the save outcomes of `Projection`, and at most a flush for any other projection; with saves that never go back no reader is told less than the highest saved; after nil fewer than MaxCount saves wait except exactly after a zero save with nothing pending on a full count; and none has waited MaxInterval. |
| BufferedMarker.BufferedMarker.Load | projection/buffered_marker.go:67-82 | Flushes, then returns what a reader was told before, never less than the highest saved; succeeds exactly when every write and the read do. |
| BufferedMarker.BufferedMarker.Flush | projection/buffered_marker.go:113-117 | Succeeds exactly when every write does, and then everything pending is persisted. |
| BufferedMarker.SaveRewindsExactlyWhen | projection/buffered_marker.go:29-35 | A save takes a reader back exactly when nothing is pending for the projection and the inner marker is already past it. |
| BufferedMarker.RewindAfterFlush | projection/buffered_marker.go:87-109 | On an untouched marker, 10 saved and flushed, then 5 saved: the highest saved is 10 and the next load returns 5. |
| BufferedMarker.ZeroSaveOverAFullWindow | projection/buffered_marker.go:91-99 | On an untouched marker with MaxCount 1 and a failed write, a zero save for another projection returns nil with one save waiting. |
| BufferedMarker.FurthestCoversHighest | projection/buffered_marker.go:29-35 | With saves that never go back, the larger of persisted and pending is never below the highest saved. |
| BufferedProjection.Worker.constructor | projection/runner.go:89-113 | A process starts over what its marker has persisted, with nothing handled. |
| BufferedProjection.Worker.LoadMarker | projection/runner.go:124-137 | Loading reads the marker once per process, and the flush it causes moves nothing of this projection. |
| BufferedProjection.Worker.Deliver | projection/runner.go:142-159 | Applying the next event over the batching marker is one delivery of the dispatch protocol, with whatever the marker made of the save; without a loaded marker it is none. |
| BufferedProjection.Worker.Advance | projection/runner.go:161-169 | A handled event is acknowledged exactly when the batching save succeeds, and what a failed one left behind is a save outcome too. |
| BufferedProjection.Worker.OtherSaves | projection/buffered_marker.go:87-109 | A save of another projection of the process is at most a flush for this one. |
| BufferedProjection.Worker.Flush | projection/buffered_marker.go:113-117 | A flush is at most a flush step; after a successful one nothing is left to lose. |
| BufferedProjection.Worker.Restart | projection/runner.go:124-137 | A crash keeps exactly what the inner marker has, and loses the buffered saves. |
| BufferedProjection.Worker.HandleUnsaved | projection/runner.go:155-159 | A handler call whose save the process does not reach is a delivery with its save lost. |
| BufferedProjection.Worker.HandlerFollowsTheLog | projection/buffered_marker.go:22-35 | After any of these, in any order, the handler was called with every consumed event past the first marker in log order as far as the run got, and once more at most per failed or lost save. |

## Hypotheses

- The Postgres sequence hands out one increasing value at a time, and a crash is an abort.
- The log is append-only and never restored; a subscription key has one definition.
- `Aggregate.Faithful`: codecs round-trip and the upcaster leaves events of the current schema alone.
- In `Commands` the append is one step; `CommandsOnStore` opens it up into the statements of a transaction.
  An append that carries events commits exactly when the stream still ends where the call loaded it. One
  of constraints alone inserts no version row, so it may also commit after the stream has moved on.
- `FeedDelivery` takes the server's bounds from the fence of `HorizonFence`, with one matching scope.

## Left out

- Uniqueness claims on Postgres and `LookupClaim`: `Claims` is the SQLite form; in `Commands` a violated claim is one way an append is not written.
- `AppendTx` with several appends in one caller transaction: each append is its own transaction here.
- `WithChainVerification` on load: it is the checker of `ChainVerify` run beside the fold.
- Definition drift, `Catalog`, `Status`, `MatchingHead`, dead letters, `Observer`, stall probes, jitter and backoff: they report or wait and decide nothing about what is delivered.
- `Skip` and forward resets: recorded as ranges an operator moved over, which `AtLeastOnce` excepts.
- Poll timers of `LogFeed` and of the feed server: a round reads whatever rows are there by then.
- ProjectionRunner.LogFeed: ends after a number of rounds, or at an envelope the context gave up on; the source's loop ends with its context.
- Errors of store reads and of statements beside the fence: a stream or a verification just ends. The server's own payload backstop ends a stream in the same way.
- AckWindow.Server.Checkpoint: does not model key validation and store errors; in `FeedDelivery` a checked ack may never be saved.
- 64-bit overflow of positions and of `from + page`: positions are unbounded here.
- Decision-time skew, audit defaults, uuid generation and clocks: parameters or one-branch facts.
- Row-level security, migrations, pools, roles, SQL text and drivers: one workspace, statements as steps.
- Code generation, `cmdsvc`, `delivery.Poller`, the relay: transport and text generation over libraries.
- SqliteStore.Store.Anchor: does not model the Postgres anchor, which is not fenced.
- ProjectionRunner.Replay: the source does not grow while it is replayed.
