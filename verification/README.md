# pulsar-lite: verified models of storage and delivery

pulsar-lite is a small Apache Pulsar broker. A topic's log is a list of ledgers that roll over when
full; a subscription's cursor is a frontier plus ranges of individually acknowledged messages; the
dispatchers move messages between the unread tail, a redelivery queue and the consumers that hold
them. This project models that logic in Dafny and proves what it keeps over whole runs.

## How it is laid out

| files | what they model |
|---|---|
| `Positions.dfy`, `RangeSet.dfy`, `LedgerLog.dfy`, `ManagedCursor.dfy`, `CursorRuns.dfy`, `CursorSeeks.dfy`, `FlatCursors.dfy`, `Backlog.dfy`, `CursorCodec.dfy`, `CursorRecords.dfy` | the coalesced range set, positions over rolled ledgers, the segmented and the flat cursor, seeks to arbitrary positions, backlog and persistence |
| `ManagedLedger.dfy`, `LedgerRolls.dfy`, `ConcurrentReads.dfy`, `ReadPositions.dfy` | batched appends, rollover, reopening, readers beside a writer, read positions as log indices |
| `RoundRobin.dfy`, `SharedDispatch.dfy`, `SharedRuns.dfy`, `SharedHistory.dfy`, `SharedReads.dfy`, `SharedProgress.dfy`, `SharedPasses.dfy`, `SharedSteps.dfy`, `SharedWitness.dfy`, `SharedDispatcher.dfy` | Shared delivery: selection, step functions and invariants, whole runs, redelivery counts and reading, when a pass sends, how far it gets and why it stops, what every other step changes, runs that leave a debt, the dispatcher object |
| `Redelivery.dfy`, `AutoSplit.dfy`, `KeyShared.dfy`, `KeySharedRuns.dfy`, `KeyHistory.dfy`, `KeyOrder.dfy`, `KeyRunOrder.dfy`, `KeyProgress.dfy`, `KeyBudget.dfy`, `KeyPasses.dfy`, `KeySteps.dfy`, `KeyAffinity.dfy`, `KeyMembership.dfy`, `KeyWitness.dfy`, `KeySharedDispatcher.dfy` | Key_Shared delivery in ordered mode: the redelivery controller, hash ranges, invariants, runs, redelivery counts and permits, key order within an iteration and over runs, what is found for redelivery, the budget, how far a pass gets, what every other step changes, key affinity and what joins and leaves do to it, runs that reach the states under Findings, the dispatcher object |
| `Bytes.dfy`, `EntryLog.dfy`, `EntryLogRuns.dfy`, `EntryLogFiles.dfy`, `EntryLogChecks.dfy`, `FrameCodec.dfy` | the entry log record format, whole runs, which file a batch goes to, what reading accepts and the checksum catches, the Pulsar frame codec |
| `WriteQueue.dfy`, `WriteReplies.dfy` | batching, grouping and answering of publish requests, and what is stored of them |
| `Arithmetic.dfy`, `Base.dfy` | quotients and remainders, optional values, results, integer limits, an induction over runs |

Code that updates objects in place is a class or a loop whose contract equates the new state with a
step function; the properties are then proved of the step functions. `dafny verify dfyconfig.toml`
verifies all of it.

## Modelling decisions

- Positions are compared as (ledger, entry); cursor positions drop the partition, as the source does.
  A read that starts with a larger partition than the last confirmed entry's does not return that
  entry; the read theorem says so through the end of its slice.
- The broker modules name a message by its index in the log. `ReadPositions.AfterReadingStands`,
  `ReadPositions.ReadOne` and `CursorRuns.RunRepresents` are what that rests on: a read position
  stands for the same index however the log grows, and a cursor is a set of acknowledged messages. A
  topic's entries share one partition, so a dispatcher sees the last confirmed entry too.
- A dispatch pass, an ack, a nack, a disconnect and a seek are each one step; storage calls in them
  succeed. Whether a connection takes a message is an input of every send, so failed sends are
  covered. Because selection returns only consumers with permits and a pass is one step, the branch
  for a consumer whose permits ran out between selection and sending does not occur.
- A seek drains the pending acks of all consumers in the source; the model lets it leave any of them
  in place, which covers that case and more. Key order over runs and progress of a pass need the
  draining and say so.
- In the broker modules a seek names an index of the log and one past the end is taken as the end, so
  messages published later are unread there. On the cursor itself a seek beyond the append point
  acknowledges them in advance; the cursor modules say when (`CursorSeeks.SeekSparesFuture`).
- A log grows at its end only: the last ledger fills up and ledgers of larger ids follow
  (`ManagedLedgers.StepAppends`).
- Ledger ids come from one increasing counter shared by all topics. Ids, offsets and permit sums are
  unbounded integers except where a width matters: the range set's successor, cursor encoding, record
  and frame fields, the hash split and the Key_Shared budget.
- A serialized protobuf command and the metadata of a message are byte strings; the sticky key hash is
  stored with the log entry.

## Findings

- `insert_range` breaks its own canonical form when the start lies inside a range that begins earlier;
  `take_covering` can take an unrelated range below the position. Neither happens on the paths the
  cursor uses (`RangeSets.InsertRangeExact`, `RangeSets.TakeCoveringExact`).
- After a seek into an unknown ledger the first-unacknowledged scan can report that nothing is left
  (`ManagedCursors.SeekFirstUnackedCondition`, `ManagedCursors.SeekMissesUnacked`).
- A seek takes any ids a client sends. Past the append point it acknowledges messages before they are
  published (`CursorSeeks.SeekSparesFuture`, `CursorSeeks.SeekPastEnd`, `CursorSeeks.SeekLatest`). Past
  entry zero of an unknown ledger it leaves a frontier that no ack moves (`CursorSeeks.SeekKeepsFrontier`,
  `CursorSeeks.SeekUnknownLedger`). With ids of 2^63 or more, as in the "earliest" id, which is translated
  on subscribe but not on seek, it leaves a record no later operation can decode, another seek included
  (`CursorRecords.StoredRunExact`, `CursorRecords.SeekEarliest`).
- A consumer of negative priority is invisible while the round-robin index stands at level 0
  (`RoundRobin.PickExact`, `RoundRobin.HiddenConsumer`).
- In ordered Key_Shared mode a redelivered message that is handed back, or whose consumer disconnects,
  stays counted as in flight. Its hash is then never served again until a seek
  (`KeyOrder.NackSticks`, `KeyOrder.LeaveSticks`, `KeyOrder.StuckUntilSeek`, `KeyWitness.StuckForGood`);
  a message handed back is deliverable again exactly when nothing of its hash is in flight and its owner
  can take it (`KeyProgress.NackDeliverable`, `KeyProgress.LeaveDeliverable`), and is then handed out
  itself once no earlier queued message is deliverable (`KeyProgress.OwnerIsServed`).
- A join or a disconnect recomputes all ranges, so the hash of a message somebody still holds can move,
  also between two consumers that stay connected; two consumers can then hold messages of one key
  (`KeyMembership.JoinHeldExact`, `KeyMembership.LeaveHeldExact`, `KeyMembership.TogetherExact`,
  `KeyWitness.OneHashOnTwoConsumers`). Without joins and leaves they cannot
  (`KeyAffinity.KeysStayTogether`).
- One Key_Shared iteration can spend two units of a budget of one. With overflow checks, as in a debug
  build, the subtraction panics; without them, as in a release build, the counter wraps and the pass
  sends beyond its budget (`KeySharedDispatchers.BudgetWraps`, `KeyBudget.PassKeepsBudget`,
  `KeyWitness.BudgetExceeded`). It still ends (`KeyShared.IterateReads`).
- The checksum of an entry log record is a byte sum. It catches every single changed body byte and misses
  any damage that keeps the sum (`EntryLogChecks.DamageExact`, `EntryLogChecks.ChangedByteIsRefused`,
  `EntryLogChecks.SwappedBytesPass`).
- The aggregate permit count keeps the negative balance of a consumer that left owing
  (`SharedRuns.SharedDeliveryIsSafe`, `SharedWitness.DebtStays`). Until later consumers have granted more
  than was owed, no pass sends anything although they have permits (`SharedWitness.DebtStarves`).

## Model

| member | source | states |
|---|---|---|
| `RangeSets.InsertRangeExact` | rust/storage/managed-ledger/src/range_set.rs:107-150 | `insert_range` covers exactly the old positions plus the new range, keeps ranges within one ledger, and keeps them sorted, disjoint and non-adjacent if and only if the start does not lie inside a range that begins earlier |
| `RangeSets.InsertRangeOverlap` | rust/storage/managed-ledger/src/range_set.rs:137-147 | a canonical set and a range whose insertion breaks canonicity: only an exactly adjacent left neighbour is merged |
| `RangeSets.ContainsExact` | rust/storage/managed-ledger/src/range_set.rs:89-103 | `contains` is membership in the union of the ranges |
| `RangeSets.InsertExact` | rust/storage/managed-ledger/src/range_set.rs:153-158 | `insert` adds exactly one position, keeps the set canonical, and never makes a range span two ledgers |
| `RangeSets.TakeCoveringExact` | rust/storage/managed-ledger/src/range_set.rs:163-189 | `take_covering` removes the maximal run at a position, or nothing when the position is not covered, if and only if no range lies wholly below it or one of the two probes lands on the covering range |
| `RangeSets.TakeCoveringMiss` | rust/storage/managed-ledger/src/range_set.rs:163-189 | a canonical set from which an unrelated range below the position is taken |
| `RangeSets.CanonicalUnique` | rust/storage/managed-ledger/src/range_set.rs:5-16 | two canonical range lists with the same members are the same list |
| `RangeSets.RangeSet.Has` | rust/storage/managed-ledger/src/range_set.rs:89-103 | the two-probe lookup returns the specified answer |
| `RangeSets.RangeSet.InsertRange` | rust/storage/managed-ledger/src/range_set.rs:107-150 | the in-place merge loop terminates in the specified list |
| `RangeSets.RangeSet.Insert` | rust/storage/managed-ledger/src/range_set.rs:153-158 | in-place insertion equals the specified insertion |
| `RangeSets.RangeSet.TakeCovering` | rust/storage/managed-ledger/src/range_set.rs:163-189 | in-place removal takes the specified range and returns its end |
| `LedgerLog.LogAscending` | rust/storage/managed-ledger-rocksdb/src/cursor.rs:98-137 | the ledgers of a topic read one after another list their positions in strictly ascending order |
| `LedgerLog.NextIsLeast` | rust/storage/managed-ledger-rocksdb/src/cursor.rs:112-137 | for a known ledger `next_position` is the least stored position after the given one, across empty ledgers and ledger boundaries, or none when nothing follows |
| `LedgerLog.NextUnknown` | rust/storage/managed-ledger-rocksdb/src/cursor.rs:112-137 | for an unknown ledger `next_position` is none |
| `LedgerLog.FirstIsLeast` | rust/storage/managed-ledger-rocksdb/src/cursor.rs:98-110 | `first_position` is the least stored position, or none in an empty topic |
| `LedgerLog.PreviousCuts` | rust/storage/managed-ledger-rocksdb/src/ledger.rs:332-354 | `previous_position` separates the stored positions before the given one from the rest, stored or not |
| `LedgerLog.NextPreviousInverse` | rust/storage/managed-ledger-rocksdb/src/ledger.rs:332-354 | next and previous positions undo each other on stored positions |
| `ManagedCursors.IsAcknowledgedExact` | rust/storage/managed-ledger-rocksdb/src/cursor.rs:85-96 | the acknowledged check is membership at or below the frontier or in the holes |
| `ManagedCursors.AckExact` | rust/storage/managed-ledger-rocksdb/src/cursor.rs:139-178 | a shared ack adds exactly that message to the acknowledged set, wherever a seek has put the frontier, keeps the frontier fully advanced, never moves it back and moves it to stored messages only |
| `ManagedCursors.AdvanceExact` | rust/storage/managed-ledger-rocksdb/src/cursor.rs:161-176 | the advance loop absorbs exactly the runs of acknowledged messages after the frontier and changes no message |
| `ManagedCursors.FrontierIsLongestPrefix` | rust/storage/managed-ledger-rocksdb/src/cursor.rs:139-178 | a message is at or below a frontier in a known ledger if and only if it and all earlier messages are acknowledged |
| `ManagedCursors.HolesAreTheRest` | rust/storage/managed-ledger-rocksdb/src/cursor.rs:139-178 | the holes are exactly the acknowledged messages above the frontier |
| `ManagedCursors.StateUnique` | rust/storage/managed-ledger-rocksdb/src/cursor.rs:139-178 | two cursors with the same acknowledged set have the same frontier and the same ranges |
| `ManagedCursors.GrowthKeepsCursor` | rust/storage/managed-ledger-rocksdb/src/ledger.rs:236-330 | appends and rollovers keep a cursor whose frontier is stored valid and acknowledge nothing |
| `ManagedCursors.AppendKeepsTidy` | rust/storage/managed-ledger-rocksdb/src/ledger.rs:236-330 | appends and rollovers keep the ranges of every cursor above a fully advanced frontier, wherever a seek has put it |
| `CursorSeeks.AppendSparesExact` | rust/storage/managed-ledger-rocksdb/src/ledger.rs:236-330 | for every cursor, appends acknowledge nothing if and only if the frontier is before the position the next message gets |
| `ManagedCursors.SeekExact` | rust/storage/managed-ledger-rocksdb/src/store.rs:265-280 | after a seek to any position, exactly the messages before it are acknowledged |
| `ManagedCursors.SeekInv` | rust/storage/managed-ledger-rocksdb/src/store.rs:265-280 | a seek to a stored position leaves a stored frontier or none |
| `ManagedCursors.SeekInvExact` | rust/storage/managed-ledger-rocksdb/src/ledger.rs:332-354 | a seek to any position leaves a stored frontier or none if and only if the target starts a ledger or follows a stored entry of its own |
| `ManagedCursors.SeekLater` | rust/storage/managed-ledger-rocksdb/src/store.rs:265-280 | in every later log a message counts as acknowledged by the seek if and only if it lies before the target and the target is past entry zero or the message was already stored |
| `CursorSeeks.SeekSparesFuture` | rust/src/broker/handler/consumer_handler.rs:440-458 | no message published after a seek counts as acknowledged if and only if the target is at entry zero or not beyond the position the next message gets |
| `CursorSeeks.SeekPastEnd` | rust/src/broker/handler/consumer_handler.rs:440-458 | a seek to entry 5 of a ledger with one entry acknowledges the third entry before it is published |
| `CursorSeeks.SeekLatest` | rust/storage/managed-ledger-rocksdb/src/store.rs:265-280 | a seek to the id clients use for "latest" acknowledges every message of a smaller ledger, stored or not |
| `CursorSeeks.SeekKeepsFrontier` | rust/storage/managed-ledger-rocksdb/src/cursor.rs:139-178 | over every run of appends and acks after a seek the frontier is the longest acknowledged prefix, if and only if the target is at entry zero or in a known ledger |
| `CursorSeeks.SeekUnknownLedger` | rust/storage/managed-ledger-rocksdb/src/cursor.rs:112-178 | a seek into an unknown ledger after which acknowledging the first message leaves the frontier before it |
| `CursorSeeks.UnknownStays` | rust/storage/managed-ledger-rocksdb/src/cursor.rs:112-178 | with the frontier in an unknown ledger no ack moves it |
| `ManagedCursors.FirstUnacked` | rust/storage/managed-ledger-rocksdb/src/store.rs:282-314 | the scan terminates and returns the least stored unacknowledged position up to the last confirmed one |
| `ManagedCursors.SeekFirstUnacked` | rust/storage/managed-ledger-rocksdb/src/store.rs:282-314 | after a seek to a stored position the first unacknowledged position is that position |
| `ManagedCursors.SeekFirstUnackedCondition` | rust/storage/managed-ledger-rocksdb/src/store.rs:265-314 | after a seek to an arbitrary position the scan misses no unacknowledged message if and only if the position is at entry zero, in a known ledger, or beyond everything confirmed |
| `ManagedCursors.SeekMissesUnacked` | rust/storage/managed-ledger-rocksdb/src/store.rs:265-314 | a seek target for which the scan reports nothing although a confirmed message is unacknowledged |
| `ManagedCursors.ManagedCursor.Reset` | rust/storage/managed-ledger-rocksdb/src/cursor.rs:78-82 | reset sets the frontier and drops the holes |
| `ManagedCursors.ManagedCursor.Acknowledge` | rust/storage/managed-ledger-rocksdb/src/cursor.rs:139-178 | the in-place shared ack equals the specified one |
| `CursorRuns.RunRepresents` | rust/storage/managed-ledger-rocksdb/src/cursor.rs:139-178 | over any run of appends, shared acks and seeks whose targets start a ledger or follow a stored entry, the cursor represents exactly the set of stored messages acknowledged by that run |
| `CursorRuns.RunFollows` | rust/storage/managed-ledger-rocksdb/src/cursor.rs:139-178 | over any run of appends, shared acks and seeks to arbitrary positions the cursor answers, for every stored message and every one still to come, exactly as the run means: a seek past entry zero acknowledges everything before it for good |
| `CursorRuns.RepresentsExact` | rust/storage/managed-ledger-rocksdb/src/store.rs:265-280 | throughout a run the cursor represents the set of stored messages acknowledged so far if and only if every seek target starts a ledger or follows an entry stored when it is named |
| `CursorRuns.RunsConverge` | rust/storage/managed-ledger-rocksdb/src/cursor.rs:139-178 | any two such runs with the same log and the same acknowledged set end in the same cursor |
| `CursorRuns.AckOrderIrrelevant` | rust/storage/managed-ledger-rocksdb/src/cursor.rs:139-178 | two sequences of acks that name the same messages, in any order and any number of times each, end in the same frontier and ranges |
| `CursorRuns.FrontierMonotone` | rust/storage/managed-ledger-rocksdb/src/cursor.rs:139-178 | between seeks the frontier never moves back, wherever the last seek has put it |
| `FlatCursors.FlatAckSimulates` | rust/storage/managed-ledger/src/cursor.rs:64-91 | a flat `ack_shared` is a segmented ack on a log of one large ledger |
| `FlatCursors.CursorsAgree` | rust/storage/managed-ledger/src/cursor.rs:38-91 | started empty and given the same acks interleaved with appends, the flat and the segmented cursor answer alike for every message |
| `FlatCursors.FrontiersAgree` | rust/storage/managed-ledger/src/cursor.rs:54-91 | their frontiers name the same message |
| `FlatCursors.SubscriptionCursor.AdvanceMark` | rust/storage/managed-ledger/src/cursor.rs:54-62 | the in-place advance loop terminates in the specified state |
| `FlatCursors.SubscriptionCursor.Acknowledge` | rust/storage/managed-ledger/src/cursor.rs:64-91 | the in-place flat ack equals the specified one and returns the frontier and the number of ranges |
| `Backlogs.BacklogExact` | rust/storage/managed-ledger-rocksdb/src/store.rs:478-507 | with a frontier the report is the true count less the part of the frontier beyond its ledger, never below zero; without one it is the true count plus the acknowledged messages |
| `Backlogs.BacklogOfCursor` | rust/storage/managed-ledger-rocksdb/src/store.rs:478-507 | for every cursor reached by shared acks and seeks to stored positions the report is exact when a frontier is set, and otherwise too large by exactly the number of individually acknowledged messages |
| `CursorCodec.DecodeCursor` | rust/storage/managed-ledger-rocksdb/src/metadata.rs:80-118 | the decoding loop returns the specified state or the first error |
| `CursorCodec.CursorRoundTrip` | rust/storage/managed-ledger-rocksdb/src/metadata.rs:60-118 | decoding an encoded canonical cursor gives it back if all ids are below 2^63 and fails with a negative id otherwise |
| `CursorCodec.EncodedFields` | rust/storage/managed-ledger-rocksdb/src/metadata.rs:60-78 | below 2^63 the record names the ledger and entry of the frontier and of both ends of every range |
| `CursorRecords.ReachableCursorPersists` | rust/storage/managed-ledger-rocksdb/src/metadata.rs:80-118 | a cursor with a stored frontier decodes to itself; no such cursor triggers the multiple-ledger error |
| `CursorRecords.SeekPersists` | rust/storage/managed-ledger-rocksdb/src/metadata.rs:60-118 | after a seek the record decodes to the cursor if and only if the target is at entry zero or its ids are below 2^63, and is a negative-id error otherwise |
| `CursorRecords.StoredRunExact` | rust/storage/managed-ledger-rocksdb/src/cursor.rs:28-54 | throughout any run, with every operation decoding the record and encoding the result, the record is the cursor and gives it back, if and only if every seek target past entry zero has ids below 2^63 |
| `CursorRecords.UndecodableForGood` | rust/storage/managed-ledger-rocksdb/src/cursor.rs:28-42 | a record that cannot be decoded is changed by no later ack and no later seek |
| `CursorRecords.SeekEarliest` | rust/src/broker/handler/consumer_handler.rs:440-458 | a seek to the id clients use for "earliest" leaves such a record |
| `ManagedLedgers.AssignExact` | rust/storage/managed-ledger-rocksdb/src/ledger.rs:236-330 | assigning a batch extends the log by exactly the returned positions, rolling ledgers over as they fill, and leaves room in the last ledger |
| `ManagedLedgers.AppendExact` | rust/storage/managed-ledger-rocksdb/src/ledger.rs:236-330 | a successful batch appends exactly its messages to the flat log at the returned positions and keeps counters, published metadata and last confirmed position in step |
| `LedgerRolls.AppendPlaces` | rust/storage/managed-ledger-rocksdb/src/ledger.rs:236-330 | with e entries in the active ledger the k-th message of a batch goes to entry (e + k) mod max of the ledger (e + k) / max rollovers later, each under the next id |
| `LedgerRolls.NeededExact` | rust/storage/managed-ledger-rocksdb/src/ledger.rs:236-330 | a batch of n messages allocates (e + n) / max ledger ids |
| `LedgerRolls.FailedIds` | rust/storage/managed-ledger-rocksdb/src/ledger.rs:236-330 | a failed batch has used up exactly the ids allocated before it failed, at most those it needed |
| `LedgerRolls.OpenPlaces` | rust/storage/managed-ledger-rocksdb/src/ledger.rs:60-99 | opening starts a ledger under the next id if and only if there is none or the last one holds max entries or more |
| `LedgerRolls.AssignBytes` | rust/storage/managed-ledger-rocksdb/src/ledger.rs:236-330 | the ledger sizes grow by exactly the metadata and payload bytes of the batch |
| `ManagedLedgers.AppendFailedExact` | rust/storage/managed-ledger-rocksdb/src/ledger.rs:236-330 | a failed batch, whether a ledger id could not be allocated midway or a write failed, changes nothing but the id allocator, by at most the ids the batch needed |
| `ManagedLedgers.OpenExact` | rust/storage/managed-ledger-rocksdb/src/ledger.rs:60-124 | opening rebuilds log, counters and last confirmed position from what the database holds |
| `ManagedLedgers.ReopenKeepsEverything` | rust/storage/managed-ledger-rocksdb/src/ledger.rs:60-124 | reopening with any ledger size yields the same entries, log and last confirmed position |
| `ManagedLedgers.StepAppends` | rust/storage/managed-ledger-rocksdb/src/ledger.rs:236-330 | every batch, failure, reopening and foreign id allocation leaves all ledgers but the last as they were and adds ledgers of larger ids behind it |
| `ManagedLedgers.LedgerRefinesFlatLog` | rust/storage/managed-ledger-rocksdb/src/ledger.rs:236-330 | over any run of batches, failures, reopenings and foreign id allocations the positions ever returned are the log, strictly increase, and hold exactly the messages of the batches that succeeded |
| `ManagedLedgers.ManagedLedger.RollWhenFull` | rust/storage/managed-ledger-rocksdb/src/metadata.rs:166-174 | a full ledger is rolled over under a freshly allocated id, or fails when none can be had |
| `ManagedLedgers.ManagedLedger.AssignBatch` | rust/storage/managed-ledger-rocksdb/src/ledger.rs:236-330 | the assignment loop equals the specified assignment, and stops having taken exactly the ids that could be allocated when the batch needs more |
| `ManagedLedgers.ManagedLedger.AddEntries` | rust/storage/managed-ledger-rocksdb/src/ledger.rs:236-330 | the in-place append equals the specified success or failure |
| `ManagedLedgers.ManagedLedger.constructor` | rust/storage/managed-ledger-rocksdb/src/ledger.rs:60-99 | construction equals the specified opening |
| `ConcurrentReads.StepKeepsInv` | rust/storage/managed-ledger-rocksdb/src/ledger.rs:159-330 | every interleaved writer or reader step keeps the published log a prefix of the committed one, and keeps what the reader has taken exact |
| `ConcurrentReads.ReaderStable` | rust/storage/managed-ledger-rocksdb/src/ledger.rs:315-327 | what a reader has learned stays true while the writer commits and publishes |
| `ConcurrentReads.SlicePrefix` | rust/storage/managed-ledger-rocksdb/src/ledger.rs:159-198 | entries committed after the last confirmed one do not change what the reader is owed |
| `ConcurrentReads.ReadReturnsLogSlice` | rust/storage/managed-ledger-rocksdb/src/ledger.rs:159-330 | for every interleaving with appends, a finished read from a known ledger returned exactly the committed messages from its start to the position that was the last confirmed one when the read began, in order and up to the limit; from an unknown ledger it returned nothing |
| `ConcurrentReads.ReadEntries` | rust/storage/managed-ledger-rocksdb/src/ledger.rs:159-198 | the reading loop terminates and returns that slice |
| `ReadPositions.AfterReadingStands` | rust/src/broker/dispatcher/read_position.rs:14-89 | the position stored after reading entry k stands for entry k + 1, now and after any growth or rollover |
| `ReadPositions.StandsForStable` | rust/src/broker/dispatcher/read_position.rs:22-82 | growth does not change which entry a read position stands for, if and only if that entry was already stored or the entry stored there now does not lie before the position |
| `ReadPositions.ReadOne` | rust/src/broker/dispatcher/read_position.rs:46-65 | reading one entry at a position that stands for k yields entry k, and nothing at the end of the log; the last confirmed entry is not seen by a start with a larger partition |
| `RoundRobin.FindHigher` | rust/src/broker/dispatcher/shared.rs:93-108 | the scan finds the first available consumer of a strictly better priority |
| `RoundRobin.FindSameOrLower` | rust/src/broker/dispatcher/shared.rs:110-151 | the circular scan of one priority terminates, and it and the linear scan after it find the specified consumer |
| `RoundRobin.Choose` | rust/src/broker/dispatcher/shared.rs:196-234 | the two scans together make the specified choice |
| `RoundRobin.PickExact` | rust/src/broker/dispatcher/shared.rs:196-234 | a consumer is found exactly when one has permits, and is of the best priority among those, if and only if the search does not start at a level-0 consumer while one of negative level has permits |
| `RoundRobin.HiddenConsumer` | rust/src/broker/dispatcher/shared.rs:205-217 | a connected consumer with permits that selection does not find |
| `RoundRobin.NonNegativeNeverHidden` | rust/src/broker/dispatcher/shared.rs:196-234 | with no negative priority, wherever the index stands, selection finds a consumer if and only if one has permits, and then one of the best priority |
| `RoundRobin.PickAdvances` | rust/src/broker/dispatcher/shared.rs:196-234 | after choosing a best consumer, selection moves to the next best one in circular order |
| `RoundRobin.PicksAreFair` | rust/src/broker/dispatcher/shared.rs:196-234 | as many consecutive picks as there are best consumers choose each of them exactly once, while they keep permits |
| `RoundRobin.InsertedExact` | rust/src/broker/dispatcher/shared.rs:153-164 | a joining consumer stands behind everyone of its priority and before every lower one; the order stays sorted |
| `RoundRobin.RemovedExact` | rust/src/broker/dispatcher/shared.rs:166-182 | leaving keeps the order and whose turn it is; the turn of a leaver passes to the next in line |
| `SharedDispatch.SkipAcked` | rust/src/broker/dispatcher/read_position.rs:22-82 | reading moves past acknowledged messages to the first unacknowledged one |
| `SharedDispatch.SkipBusy` | rust/src/broker/dispatcher/shared.rs:547-568 | reading moves past acknowledged and pending messages to the first free one |
| `SharedDispatch.RedeliverKeepsInv` | rust/src/broker/dispatcher/shared.rs:305-375 | redelivering, or failing to, keeps one owner per message and loses none |
| `SharedDispatch.SendFreshKeepsInv` | rust/src/broker/dispatcher/shared.rs:377-435 | sending an unread message, or failing to, keeps one owner per message and loses none |
| `SharedDispatch.AckedKeepsInv` | rust/src/broker/dispatcher/shared.rs:492-534 | acknowledging and letting the read position catch up loses nothing |
| `SharedDispatch.NackedKeepsInv` | rust/src/broker/service/topic/subscription.rs:524-609 | handing back pending messages keeps one owner per message and loses none |
| `SharedDispatch.LeftKeepsInv` | rust/src/broker/dispatcher/shared.rs:570-598 | disconnecting with recovery keeps one owner per message and loses none |
| `SharedDispatch.SoughtKeepsInv` | rust/src/broker/service/topic/subscription.rs:359-395 | a seek keeps one owner per message and loses none, whichever consumers keep their pending acks |
| `SharedRuns.LeftKeepsOrder` | rust/src/broker/dispatcher/shared.rs:570-598 | disconnecting removes the consumer from the order and its balance from the aggregate, leaving only what it owes |
| `SharedRuns.JoinedKeepsOrder` | rust/src/broker/dispatcher/shared.rs:637-648 | joining keeps the order complete and sorted and the aggregate balanced |
| `SharedRuns.IterateSends` | rust/src/broker/dispatcher/shared.rs:277-435 | an iteration that counts hands exactly one message to the consumer selection picked, which had permits and room: the lowest queued message, or with an empty queue the next unread free one; consumer and aggregate pay its message count |
| `SharedRuns.PassDelivers` | rust/src/broker/dispatcher/shared.rs:244-452 | one pass hands out exactly as many distinct, unacknowledged, formerly unowned messages as it counts, at most 20 and at most the permits, and charges exactly their cost; `SharedPasses.EveryPassFills` says how many at least |
| `SharedPasses.PassFills` | rust/src/broker/dispatcher/shared.rs:244-452 | a pass hands out, or drops as acknowledged, one message for each permit there is in all, up to 20, unless the connection refused the message after those, selection found nobody, the consumer selected had 50,000 messages pending, or every stored message is acknowledged or pending |
| `SharedPasses.EveryPassFills` | rust/src/broker/dispatcher/shared.rs:244-452 | this holds in every state reachable by any run |
| `SharedPasses.CleanPassFills` | rust/src/broker/dispatcher/shared.rs:244-452 | in every state reached with draining seeks nothing is dropped: the count is min(permits, 20) or the pass stopped for one of those reasons |
| `SharedSteps.IterateTurns` | rust/src/broker/dispatcher/shared.rs:196-234 | every iteration that selects a consumer moves the turn on to the one after, whatever becomes of the message |
| `SharedProgress.EveryPassProgress` | rust/src/broker/dispatcher/shared.rs:244-452 | in every state reached with draining seeks, a pass hands out a message if and only if the aggregate is positive, selection finds a consumer with permits and room, a message is queued or unread, and the first send succeeds |
| `SharedProgress.RunClean` | rust/src/broker/dispatcher/shared.rs:492-598 | over those runs nothing queued or pending is acknowledged |
| `SharedRuns.SharedDeliveryIsSafe` | rust/src/broker/dispatcher/shared.rs:244-598 | in every state reachable by publishing, joining, flow, dispatch with any failed sends, acks, nacks, disconnects and seeks: every stored unacknowledged message is unread, pending or queued; none is pending twice or both pending and queued; and the aggregate permits are the connected balances plus the debts of departed consumers |
| `SharedWitness.DebtStays` | rust/src/broker/dispatcher/shared.rs:570-598 | a run after which nobody is connected and the aggregate permits are negative: a consumer spent one permit on an entry of several messages and left |
| `SharedWitness.DebtStarves` | rust/src/broker/dispatcher/shared.rs:251-255 | runs that go on from there: a consumer joins and grants fewer permits than are owed, a message is queued for it, and no pass sends anything |
| `SharedHistory.CountsAreAttempts` | rust/src/broker/dispatcher/shared.rs:305-435 | in every reachable state the redelivery count of a queued or pending message is the number of earlier attempts to deliver it since it was last read from the log |
| `SharedHistory.ReadingMovesForward` | rust/src/broker/dispatcher/read_position.rs:22-89 | over any run without a seek the read position never moves back |
| `SharedHistory.FreshMovesPast` | rust/src/broker/dispatcher/shared.rs:377-417 | a fresh message lies at or after the read position and reading then stands right behind it |
| `SharedReads.FreshOnlyOnce` | rust/src/broker/dispatcher/shared.rs:377-435 | over any run without a seek, the messages read from the log for sending are strictly ascending, so none is sent fresh twice |
| `SharedReads.FreshByExact` | rust/src/broker/dispatcher/shared.rs:377-435 | with nothing queued, what an iteration hands out is what it has just read, and a failed send leaves that message queued |
| `SharedHistory.SoughtExact` | rust/src/broker/service/topic/subscription.rs:359-395 | after a seek reading restarts exactly at the target, nothing is queued, and exactly the messages before the target are acknowledged |
| `SharedSteps.NackedExact` | rust/src/broker/service/topic/subscription.rs:524-609 | a nack takes from the consumer exactly the named messages it holds, queues those of them that are not acknowledged, and changes no other consumer, permit, turn or read position |
| `SharedSteps.RequeuedExact` | rust/src/broker/dispatcher/shared.rs:455-481 | a message handed back counts one more redelivery than its owner recorded, or what the queue already says if that is more |
| `SharedSteps.NackedNothing` | rust/src/broker/service/topic/subscription.rs:524-609 | a nack of messages the consumer does not hold, or of an unknown consumer, changes nothing |
| `SharedSteps.NackedIsNext` | rust/src/broker/service/topic/subscription.rs:524-609 | with nothing else queued the lowest message handed back is free again and the next to be sent |
| `SharedSteps.SoughtDrains` | rust/src/broker/service/topic/subscription.rs:359-395 | a seek empties the pending acks of exactly the consumers outside the kept set; permits, priorities, order, turn and aggregate stay |
| `SharedSteps.SeekReplays` | rust/src/broker/service/topic/subscription.rs:359-395 | after a seek that drains everyone nothing is owned or queued, exactly the messages before the target are acknowledged, and the target is the next message to be sent |
| `SharedSteps.FlowedExact` | rust/src/broker/handler/consumer_handler.rs:207-229 | a grant adds exactly its permits to the balance of a known consumer and to the aggregate, and changes nothing else |
| `SharedSteps.FlowedTwice` | rust/src/broker/handler/consumer_handler.rs:207-229 | two grants are one grant of their sum |
| `SharedSteps.JoinedExact` | rust/src/broker/dispatcher/shared.rs:637-648 | a consumer joins without permits or messages, behind everyone of its priority and before every lower one; everyone else, the turn and the aggregate stay |
| `SharedSteps.LeftExact` | rust/src/broker/dispatcher/shared.rs:570-598 | a leaver takes its positive balance out of the aggregate and its messages are queued; every other consumer and the read position stay |
| `SharedSteps.LeftTurn` | rust/src/broker/dispatcher/shared.rs:166-182 | after a disconnect everyone else keeps their place in line and the turn stays with whoever had it; the turn of the leaver passes to the next in line |
| `SharedSteps.AckedExact` | rust/src/broker/dispatcher/shared.rs:492-534 | an ack takes exactly the named messages that somebody holds, from whoever holds them; permits, order and turn stay |
| `SharedSteps.AckedRead` | rust/src/broker/dispatcher/shared.rs:492-534 | reading stays while something up to it is unacknowledged, jumps to the first unacknowledged message otherwise, and is unset when everything is acknowledged |
| `SharedHistory.AckedCatchesUp` | rust/src/broker/dispatcher/shared.rs:492-534 | after an ack exactly the owned messages named in it are newly acknowledged, reading has caught up with the first unacknowledged one, and exactly the acknowledged messages have left the queue |
| `SharedRuns.QuietMeansAcked` | rust/src/broker/dispatcher/shared.rs:244-598 | when everything has been read and nothing is queued or pending, everything is acknowledged |
| `SharedDispatchers.SharedDispatcher.GetNextAvailableConsumer` | rust/src/broker/dispatcher/shared.rs:196-234 | returns the specified choice and advances the round-robin index past it |
| `SharedDispatchers.SharedDispatcher.InsertConsumerOrder` | rust/src/broker/dispatcher/shared.rs:153-164 | the insertion scan finds the specified place |
| `SharedDispatchers.SharedDispatcher.RemoveConsumerOrder` | rust/src/broker/dispatcher/shared.rs:166-182 | removal and index correction are the specified ones |
| `SharedDispatchers.SharedDispatcher.AddConsumer` | rust/src/broker/dispatcher/shared.rs:637-648 | joins unless the id is taken |
| `SharedDispatchers.SharedDispatcher.ConsumerFlow` | rust/src/broker/handler/consumer_handler.rs:207-229 | adds to the balance of a known consumer and to the aggregate alike |
| `SharedDispatchers.SharedDispatcher.AddToRedeliveryQueue` | rust/src/broker/dispatcher/shared.rs:455-481 | the loop queues every given message with its larger redelivery count |
| `SharedDispatchers.SharedDispatcher.RemoveConsumerWithRecovery` | rust/src/broker/dispatcher/shared.rs:570-598 | equals the specified disconnect |
| `SharedDispatchers.SharedDispatcher.RedeliverUnacknowledged` | rust/src/broker/service/topic/subscription.rs:524-609 | equals the specified nack, which `SharedSteps.NackedExact` ties to the ids it names |
| `SharedDispatchers.SharedDispatcher.OnAckStateUpdated` | rust/src/broker/dispatcher/shared.rs:492-534 | drops acknowledged redeliveries and moves the read position up to the first unacknowledged message |
| `SharedDispatchers.SharedDispatcher.MessageAcked` | rust/src/broker/service/consumer.rs:756-882 | whoever sends the ack, exactly the messages someone owns become acknowledged and leave their owner |
| `SharedDispatchers.SharedDispatcher.SeekTo` | rust/src/broker/service/topic/subscription.rs:359-395 | equals the specified seek with every consumer drained, as `SharedSteps.SoughtDrains` and `SharedSteps.SeekReplays` state |
| `SharedDispatchers.SharedDispatcher.ResetAfterSeek` | rust/src/broker/dispatcher/shared.rs:663-666 | sets the read position and clears the queue |
| `SharedDispatchers.SharedDispatcher.NextUnackedCandidate` | rust/src/broker/dispatcher/read_position.rs:22-82 | the loop stops at the first unacknowledged message |
| `SharedDispatchers.SharedDispatcher.GetNextDispatchable` | rust/src/broker/dispatcher/shared.rs:547-568 | the outer loop stops at the first message that is neither acknowledged nor pending |
| `SharedDispatchers.SharedDispatcher.IsMessagePending` | rust/src/broker/dispatcher/shared.rs:537-544 | the scan of all consumers decides ownership |
| `SharedDispatchers.SharedDispatcher.DispatchBatch` | rust/src/broker/dispatcher/shared.rs:244-452 | the batch loop equals the specified pass, whose extent `SharedPasses.PassFills` states |
| `Redelivery.AddCounted` | rust/src/broker/dispatcher/redelivery_controller.rs:29-42 | adding keeps every blocked count equal to the queued plus in-flight entries of its hash |
| `Redelivery.AddShape` | rust/src/broker/dispatcher/redelivery_controller.rs:29-42 | an added message takes the place of its old entry alone, with the larger of the two counts and the hash recorded first; what is in flight stays |
| `Redelivery.TakeShape` | rust/src/broker/dispatcher/redelivery_controller.rs:54-81 | taking moves exactly that entry from the queue to the in-flight set, under the hash recorded for it |
| `Redelivery.RemoveShape` | rust/src/broker/dispatcher/redelivery_controller.rs:88-93 | removing takes exactly that message out of the queue and the in-flight set |
| `Redelivery.RemoveCounted` | rust/src/broker/dispatcher/redelivery_controller.rs:88-93 | removing keeps the counts |
| `Redelivery.RestoreCounted` | rust/src/broker/dispatcher/redelivery_controller.rs:83-86 | restoring keeps the counts |
| `Redelivery.TakeCounted` | rust/src/broker/dispatcher/redelivery_controller.rs:54-81 | taking for delivery keeps the counts if and only if the message is not already in flight under a tracked hash |
| `Redelivery.BlockedExact` | rust/src/broker/dispatcher/redelivery_controller.rs:111-119 | a hash is blocked if and only if a redelivery of it is queued or in flight |
| `Redelivery.RedeliveryController.Enqueue` | rust/src/broker/dispatcher/redelivery_controller.rs:29-42 | equals the specified addition and keeps the counts |
| `Redelivery.RedeliveryController.TakeForDelivery` | rust/src/broker/dispatcher/redelivery_controller.rs:54-81 | equals the specified taking |
| `Redelivery.RedeliveryController.PutBack` | rust/src/broker/dispatcher/redelivery_controller.rs:83-86 | equals the specified restoration and keeps the counts |
| `Redelivery.RedeliveryController.Discard` | rust/src/broker/dispatcher/redelivery_controller.rs:88-93 | equals the specified removal and keeps the counts |
| `Redelivery.RedeliveryController.IncrementHash` | rust/src/broker/dispatcher/redelivery_controller.rs:121-128 | counts a hash up when blocking is on |
| `Redelivery.RedeliveryController.DecrementHash` | rust/src/broker/dispatcher/redelivery_controller.rs:130-144 | counts a hash down and forgets it at zero |
| `Redelivery.RedeliveryController.ReleaseInFlight` | rust/src/broker/dispatcher/redelivery_controller.rs:146-151 | equals the specified release and keeps the counts |
| `Redelivery.RedeliveryController.Clear` | rust/src/broker/dispatcher/redelivery_controller.rs:155-159 | forgets everything |
| `AutoSplit.SplitPartitions` | rust/src/broker/dispatcher/key_shared.rs:85-104 | every hash lies in exactly one automatic range, for any number of consumers |
| `AutoSplit.RangeExact` | rust/src/broker/dispatcher/key_shared.rs:95-101 | with n consumers the i-th range holds exactly the hashes h with i * 65536 < (h + 1) * n <= (i + 1) * 65536 |
| `AutoSplit.SplitIsEven` | rust/src/broker/dispatcher/key_shared.rs:85-104 | ranges stay within 0..65535 and their sizes differ by at most one |
| `AutoSplit.SplitFitsI32` | rust/src/broker/dispatcher/key_shared.rs:95-101 | the 32-bit products overflow for nobody if and only if there are at most 32767 consumers |
| `AutoSplit.Rebuild` | rust/src/broker/dispatcher/key_shared.rs:85-104 | the loop assigns to each consumer the specified range, whose bounds `AutoSplit.RangeExact` states |
| `KeyShared.ScanExact` | rust/src/broker/dispatcher/key_shared.rs:155-203 | the redelivery scan drops only acknowledged messages, keeps the invariants, and finds only the lowest queued message of a hash with nothing in flight and a consumer that can take it |
| `KeyProgress.ScanFindsFirst` | rust/src/broker/dispatcher/key_shared.rs:155-203 | the scan finds the first queued, unacknowledged message whose hash has nothing in flight and an owner that can take it, for that owner, and finds nothing only when there is none |
| `KeyProgress.RedeliveryExact` | rust/src/broker/dispatcher/key_shared.rs:337-383 | the redelivery half of an iteration hands out a message if and only if that message is the first deliverable one and the send succeeds |
| `KeyProgress.OwnerIsServed` | rust/src/broker/dispatcher/key_shared.rs:155-203 | a queued unacknowledged message whose hash has nothing in flight and whose owner can take it makes the iteration hand out a message, itself when no earlier one is deliverable |
| `KeyShared.IterateReads` | rust/src/broker/dispatcher/key_shared.rs:337-457 | an iteration that goes on has read a message, so every pass ends whatever its budget says |
| `KeyShared.IterateKeeps` | rust/src/broker/dispatcher/key_shared.rs:337-457 | every iteration keeps one owner per message, loses none, and keeps counts, hashes and the one-in-flight rule |
| `KeySharedRuns.KeySharedDeliveryIsSafe` | rust/src/broker/dispatcher/key_shared.rs:292-457 | in every reachable state of ordered mode: nothing is lost, nothing has two owners, every blocked count is exact, and at most one redelivery per hash is in flight |
| `KeySharedRuns.KeyAckedKeeps` | rust/src/broker/dispatcher/key_shared.rs:241-290 | acks keep all of this |
| `KeySharedRuns.KeyLeftKeeps` | rust/src/broker/dispatcher/key_shared.rs:292-316 | disconnects with recovery keep all of this |
| `KeyOrder.RedeliveryKeepsKeyOrder` | rust/src/broker/dispatcher/key_shared.rs:155-203 | a redelivered message was the lowest queued unacknowledged one of its hash, with nothing of the hash in flight |
| `KeyOrder.FreshKeepsKeyOrder` | rust/src/broker/dispatcher/key_shared.rs:385-457 | a fresh message is sent only when no redelivery of its hash is queued or in flight |
| `KeyRunOrder.KeyOrderOverRuns` | rust/src/broker/dispatcher/key_shared.rs:320-460 | in every run whose seeks leave nothing pending, whenever a pass hands out a message every earlier unacknowledged message of its hash is already pending |
| `KeyRunOrder.RunInStep` | rust/src/broker/dispatcher/key_shared.rs:241-316 | over those runs everything queued or pending lies before the read position and nothing pending is acknowledged |
| `KeyWitness.SeekBreaksOrder` | rust/src/broker/service/topic/subscription.rs:359-395 | the draining is needed: a run with a seek that leaves a message pending, after which a pass hands out the later of two messages of one hash first |
| `KeyOrder.NackSticks` | rust/src/broker/service/topic/subscription.rs:524-609 | a handed-back message stays counted as in flight if and only if it was a redelivery in flight |
| `KeyOrder.LeaveSticks` | rust/src/broker/dispatcher/key_shared.rs:292-316 | the same for a disconnect |
| `KeyProgress.NackDeliverable` | rust/src/broker/service/topic/subscription.rs:524-609 | a handed-back message is deliverable again if and only if nothing of its hash was in flight and the owner of its hash can take it |
| `KeyProgress.LeaveDeliverable` | rust/src/broker/dispatcher/key_shared.rs:292-316 | the same for a disconnect, with the owner under the new split |
| `KeyProgress.StuckBlocksHash` | rust/src/broker/dispatcher/key_shared.rs:155-203 | while a queued message counts as in flight no message of its hash is deliverable |
| `KeyOrder.StuckUntilSeek` | rust/src/broker/dispatcher/key_shared.rs:155-203 | from then on, over every run without a seek, that message stays queued and no message of its hash finds an owner |
| `KeyWitness.RunSticks` | rust/src/broker/dispatcher/key_shared.rs:155-203 | a run that reaches such a state: a message is delivered, handed back, redelivered and handed back |
| `KeyWitness.StuckForGood` | rust/src/broker/dispatcher/key_shared.rs:155-203 | however that run goes on without a seek, the message stays queued and without an owner |
| `KeyHistory.KeyPermitsAddUp` | rust/src/broker/dispatcher/key_shared.rs:292-460 | in every reachable state the aggregate permits are the connected balances plus what departed consumers owed |
| `KeyHistory.KeyCountsAreAttempts` | rust/src/broker/dispatcher/key_shared.rs:320-460 | in every reachable state the redelivery count of a queued or pending message is the number of earlier attempts to deliver it since it was last read from the log; a message queued behind its blocked hash starts at zero |
| `KeyAffinity.SelectedOwns` | rust/src/broker/dispatcher/key_shared.rs:122-134 | whoever is selected for a hash is its one owner among the connected consumers |
| `KeyAffinity.OneOwner` | rust/src/broker/dispatcher/key_shared.rs:85-104 | a hash has at most one owner |
| `KeyAffinity.SomeOwner` | rust/src/broker/dispatcher/key_shared.rs:85-104 | and with any consumer connected it has one |
| `KeyAffinity.EveryPassServesOwners` | rust/src/broker/dispatcher/key_shared.rs:320-460 | in every reachable state a pass delivers each message to the owner of its hash and to nobody else |
| `KeyAffinity.KeysStayTogether` | rust/src/broker/dispatcher/key_shared.rs:320-460 | over every run in which nobody joins or leaves, all pending messages of a hash stay with its one owner |
| `KeyMembership.OwnsByRank` | rust/src/broker/dispatcher/key_shared.rs:85-104 | a consumer owns a hash if and only if the hash lies in the range whose number is the count of smaller connected ids |
| `KeyMembership.OwnsExact` | rust/src/broker/dispatcher/key_shared.rs:85-104 | a consumer with r smaller ids among n owns exactly the hashes h with r * 65536 < (h + 1) * n <= (r + 1) * 65536 |
| `KeyMembership.JoinHeldExact` | rust/src/broker/dispatcher/key_shared.rs:476-491 | after a join every pending message is with the owner of its hash if and only if each pending message has its hash in the range its holder gets, computed from the ids connected before and the one joining |
| `KeyMembership.LeaveHeldExact` | rust/src/broker/dispatcher/key_shared.rs:292-316 | after a disconnect the same holds if and only if each message pending on the others has its hash in the range its holder gets |
| `KeyMembership.SplitMovesBetween` | rust/src/broker/dispatcher/key_shared.rs:85-104 | a join and a disconnect that each move a hash between two consumers that stay connected |
| `KeyMembership.TogetherExact` | rust/src/broker/dispatcher/key_shared.rs:292-491 | all pending messages of a hash are with its owner throughout a run if and only if no join or disconnect of the run moves the hash of a message that stays pending |
| `KeyWitness.OneHashOnTwoConsumers` | rust/src/broker/dispatcher/key_shared.rs:476-491 | a run after which two messages of one hash are pending on two consumers |
| `KeySharedDispatchers.SelectsOwner` | rust/src/broker/dispatcher/key_shared.rs:122-134 | selection returns the unique owner of the hash if it has permits and is writable, else nobody |
| `KeySharedDispatchers.SortedIdsExact` | rust/src/broker/dispatcher/key_shared.rs:85-90 | consumers are ordered by id, each once |
| `KeySharedDispatchers.BudgetWraps` | rust/src/broker/dispatcher/key_shared.rs:337-427 | the 32-bit budget wraps to 2^32 - 1 (in a build without overflow checks; with them the subtraction panics) if and only if one unit is left, a queued message is found and sent, and after its hand-over the next unread message is of no blocked hash and its owner can take it |
| `KeyBudget.IterateBudget` | rust/src/broker/dispatcher/key_shared.rs:337-427 | an iteration that does not wrap spends one unit per message sent, and more only when a failed send ends the pass |
| `KeyBudget.PassKeepsBudget` | rust/src/broker/dispatcher/key_shared.rs:320-460 | in every reachable state a pass sends at most its budget if and only if no iteration spends the last unit on a redelivery and then sends a fresh message too |
| `KeyBudget.WaitsKeepsBudget` | rust/src/broker/dispatcher/key_shared.rs:320-460 | a pass keeps its budget, whatever consumers can take and whichever sends fail, when it starts with every queued unacknowledged message waiting for a redelivery of its hash that is in flight |
| `KeyPasses.KeyPassFills` | rust/src/broker/dispatcher/key_shared.rs:320-460 | a pass hands out one formerly unowned message for each permit there is in all, up to 20, or it stopped, after no more iterations than it has read messages, because a connection refused a queued or a fresh message, everything is read, or nobody whose range has the hash of the next message can take it |
| `KeyPasses.EveryKeyPassFills` | rust/src/broker/dispatcher/key_shared.rs:320-460 | this holds in every reachable state |
| `KeyPasses.HealthyPassFills` | rust/src/broker/dispatcher/key_shared.rs:320-460 | in every reachable state, when the connections take everything, a pass hands out at least min(permits, 20) messages, or until every message is read or the owner of the next one has no permits |
| `KeyPasses.PassReports` | rust/src/broker/dispatcher/key_shared.rs:318-460 | in every reachable state the number a pass returns is the messages it handed out plus those it read and queued behind a redelivery of their hash |
| `KeySteps.KeyNackedExact` | rust/src/broker/service/topic/subscription.rs:524-609 | a nack takes from the consumer exactly the named messages it holds and queues those of them that are not acknowledged; what is in flight, every other consumer, ranges, permits and read position stay |
| `KeySteps.KeyNackedNothing` | rust/src/broker/service/topic/subscription.rs:524-609 | a nack of messages the consumer does not hold, or of an unknown consumer, changes nothing |
| `KeySteps.KeySoughtDrains` | rust/src/broker/service/topic/subscription.rs:359-395 | a seek empties the pending acks of exactly the consumers outside the kept set and forgets everything queued, in flight and blocked; permits and ranges stay |
| `KeySteps.KeySeekReplays` | rust/src/broker/service/topic/subscription.rs:359-395 | after a seek that drains everyone nothing is owned, and the target is the first message to be sent |
| `KeySteps.KeyFlowedExact` | rust/src/broker/handler/consumer_handler.rs:207-229 | a grant adds exactly its permits to the balance of a known consumer and to the aggregate, and changes nothing else |
| `KeySteps.KeyFlowedTwice` | rust/src/broker/handler/consumer_handler.rs:207-229 | two grants are one grant of their sum |
| `KeySteps.KeyJoinedExact` | rust/src/broker/dispatcher/key_shared.rs:476-491 | a consumer joins without permits or messages, and for the others nothing but the ranges changes |
| `KeySteps.KeyLeftExact` | rust/src/broker/dispatcher/key_shared.rs:292-316 | a leaver takes its positive balance out of the aggregate, its messages are queued, and for the others nothing but the ranges changes |
| `KeySteps.KeyAckedExact` | rust/src/broker/dispatcher/key_shared.rs:241-290 | after an ack exactly the acknowledged messages have left the queue and the in-flight set; consumers and read position change as in Shared mode |
| `KeyWitness.BudgetExceeded` | rust/src/broker/dispatcher/key_shared.rs:320-460 | a run after which a pass may send one message and sends three |
| `KeySharedDispatchers.KeySharedDispatcher.SelectConsumer` | rust/src/broker/dispatcher/key_shared.rs:122-134 | the scan makes the specified selection |
| `KeySharedDispatchers.KeySharedDispatcher.PopDispatchable` | rust/src/broker/dispatcher/key_shared.rs:155-203 | the scan of the queue equals the specified one |
| `KeySharedDispatchers.KeySharedDispatcher.RedeliverFound` | rust/src/broker/dispatcher/key_shared.rs:343-383 | charging, sending and restoring equal the specified hand-over or return |
| `KeySharedDispatchers.KeySharedDispatcher.RemoveConsumerWithRecovery` | rust/src/broker/dispatcher/key_shared.rs:292-316 | equals the specified disconnect |
| `KeySharedDispatchers.KeySharedDispatcher.RedeliverUnacknowledged` | rust/src/broker/service/topic/subscription.rs:524-609 | equals the specified nack, which `KeySteps.KeyNackedExact` ties to the ids it names |
| `KeySharedDispatchers.KeySharedDispatcher.AddConsumer` | rust/src/broker/dispatcher/key_shared.rs:476-491 | joins unless the id is taken and reassigns all ranges |
| `KeySharedDispatchers.KeySharedDispatcher.RebuildAssignments` | rust/src/broker/dispatcher/key_shared.rs:85-104 | reassigns all ranges; who owns which hash is `KeyMembership.OwnsExact` |
| `KeySharedDispatchers.KeySharedDispatcher.MessagesAcked` | rust/src/broker/dispatcher/key_shared.rs:241-290 | equals the specified ack: owned messages only, and their redelivery state goes |
| `KeySharedDispatchers.KeySharedDispatcher.SeekTo` | rust/src/broker/service/topic/subscription.rs:359-395 | equals the specified seek with every consumer drained, as `KeySteps.KeySoughtDrains` and `KeySteps.KeySeekReplays` state |
| `KeySharedDispatchers.KeySharedDispatcher.ResetAfterSeek` | rust/src/broker/dispatcher/key_shared.rs:506-509 | sets the read position and clears the controller |
| `KeySharedDispatchers.KeySharedDispatcher.NextDispatchable` | rust/src/broker/dispatcher/key_shared.rs:218-239 | the loop stops at the first message that is neither acknowledged nor pending |
| `KeySharedDispatchers.KeySharedDispatcher.SendUnread` | rust/src/broker/dispatcher/key_shared.rs:385-457 | equals the specified fresh phase |
| `KeySharedDispatchers.KeySharedDispatcher.DispatchBatch` | rust/src/broker/dispatcher/key_shared.rs:320-460 | the batch loop terminates and equals the specified pass, whose extent `KeyPasses.KeyPassFills` states |
| `EntryLogs.RecordRoundTrip` | rust/storage/managed-ledger-rocksdb/src/entrylog.rs:164-192 | a record followed by any bytes reads back to the original partition, metadata and payload if and only if both lengths are below 2^32 |
| `EntryLogs.LegacyRoundTrip` | rust/storage/managed-ledger-rocksdb/src/entrylog.rs:430-440 | a record of the previous version reads back with empty metadata if and only if its payload is below 2^32 |
| `EntryLogs.RecordWire` | rust/storage/managed-ledger-rocksdb/src/entrylog.rs:164-192 | a record is the bytes 47 45 4C 50 02 00 2C 00, then ledger, entry, partition, lengths and checksum in little-endian fields of 8, 8, 4, 4, 4 and 8 bytes, then metadata and payload |
| `EntryLogChecks.ChecksumOfIsSum` | rust/storage/managed-ledger-rocksdb/src/entrylog.rs:328-333 | the checksum is the sum of all metadata and payload bytes modulo 2^64 |
| `EntryLogChecks.DamageExact` | rust/storage/managed-ledger-rocksdb/src/entrylog.rs:441-462 | a record whose body bytes were replaced by as many others is refused if and only if the sum of the bytes changes modulo 2^64 |
| `EntryLogChecks.ChangedByteIsRefused` | rust/storage/managed-ledger-rocksdb/src/entrylog.rs:441-462 | one changed payload byte is always refused |
| `EntryLogChecks.SwappedBytesPass` | rust/storage/managed-ledger-rocksdb/src/entrylog.rs:441-462 | two swapped bytes are read back swapped |
| `EntryLogChecks.AcceptsOnlyRecords` | rust/storage/managed-ledger-rocksdb/src/entrylog.rs:394-462 | whatever reading accepts, unless it is marked as the previous version, is byte for byte the record of the entry it returns, under an index with its ids, length and checksum |
| `EntryLogChecks.OnlyItsIndexReads` | rust/storage/managed-ledger-rocksdb/src/entrylog.rs:394-462 | a record read under any index is returned if and only if the index has its ids, length and checksum |
| `Bytes.LEDigit` | rust/storage/managed-ledger-rocksdb/src/entrylog.rs:179-187 | byte i of a little-endian field is the digit of weight 256^i |
| `EntryLogs.RecordSize` | rust/storage/managed-ledger-rocksdb/src/entrylog.rs:164-192 | a record has the length its index claims |
| `EntryLogRuns.EveryRunReadsBack` | rust/storage/managed-ledger-rocksdb/src/entrylog.rs:128-212 | after any batches, rollovers and reopenings from an empty directory, every index ever returned reads back its entry |
| `EntryLogRuns.EveryRunIsContiguous` | rust/storage/managed-ledger-rocksdb/src/entrylog.rs:128-212 | in every run the recorded byte ranges of one file follow each other without overlap or gap |
| `EntryLogRuns.ReadsBack` | rust/storage/managed-ledger-rocksdb/src/entrylog.rs:394-462 | reading any issued index of a consistent log returns the entry, or an error exactly when a length does not fit |
| `EntryLogRuns.IssuesAreReturned` | rust/storage/managed-ledger-rocksdb/src/entrylog.rs:164-192 | the recorded history is what the writer returned |
| `EntryLogFiles.WrittenExact` | rust/storage/managed-ledger-rocksdb/src/entrylog.rs:128-212 | a non-empty batch is written where the last one ended if the open file is empty or has room for its 44-byte headers and bodies within the limit, and otherwise at the start of the next file |
| `EntryLogFiles.WrittenAt` | rust/storage/managed-ledger-rocksdb/src/entrylog.rs:159-192 | the returned indexes lie one after another from there |
| `EntryLogFiles.EveryBatchIsPlaced` | rust/storage/managed-ledger-rocksdb/src/entrylog.rs:128-157 | in every run, between openings, a batch goes right behind the one before if it fits there and to the next file if it does not |
| `EntryLogFiles.EveryFileKeepsLimit` | rust/storage/managed-ledger-rocksdb/src/entrylog.rs:128-157 | in every run a file longer than the limit it was written under holds exactly one batch, from its first byte to its last |
| `EntryLogRuns.NextFile` | rust/storage/managed-ledger-rocksdb/src/entrylog.rs:80-102 | a reopened log continues in the file one past the highest existing one, or in file 0 when there is none |
| `EntryLogRuns.EntryLogWriter.WriteBatch` | rust/storage/managed-ledger-rocksdb/src/entrylog.rs:128-212 | the writer equals the specified batch write, whose file and offset `EntryLogFiles.WrittenExact` states |
| `EntryLogRuns.EntryLogWriter.RollOver` | rust/storage/managed-ledger-rocksdb/src/entrylog.rs:138-157 | equals the specified rollover; when it happens is `EntryLogFiles.WrittenExact` |
| `EntryLogRuns.EntryLogWriter.constructor` | rust/storage/managed-ledger-rocksdb/src/entrylog.rs:108-124 | opening starts an empty file above all existing ones |
| `EntryLogRuns.TotalLen` | rust/storage/managed-ledger-rocksdb/src/entrylog.rs:132-137 | the length loop adds up the record lengths |
| `EntryLogRuns.Assemble` | rust/storage/managed-ledger-rocksdb/src/entrylog.rs:159-192 | the buffer loop lays the records out one after another and records where each begins |
| `FrameCodec.CommandRoundTrip` | rust/proto/src/codec.rs:174-304 | a command frame of any size followed by any bytes decodes to that command and leaves those bytes, if and only if it is within 5 MiB + 10 KiB; a larger one whose size fits its field is refused |
| `FrameCodec.MessageRoundTrip` | rust/proto/src/codec.rs:109-257 | a message frame of any size followed by any bytes decodes to its command, metadata and payload and leaves those bytes, if and only if it is within the limit; empty metadata is replaced before encoding |
| `FrameCodec.ChecksummedRoundTrip` | rust/proto/src/codec.rs:220-233 | a frame with the checksum field decodes with its checksum and leaves what follows, if and only if it is within the limit |
| `FrameCodec.LengthIsNotMagic` | rust/proto/src/codec.rs:220-233 | a metadata length within the frame limit can never be taken for the 0x0e01 magic |
| `FrameCodec.BadExact` | rust/proto/src/codec.rs:174-257 | a complete frame within the limit is refused if and only if the command it announces does not fit into it, and is otherwise consumed exactly |
| `FrameCodec.ShortContent` | rust/proto/src/codec.rs:220-257 | content too short for the metadata it announces is taken for payload |
| `FrameCodec.CommandWire` | rust/proto/src/codec.rs:286-304 | a command frame is its size without the size field, the size of the command and the command |
| `FrameCodec.PlainWire` | rust/proto/src/codec.rs:109-172 | a message frame adds the size of the metadata, the metadata and the payload |
| `FrameCodec.ChecksummedWire` | rust/proto/src/codec.rs:220-233 | a frame with a checksum has the bytes 0E 01 and four checksum bytes before the metadata size |
| `Bytes.BEDigit` | rust/proto/src/codec.rs:109-172 | byte i from the end of a big-endian field is the digit of weight 256^i |
| `FrameCodec.ChunksDoNotMatter` | rust/proto/src/codec.rs:174-257 | splitting a byte stream into any chunks yields the same frames, the same failure and the same leftover bytes |
| `FrameCodec.StreamSurvivesChunking` | rust/proto/src/codec.rs:109-304 | however the bytes of any sequence of frames arrive, exactly those frames come out |
| `FrameCodec.FrameDecoder.DecodeNext` | rust/proto/src/codec.rs:174-257 | in-place decoding returns the specified result and consumes exactly one frame, also when its content is malformed |
| `FrameCodec.FrameDecoder.Consume` | rust/proto/src/codec.rs:174-257 | taking in a chunk and decoding until bytes run out or decoding fails yields exactly the frames and the verdict of draining the buffer |
| `FrameCodec.FrameDecoder.ConsumeAll` | rust/proto/src/codec.rs:174-257 | over any chunks of a stream the decoder yields exactly the frames and the verdict specified for the whole stream |
| `WriteQueues.EveryRequestAnswered` | rust/storage/managed-ledger-rocksdb/src/write_queue.rs:98-250 | for every arrival sequence, any batch cut points and any failures, each request gets exactly one reply |
| `WriteQueues.ArrivalOrderDecides` | rust/storage/managed-ledger-rocksdb/src/write_queue.rs:98-250 | replies on one ledger come in arrival order, and of two stored requests the earlier arrival gets the smaller position |
| `WriteQueues.QueueIsFaithful` | rust/storage/managed-ledger-rocksdb/src/write_queue.rs:98-250 | from an empty store, in every run: one reply per request, in arrival order per ledger, and every receipt names the position at which that very message is stored |
| `WriteReplies.StoreHoldsReceipts` | rust/storage/managed-ledger-rocksdb/src/write_queue.rs:98-250 | from an empty store, in every run the log of each ledger is exactly what its receipts name, in the order of the replies, and holds exactly their messages: nothing refused is stored and nothing stored lacks its receipt |
| `WriteReplies.ServeDecides` | rust/storage/managed-ledger-rocksdb/src/write_queue.rs:163-246 | a request is refused if and only if its group fails, and otherwise gets the next places at the end of its ledger |
| `WriteQueues.ServeOrderIsBatch` | rust/storage/managed-ledger-rocksdb/src/write_queue.rs:152-168 | serving the ledgers by first appearance serves every group of the batch |
| `WriteQueues.GroupByLedger` | rust/storage/managed-ledger-rocksdb/src/write_queue.rs:152-161 | one pass groups the batch in arrival order per ledger and lists the ledgers by first appearance |
| `WriteQueues.WriteQueueWorker.ServeOne` | rust/storage/managed-ledger-rocksdb/src/write_queue.rs:163-246 | appending a group and answering it equal the specified outcome |
| `WriteQueues.WriteQueueWorker.ServeQueueBatch` | rust/storage/managed-ledger-rocksdb/src/write_queue.rs:152-246 | the loop over the ledgers equals the specified batch |

## Left out

- Sockets, tasks, timers, keep-alive, handlers and metrics: plumbing without a law of its own.
- RocksDB, protobuf and bincode internals: the database is a map with atomic batch writes, protobuf bodies are byte strings.
- Failed or partial entry log writes and failed file rollover: recorded offsets are not repaired afterwards, so the runs contain successful writes only.
- The coalescing window of the entry log writer thread: its batches are inputs of the model, in arrival order.
- The merge-trigger flags around a dispatch pass: which trigger starts a pass is not modelled, only what a pass does.
- Cumulative acks on a shared cursor, and in-memory cursors started at Latest and then acknowledged individually: the source does not reconcile the two cursor forms.
- Exclusive and Failover delivery: a former active consumer that leaves as a standby is not rewound, so there is no comparable invariant.
- Key_Shared with out-of-order delivery allowed, and sticky ranges chosen by consumers: the first has no hash blocking, the second differs only in the list of ranges searched.
- Progress of Key_Shared delivery over runs: handed-back redeliveries block their hash, so what is stated is which message one iteration hands out.
- MurmurHash: the hash of an entry is an arbitrary integer, and the ownership lemma takes any value in 0..65535.
- Connection byte budgets, connection limits, topic name parsing and the metadata document: unused, easy or string handling.
- Key_Shared budgets with overflow checks on: the model wraps where such a build panics.
