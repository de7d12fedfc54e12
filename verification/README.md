# Verification of ops-indexer's state-keeping protocols

ops-indexer keeps many aggregates in step with a chain that reorganises, while ingest, catch-up, reverts, repairs and
retention work side by side. This project models those protocols in Dafny and proves what the code and its comments
promise of them. A database transaction is one step, or several where another can commit between its statements; a
snapshot is a copied state, an `xmin` a version number, and what the node or the database answers is a parameter that
ranges over every answer.

| file | what it models |
|---|---|
| `AddressRebase.dfy`, `AddressCounters.dfy`, `AddressStatsTable.dfy` | `address_stats`: a correction read in one snapshot and applied later, while blocks are written and reverted |
| `FirstSeen.dfy` | what a correction reports of the `first_seen`s it moves |
| `BalanceEpochs.dfy`, `BalanceStore.dfy` | reorg epochs: asynchronous balance reads fenced by reverts, and the requests to read again |
| `DedupWindow.dfy` | the balance workers' dedup window |
| `BalanceFlush.dfy`, `BalanceCache.dfy` | a flush's sort and collapse, and the current-balance table as a cache of the history |
| `BalanceLocks.dfy`, `BalanceKeyLocks.dfy`, `BalanceScripts.dfy` | the lock order of flushes and reverts, and their whole lock sequences |
| `TokenCounters.dfy`, `TokenRows.dfy` | `transfer_count` and `holder_count`, kept by deltas and seeds |
| `CommitLoop.dfy`, `CommitPipeline.dfy` | the sequential and the pipelined committer |
| `StandardMode.dfy`, `StandardCover.dfy`, `StandardLoop.dfy` | the standard loop: where a tick starts, the reorg check, reverts, later fills |
| `Realtime.dfy`, `RealtimeLoop.dfy` | the realtime loop: jumps, failed reverts and the cursor |
| `DailyFold.dfy`, `DailyAdvance.dfy`, `DailyRun.dfy`, `DailyRecount.dfy`, `DailyProgress.dfy`, `DailyNotes.dfy` | the daily aggregates: off-lock folds and late days |
| `DailyBefore.dfy`, `DailyChain.dfy` | the running count of earlier transactions |
| `DailyRefill.dfy`, `DailyAddresses.dfy` | the block ranges of days and the one-pass address recount |
| `SpanTotals.dfy`, `SpanContents.dfy`, `StatsBackfill.dfy` | the stats backfill and the ledger's spans |
| `HistoryPartitions.dfy` | history partitions: gaps filled while retention prunes |
| `Sums.dfy`, `Division.dfy` | finite sums, extrema, table updates and remainders the others share |

Code that works by changing things step by step is a method with its loop, or a class with the source's fields, proved
against a function of the old state; the protocol theorems are about those functions.

## Where a promise does not hold

* Standard mode links every pair of adjacent stored blocks from block 1 up. Blocks 0 and 1 stay linked in every run
  exactly when the start block is above 0 or block 0 is neither stored nor recorded as missing: with a start block of 0
  and the cursor on block 0, `anchor` returns no hash. `StandardMode.GenesisHoldsExactly`, with
  `StandardMode.SomeRunBreaks` for the run and `StandardMode.LinksHoldExactly` for one tick.
* Realtime covers every block up to its cursor unless catch-up stores a block between a failed revert's fork and the
  cursor before the resume: `Realtime.CatchUpDuringFailedRevert` gives the exact condition,
  `Realtime.ResumePassesLostBlocks` an instance.
* After a revert that reports an error, the deleted blocks are said to be fetched again. They are unless the cursor is a
  skipped block whose hash is remembered: the tick then starts on it and goes on over them.
  `StandardCover.ResumesCoveredExactly`, with `StandardCover.SkippedHashHidesAGap` for an instance.
* A current balance stays the key's latest history row through a flush unless the key's highest read is below the first
  retained block and not below the current row: it goes into no history row and the upsert still takes it
  (`BalanceCache.FlushCachesExactly`).
* A reread request can be closed by an answer whose block is pruned, which stores no history row:
  `BalanceEpochs.AnswerIsStored` and `BalanceEpochs.PrunedAnswerStoresNothing`.
* `FirstSeenFrom` is said to be the earliest `first_seen`, old or new, of a row whose `first_seen` moved. A write that
  finds the address reverted since the read reports only the `first_seen` it read, while its recount may set an earlier
  one; with a NULL `first_seen` it reports nothing. Both hold in every run exactly when the read did not find the row's
  `first_seen` past the address's first block, or NULL: `FirstSeen.ReachesExactly`, `FirstSeen.ReportsExactly`, and
  `FirstSeen.LateRun` for the run. Such a batch leaves the days before the one reported uncounted, or counts none again.
* The one-pass address recount equals the per-day counts exactly when the days' spans do not overlap:
  `DailyAddresses.OnePassExactly`.

## Model

| member | source | states |
|---|---|---|
| AddressRebase.RebaseReachesTruth | internal/db/address_rebase.go:160-459 | for any drift at the read and any run of ingest, reverts and other batches before the writes, an address that had a row at the read or is creatable ends with a row exactly when blocks saw it, with its counters, first_seen and last_seen at commit; only a row that a revert has removed since the read stays gone |
| AddressRebase.CorrectionReachesTruth | internal/db/address_rebase.go:329-384 | with no revert of the address since the read, the additive correction and the CASE on first_seen and last_seen give the truth of the moment it is applied |
| AddressRebase.RunTracksOrStamped | internal/db/address_rebase.go:247-293 | through any run since the read, a row either has moved exactly as its truth has, or a revert has stamped the address with a version the read did not see |
| AddressRebase.RunConsistent | internal/db/address_stats_revert.go:19-131 | a row equal to its truth stays equal through every run of ingest, reverts and rebases of other addresses |
| AddressRebase.RevertKeepsRight | internal/db/address_stats_revert.go:53-118 | on a row equal to its truth the clamped subtraction never clamps, and the first and last remaining blocks it finds, or the row it removes, are those of the remaining truth |
| AddressRebase.RevertedExactly | internal/db/address_stats_revert.go:53-118 | on any row, a drifted one too: a revert removes it exactly when no other retained block saw the address and its first_seen is not below the block; a first or last block from there up becomes the least retained or the greatest other one, a lower one is kept |
| AddressCounters.NeverNegative | internal/db/address_stats_revert.go:53-118 | in every run of ingest, reverts and rebases no counter of any row goes below zero if none was, drifted rows included |
| AddressRebase.TotalIsRows | internal/db/address_rebase.go:434-439 | addresses_total is the number of address_stats rows, kept by ingest, reverts and rebases |
| AddressRebase.RevertedSinceStaysRecorded | internal/db/address_rebase.go:445-451 | a batch takes an address off the reverted list exactly when the version its snapshot saw is still the recorded one |
| FirstSeen.ReachesExactly | internal/db/address_rebase.go:311-399 | for every read of an address: the block its write folds into FirstSeenFrom is at or before the first_seen it moves, old and new, in every run since the read exactly when the read did not find a first_seen past the first block that saw the address, NULL included |
| FirstSeen.ReportsExactly | internal/db/address_rebase.go:311-399 | for every read: its write reports every first_seen it moves in every run exactly when the read did not find a NULL first_seen of an address that blocks saw |
| FirstSeen.RunReaches | internal/db/address_rebase.go:311-399 | with no revert of the address since the read the report reaches the old and the new first_seen for every read, late ones too |
| FirstSeen.LateRun | internal/db/address_rebase.go:317-328 | the run that breaks it for any late read: two blocks written and the second reverted, after which the recount sets a first_seen earlier than the one reported, or one when nothing is reported |
| AddressStatsTable.UpsertRows | internal/db/batch.go:722-760 | the upserts in address order give the sums, least first_seen and greatest last_seen, and the count of inserted rows |
| AddressStatsTable.TakeRowsOff | internal/db/address_stats_revert.go:53-118 | the loop over a reverted block's addresses, with the count of rows it removes |
| AddressStatsTable.ApplyRow | internal/db/address_rebase.go:311-400 | one write of a batch: the row it leaves; Created and Removed count the rows that appear and go, Changed the writes that keep a row, and FirstSeenFrom becomes the earlier of itself and what the write reports |
| AddressStatsTable.ApplyRows | internal/db/address_rebase.go:298-427 | the batch's writes in address order leave each read address as its own write does and no other row changed; FirstSeenFrom is the least of what the writes report |
| AddressStatsTable.FirstSeenFromReaches | internal/db/address_rebase.go:298-459 | a batch's FirstSeenFrom is at or before the old and the new first_seen of every row it moves that was not reverted since the read or not read late, and is set whenever such a row, or any not read with a NULL first_seen, moves |
| AddressStatsTable.RebaseTables | internal/db/address_rebase.go:298-459 | a whole batch: rows, cleared versions and addresses_total together are the state a committed batch must leave |
| AddressStatsTable.UpsertsAreIngest | internal/db/batch.go:722-776 | the row-by-row upserts and the counter they return are a block's ingest as the protocol sees it |
| AddressStatsTable.TakeOffsAreRevert | internal/db/address_stats_revert.go:19-131 | the row-by-row subtraction is a block's revert as the protocol sees it |
| AddressStatsTable.AddressStats.WriteBlock | internal/db/batch.go:722-776 | the tables after a block write, in place; a stored block changes nothing |
| AddressStatsTable.AddressStats.RevertBlock | internal/db/address_stats_revert.go:19-131 | the tables after a revert, in place |
| AddressStatsTable.AddressStats.RebaseBatch | internal/db/address_rebase.go:298-459 | the tables after a batch, in place, and address_days_recount grown by one exactly when the batch's writes report a first_seen |
| BalanceEpochs.FoldedIsGreatest | internal/indexer/balance_worker.go:170-182 | folding keeps the greatest read by epoch and then block, so it is associative and commutative in what it keeps |
| BalanceEpochs.InvRun | internal/indexer/balance_worker.go:152-168 | in every run of stamps, folds, claims, flushes, reverts, restarts and prunes, a read decided before the last committed revert carries a lower epoch, and every epoch is below one about to commit |
| BalanceEpochs.EveryFlushIsFresh | internal/db/batch.go:903-964 | in every run, a history row a flush writes was decided after every revert committed by then |
| BalanceEpochs.FlushLosesNothing | internal/db/batch.go:934-964 | each read of a flush is in the history at the latest epoch, or its block is pruned, or it came too late and its key's request is open at the latest epoch |
| BalanceEpochs.RevertAsksForItsKeys | internal/db/balances_revert.go:293-307 | a committed revert leaves an open request at its epoch for every key it touched or deleted a row of, and every read decided before it is below that epoch |
| BalanceEpochs.NeverForgotten | internal/db/balances_revert.go:371-450 | in every run a request stays open until a flush keeps a read at its epoch or later, or until it has been handed out 20 times |
| BalanceEpochs.EpochNeverDecreases | internal/db/balances_revert.go:388-403 | in every run a request, once recorded, is never removed and its epoch never decreases |
| BalanceEpochs.ClaimedReadAnswers | internal/db/balances_revert.go:415-450 | a read handed out closes its request when it is flushed, however the run went on, unless a revert has taken an epoch since |
| BalanceEpochs.StampedReadLands | internal/indexer/balance_worker.go:140-168 | whatever the pool stamps after a restart, or after a revert whose epoch it read, is stored by its flush and closes its key's request, however the run went on, unless another revert has taken an epoch since |
| BalanceEpochs.GivenUpExactly | internal/db/balances_revert.go:415-450 | a request that no flush answers and nothing asks for again is closed by the next claim exactly when it has been handed out 20 times |
| BalanceEpochs.HistoryAfter | internal/db/balances_revert.go:86-160 | outside flushes a history row goes exactly when its block is reverted or pruned, and none comes or changes |
| BalanceEpochs.RequestAfter | internal/db/balances_revert.go:293-307 | a committed revert opens a request at its epoch for exactly the keys it touched or had a row of; a claim counts its hand-outs and closes those handed out 20 times; nothing else but a flush changes one |
| BalanceEpochs.RequestAfterFlush | internal/db/batch.go:934-964 | a flush opens again, at its epoch, exactly the requests of keys it read too early, closes those it keeps a read for, and leaves the others |
| BalanceEpochs.AnswerIsStored | internal/db/batch.go:1118-1125 | a flush that answers a request stores a history row for it exactly when it keeps a read of the key at a block the history keeps |
| BalanceEpochs.PrunedAnswerStoresNothing | internal/db/sql/balances_insert.sql:13-18 | the exception: an answer at a pruned block closes the request and stores no history row |
| BalanceStore.FilterReads | internal/db/batch.go:934-957 | the switch over the reads gives the kept reads in order, the keys answered and the keys too late |
| BalanceStore.InsertHistory | internal/db/sql/balances_insert.sql:13-18 | rows below the first retained block are left out, and a repeated key and block is last-write-wins |
| BalanceStore.Balances.constructor | internal/indexer/balance_rereads.go:22-35 | the store before the first revert meets the invariant |
| BalanceStore.Balances.SetEpoch | internal/indexer/balance_worker.go:140-148 | the pool's epoch only moves forward |
| BalanceStore.Balances.StampWork | internal/indexer/balance_worker.go:150-159 | new work carries the pool's epoch |
| BalanceStore.Balances.FlushBatch | internal/db/batch.go:903-964 | the history and the requests after a flush, in place, with the invariant kept |
| BalanceStore.Balances.ClaimRereads | internal/db/balances_revert.go:415-450 | the requests after a claim, the reads it hands out, and exactly the requests it drops |
| BalanceStore.Balances.RevertBlock | internal/indexer/balance_rereads.go:78-94 | a revert from the epoch gate to its release, committed or lost, is a run of the protocol: a committed one takes exactly its block's rows off the history and opens a request for exactly the keys it touched or took a row of, a lost one changes neither; afterwards the pool stamps the latest epoch unless it could not be read |
| DedupWindow.NothingLost | internal/indexer/balance_worker.go:262-327 | after any arrivals and forwards, the greatest read of a key among those forwarded and the one held is the greatest that arrived |
| DedupWindow.NothingInvented | internal/indexer/balance_worker.go:262-327 | every read held or forwarded has the key, epoch and block of one that arrived |
| DedupWindow.AlwaysValid | internal/indexer/balance_worker.go:262-327 | each held key is queued exactly once, in every run |
| DedupWindow.Coalescer.ForwardFirst | internal/indexer/balance_worker.go:275-287 | the oldest held key is forwarded, in place |
| DedupWindow.Coalescer.Take | internal/indexer/balance_worker.go:309-324 | arriving work is folded into the held key or opens a window, in place |
| DedupWindow.Coalescer.ForwardDue | internal/indexer/balance_worker.go:293-308 | a tick forwards the oldest keys until one is not due, and a closed queue forwards every held key |
| BalanceFlush.StableSort | internal/db/batch.go:882-895 | the result is in token, holder and block order, and reads of one key and block keep their arrival order |
| BalanceFlush.Collapse | internal/db/batch.go:999-1029 | a run keeps its last read |
| BalanceFlush.CollapsedDistinct | internal/db/batch.go:966-972 | after the collapse no key and block (for history) and no key (for current) is repeated, as one upsert statement demands |
| BalanceFlush.CollapseStores | internal/db/batch.go:995-1010 | the collapsed rows store the history that the arrivals store one at a time |
| BalanceFlush.CollapseUpserts | internal/db/batch.go:1012-1029 | the collapsed rows leave the current balances that the arrivals leave one at a time: the highest block, ties to the later |
| BalanceFlush.FlushTables | internal/db/batch.go:882-1082 | sort, filter, collapse and one statement per table end in the same history and current tables as the kept reads applied one at a time in arrival order |
| BalanceCache.FlushCachesExactly | internal/db/batch.go:974-980 | through any flush a current row stays the key's history row at the highest block exactly when the key's highest read is at a retained block, or there is none, or the current row is above it or already says the same |
| BalanceCache.RevertBalances | internal/db/balances_revert.go:86-160 | a revert takes exactly its block's rows off the history, sets every restored key to its remaining row at the highest block, or removes its current row when none remains, and leaves the cache of keys without a row at the block |
| BalanceCache.UnlockedKeyGoesStale | internal/db/balances_revert.go:38-46 | a key whose lock a revert could not take is left wrong exactly when the reverted block was its latest |
| BalanceScripts.NoDeadlock | internal/db/batch.go:982-994 | in every run of any number of flushes and reverts, each asking for its own sequence of locks, no chain of waits, for a holder or for an earlier waiter, comes back to where it started |
| BalanceScripts.SomeoneGoesOn | internal/db/batch.go:991-994 | in every state of every such run some transaction waits for nothing or for a lock that is free |
| BalanceScripts.EveryMoveAllowed | internal/db/batch.go:903-922 | every lock a flush or a revert asks for is above every ordered lock it holds, or a row whose guards it holds: nothing about a move assumes it |
| BalanceScripts.FlushIsSafe | internal/db/batch.go:903-1117 | the whole sequence of a flush is allowed: the revert lock shared, its sorted key locks, history and current rows, sorted token keys and tokens rows, requests |
| BalanceScripts.RoundIsSafe | internal/db/balances_revert.go:205-255 | each round of a revert's key locks is allowed from whatever its earlier waits and tries left it holding |
| BalanceScripts.LastReadIsSafe | internal/db/balances_revert.go:86-160 | so is all a revert writes after its last read of the keys, restoring only keys whose lock it holds |
| BalanceLocks.RowsNeverWait | internal/db/balances_revert.go:28-56 | a balance history, current or reread row is free whenever a flush or a revert asks for it, because a holder would hold a guard that clashes |
| BalanceScripts.InvRun | internal/db/batch.go:903-922 | every wait is above every ordered lock held, no two transactions hold clashing locks, and what each transaction has still to run is allowed, in every run |
| BalanceKeyLocks.SortedLockKeys | internal/db/holder_count.go:53-68 | the advisory keys of a set of pairs, strictly ascending, all of them and no others |
| BalanceKeyLocks.LockBalanceKeys | internal/db/balances_revert.go:205-255 | keys above every held one are waited for in order, lower ones only tried, which is the round of the lock sequences; a key is held afterwards exactly when its lock is |
| BalanceKeyLocks.LockRevertKeys | internal/db/balances_revert.go:58-92 | the loop that locks a reverted block's keys until a read shows none new: each round locks the keys it is the first to see, a key is locked exactly when its lock was held after its round, and the keys restored are exactly the locked ones that some read found a row for |
| TokenCounters.CountersExact | internal/db/batch.go:209-411 | in every interleaving of block writers (in order or not, seeding or not), flushes, rollbacks and reverts, every token row has transfer_count equal to its committed transfers and holder_count equal to its addresses with a positive current balance |
| TokenCounters.RowsExactly | internal/db/batch.go:537-584 | after every such run the tokens with a row are exactly those that had one and those that a committed writer created: reverts and rollbacks remove none |
| TokenCounters.EmptyIsExact | internal/db/holder_count.go:14-24 | a database with nothing in it meets the invariant the counters are kept by |
| TokenCounters.WrittenReady | internal/db/batch.go:586-621 | the row a writer stages, seeded or by delta, is right for the moment it commits |
| TokenCounters.KeepsReady | internal/db/batch.go:463-535 | what a writer has staged under its token keys stays right whatever commits meanwhile |
| TokenCounters.KeepsSound | internal/db/batch.go:982-994 | the old positivity a flush read under its key locks stays what is stored until it commits |
| TokenCounters.DeletedExact | internal/db/queries.go:284-338 | a revert leaves both counters exact, for keys set back to an older row and keys removed; neither floor at zero is reached |
| TokenCounters.MovementIsChange | internal/db/batch.go:1031-1082 | the sum of new minus old positivity over distinct keys is the change in the number of holders |
| TokenRows.HolderDeltas | internal/db/batch.go:1064-1082 | the per-token sums the upsert's rows add up to |
| TokenRows.CreateRows | internal/db/batch.go:537-584 | the rows that were not there are exactly those to seed |
| TokenRows.SeedRows | internal/db/batch.go:603-621 | a seeded row takes the counts on disk and no other row changes |
| TokenRows.AddDeltas | internal/db/batch.go:672-720 | each row that exists takes its delta; a delta without a row changes nothing |
| TokenRows.WriteTokenRows | internal/db/batch.go:537-720 | the token phases of a block write, in order |
| TokenRows.PhasesWriteRows | internal/db/batch.go:656-663 | what those phases leave is the row the counters must have once the writer commits: a seeded row does not count its own transfers twice |
| CommitLoop.ReceiptSkip.constructor | internal/indexer/indexer.go:804 | the head loop starts as if blocks had been recorded |
| CommitLoop.ReceiptSkip.TrySkip | internal/indexer/receipt_skip.go:38-58 | the attempts on a block, and a skip only on the tenth in a row that could be recorded |
| CommitLoop.ReceiptSkip.Remember | internal/indexer/prefetch.go:185-186 | the last block moved past and its hash |
| CommitLoop.ReceiptSkip.Recheck | internal/indexer/prefetch.go:135-147 | the remembered hash is dropped unless the node still has the block |
| CommitLoop.SkippedAfterTen | internal/indexer/receipt_skip.go:38-58 | nine attempts never skip a block, and the tenth skips it exactly when it could be recorded as missing |
| CommitLoop.LoopWalks | internal/indexer/prefetch.go:155-215 | a tick takes the blocks after its start in order up to the first it cannot: each extends the one before and was committed, or skipped, which at most one is; it records another fork exactly where the write of the block it stopped at found one, and the receipt state is the one those steps leave |
| CommitLoop.IndexPrefetched | internal/indexer/prefetch.go:155-215 | the sequential loop against the tick it specifies, block by block: cursor, commits, skips, receipt state and the stale block to revert |
| CommitPipeline.IndexPipelined | internal/indexer/prefetch.go:250-383 | for any depth and any answers, the pipelined loop ends in the tick the sequential loop ends in; what it accounts for is consecutive from the start and at most depth transactions (or one) are ever open |
| CommitPipeline.AlwaysAPrefix | internal/indexer/prefetch.go:245-249 | at every moment of its log the accounted blocks are those from the start on without a gap |
| CommitPipeline.AtEveryMoment | internal/indexer/prefetch.go:245-249 | at every moment the open transactions are within the peak |
| CommitPipeline.FinishOldest | internal/indexer/prefetch.go:271-296 | the oldest open block commits, or its failure leaves the tick the sequential loop leaves there |
| CommitPipeline.Abort | internal/indexer/prefetch.go:263-270 | every open transaction is rolled back and nothing else changes |
| CommitPipeline.Drain | internal/indexer/prefetch.go:297-305 | every open block is finished in order, or all after the first failure are rolled back |
| CommitPipeline.Direct | internal/indexer/prefetch.go:335-365 | an empty block or one to skip, with nothing open, is dealt with as the sequential loop does |
| CommitPipeline.OpenNext | internal/indexer/prefetch.go:367-379 | opening a block and finishing the oldest at depth changes nothing of what the tick will do |
| StandardMode.AlwaysLinked | internal/indexer/indexer.go:858-936 | in every run of ticks, reverts that fail or lose their acknowledgement, receipt skips, later fills and prunes, any two adjacent stored blocks from block 1 up are linked by hash, and a store linked only from a higher block up stays linked from there up |
| StandardMode.LoopLinks | internal/indexer/prefetch.go:155-215 | a committer started at a block whose hash it checks against, with nothing stored above, keeps the links |
| StandardMode.AnchorIsAnchored | internal/indexer/prefetch.go:76-133 | where a tick starts has nothing stored above it, and its hash is the one checked if it is stored |
| StandardMode.DetectReorg | internal/indexer/indexer.go:896-936 | the scan of the window, stopping at the first read that fails |
| StandardMode.ScanFindsDeepest | internal/indexer/indexer.go:881-893 | everything in the window that disagrees with the node is at the depth found or above it, and the block at that depth disagrees |
| StandardMode.ScanExactly | internal/indexer/indexer.go:881-936 | the check gives a depth exactly when every read of the window answers: zero when the window agrees with the node, and otherwise down to the lowest block that does not |
| StandardMode.CheckReverts | internal/indexer/indexer.go:858-873 | a tick ends when a read of its check fails, goes on when the window agrees, and otherwise reverts everything from the lowest mismatch up, with the cursor to the block before it only if no delete reported an error |
| StandardMode.RevertedIs | internal/indexer/indexer.go:1085-1103 | a revert deletes what is above the first block whose delete reports an error, that block too if only its acknowledgement was lost, and nothing else |
| StandardMode.TickLands | internal/indexer/prefetch.go:155-231 | after a tick each block number holds what was stored there or else the block the tick wrote, and nothing from another fork it found up once that is reverted |
| StandardMode.CommittedExactly | internal/indexer/prefetch.go:155-231 | a tick's commits store exactly the blocks its walk wrote and record as missing exactly the one it skipped |
| StandardMode.HandleReorg | internal/indexer/indexer.go:1085-1103 | blocks deleted from the top down to the first error, an unacknowledged delete included |
| StandardMode.RevertedBelow | internal/indexer/indexer.go:1085-1103 | a revert that reports no error leaves nothing stored from its fork up |
| StandardMode.FillLinks | internal/indexer/standard_missing_retry.go:105-151 | a recorded block written between its stored neighbours keeps the links |
| StandardMode.FillsExactly | internal/indexer/standard_missing_retry.go:105-151 | a recorded block is stored exactly when it is read with its receipts, its stored neighbours fit it and its write succeeds, and no other block changes |
| StandardMode.LinksHoldExactly | internal/indexer/prefetch.go:80-82 | a tick's commits keep every link for every answer of the node exactly when they do not start at a stored block 0 of a chain indexed from block 0 |
| StandardMode.GenesisHoldsExactly | internal/indexer/prefetch.go:71-82 | blocks 0 and 1 are linked in every run exactly when they are at the start and block 0 is checked: the start block is above 0, or block 0 is neither stored nor recorded as missing |
| StandardMode.SomeRunBreaks | internal/indexer/prefetch.go:71-82 | from every other state some run of ticks and fills stores a block 1 that does not extend block 0 |
| StandardCover.AlwaysCovers | internal/indexer/prefetch.go:67-75 | in every run of ticks, fills and prunes in which no revert reports an error, each block from the start block, or the first retained one, to the cursor is stored or recorded as missing |
| StandardCover.EmptyStartsAtFirst | internal/indexer/prefetch.go:109-133 | a tick over an empty store starts just below the start block, or the first block retention keeps |
| StandardCover.FailedRevertLeaves | internal/indexer/indexer.go:1085-1103 | a revert that reports an error leaves no hole below any block it leaves |
| StandardCover.ResumesCoveredExactly | internal/indexer/prefetch.go:67-75 | after it the next tick starts with nothing missing below exactly when nothing was deleted or the cursor is not a skipped block whose hash is remembered |
| StandardCover.SkippedHashHidesAGap | internal/indexer/prefetch.go:92-94 | the exception: a block deleted below the remembered skipped block is neither stored nor recorded when the tick goes on over it |
| StandardLoop.CheckReorg | internal/indexer/indexer.go:858-873 | the reorg check of a tick and its revert |
| StandardLoop.IndexFrom | internal/indexer/indexer.go:875-879 | pipelined or not, the commits are the same tick |
| StandardLoop.Commit | internal/indexer/prefetch.go:155-231 | the state after a tick's commits, with the revert of another fork found stored |
| StandardLoop.StandardTick | internal/indexer/indexer.go:855-879 | a whole tick, which keeps the stored blocks from block 1 up linked, and blocks 0 and 1 too where block 0 is checked |
| StandardLoop.FillRange | internal/indexer/standard_missing_retry.go:43-54 | a recorded range tried in order, each block against what the ones before left, ending at its end, the cursor, the budget or the first block that cannot be filled; the links are kept |
| StandardLoop.RetryMissing | internal/indexer/standard_missing_retry.go:26-72 | a pass tries at most 20 blocks, keeps the links, and takes a number off the record only once its block is stored; every range below the cursor is worked while tries are left, and one left short stopped at a block that could not be filled then |
| Realtime.NeverPassesABlock | internal/indexer/realtime.go:220-292 | in every run of ticks, jumps, skips, reverts that succeed, fail part way or commit unacknowledged, catch-up and prunes, whenever no failed revert is pending each block from the start to the cursor is stored, handed to catch-up or pruned |
| Realtime.ResumedKeeps | internal/indexer/realtime.go:266-292 | the resume after a failed revert covers everything up to its new cursor |
| Realtime.JumpedKeeps | internal/indexer/realtime.go:329-355 | a jump hands over every block it passes, and never happens while a failed revert is pending |
| Realtime.ReorgedKeeps | internal/indexer/realtime.go:398-427 | a revert, whatever it leaves, can be resumed from |
| Realtime.TickHandles | internal/indexer/realtime.go:220-264 | a tick changes nothing when it cannot resume or a read of its check fails, indexes when the window agrees with the node, and otherwise stores nothing and reverts everything from the lowest mismatch, or leaves the revert pending there when it is refused or a delete reports an error |
| Realtime.IndexedExactly | internal/indexer/prefetch.go:155-231 | a tick that indexes stores exactly the blocks its walk wrote, hands to catch-up exactly the one it skipped and changes nothing else |
| Realtime.ResumesExactly | internal/indexer/realtime.go:266-292 | after a failed revert the cursor goes to the highest block still stored from its fork up, or to the block before the fork |
| Realtime.JumpsExactly | internal/indexer/realtime.go:329-355 | a jump happens exactly when the loop is further behind than allowed, no revert is pending and the node agrees with the whole window, and hands over exactly the blocks between |
| Realtime.IndexedLinks | internal/indexer/prefetch.go:155-215 | the blocks a tick stores are above the cursor and linked to each other, and the first to the stored cursor or to the skipped block remembered there |
| Realtime.ForgetsLostSkip | internal/indexer/prefetch.go:135-147 | a remembered skipped block the next block does not extend is forgotten exactly when the node no longer has it, and the next tick then takes any block |
| Realtime.RevertLeavesBelow | internal/indexer/realtime.go:418-424 | below any block a revert leaves it leaves every block |
| Realtime.CatchUpDuringFailedRevert | internal/indexer/realtime.go:266-270 | catch-up storing a block between the fork and the cursor while a failed revert is pending: the resume covers everything exactly when every block up to that one was still stored or handed |
| Realtime.ResumePassesLostBlocks | internal/indexer/realtime.go:281-284 | the exception: deleted blocks passed by the resume because catch-up stored one above them |
| RealtimeLoop.HandleReorg | internal/indexer/realtime.go:398-427 | the revert, refused when it would go deeper than 128 blocks |
| RealtimeLoop.RealtimeIndexer.constructor | internal/indexer/realtime.go:220-226 | a realtime start over any stored and handed blocks meets the invariant |
| RealtimeLoop.RealtimeIndexer.ResumeAfterFailedRevert | internal/indexer/realtime.go:271-292 | the cursor and failedRevertFrom after a resume, in place |
| RealtimeLoop.RealtimeIndexer.JumpIfFarBehind | internal/indexer/realtime.go:329-355 | the cursor and the handed blocks after a jump, in place |
| RealtimeLoop.RealtimeIndexer.IndexUpTo | internal/indexer/realtime.go:220-264 | the fields after a tick, in place, pipelined or not: what the check, the revert or the commits of the tick leave |
| RealtimeLoop.RealtimeIndexer.RunTick | internal/indexer/realtime.go:201-210 | a tick keeps the coverage |
| DailyRun.EachBlockCountsOnce | internal/db/daily_fold.go:135-171 | in every run of block writes in any order, reverts, off-lock counts, accepted and refused applies, locked folds and restarts, once no late day is left every aggregated day's counts, gas, transactions and block times are the sums over its stored blocks up to the watermark and every stored block up to it is on an aggregated day |
| DailyRun.InvRun | internal/db/daily_fold.go:19-24 | in every run a stored block the aggregate misses is on a noted late day, and a missed block time has one of its two blocks on one |
| DailyRun.AppliesUnlessReverted | internal/db/migrations/037_daily_stats_fold_generation.sql:9-47 | after any run of block writes, notes and reverts since a count, its apply writes the staged aggregate exactly when no revert was among them; otherwise nothing changes and the count is to be made again |
| DailyRun.ChangesRaiseGeneration | internal/db/migrations/037_daily_stats_fold_generation.sql:9-47 | in every run the generation never goes down, and whatever changes the aggregate raises it |
| DailyProgress.FoldUndisturbed | internal/db/daily_fold.go:135-171 | counts and applies with no writer between end, with every block that follows the watermark counted, no late day left and none incomplete, when no block is missing below the watermark |
| DailyProgress.AdvanceQuietly | internal/db/daily_fold.go:135-171 | so an undisturbed advance over a gapless store leaves no late day and every row a recount of its stored blocks |
| DailyAdvance.CountSound | internal/db/daily_fold.go:251-306 | a fold counted by the rules would leave the aggregate sound were it applied at once, and so stays with the blocks stored before it is applied |
| DailyAdvance.RevertSound | internal/db/queries.go:188-246 | a revert drops the block's day and later ones and keeps the aggregate sound |
| DailyAdvance.RevertWatermark | internal/db/queries.go:188-223 | after a revert the stored blocks above the watermark are exactly those that were above it and, if the block was counted, those of its day and later; while any block is counted the watermark is a stored block |
| DailyAdvance.SearchFinds | internal/db/daily_fold.go:432-461 | the search after a start finds the day of every block or block time the aggregate misses |
| DailyAdvance.CommitSound | internal/db/daily_fold.go:33-43 | a block committed below the watermark is one the note will record |
| DailyFold.AdvancedExact | internal/db/daily_fold.go:333-387 | adding the sums of the new blocks to their days keeps each row the sum over the blocks it counts |
| DailyFold.RecountedExact | internal/db/daily_fold.go:642-687 | recounting days from their blocks keeps each row the sum over the blocks it counts |
| DailyFold.TotalIs | internal/db/daily_fold.go:333-387 | a row's columns are the sums of gas, transactions and block times over its blocks, and their counts |
| DailyRecount.NextBlocks | internal/db/daily_fold.go:269-275 | the contiguous stored blocks above the watermark, up to the limit and no fewer |
| DailyRecount.WholeIsComplete | internal/db/daily_fold.go:486-519 | what the query takes for whole is exactly a complete day: its stored blocks up to the bound have no hole, and the block before and the block after them are stored unless the chain or the bound ends there |
| DailyRecount.AfterExactly | internal/db/daily_fold.go:486-519 | the day a recount carries into is that of the stored block next to the day's last one, if it is another day |
| DailyRecount.Classify | internal/db/daily_fold.go:486-519 | each late day is found complete exactly when it is, incomplete when it is not and has blocks, or empty, with the day after each complete one |
| DailyRecount.Grow | internal/db/daily_fold.go:535-542 | the group closed under the days its days carry into |
| DailyRecount.RecountDays | internal/db/daily_fold.go:472-556 | every given day is recounted with the days it carries into or left for later exactly when it is complete, left pending exactly when it is not and has blocks; the first of a recount is complete, and nothing is recounted exactly when none is |
| DailyRecount.CountFold | internal/db/daily_fold.go:255-306 | a count meets the rules the fold's soundness asks of one |
| DailyNotes.LateDays.constructor | internal/db/daily_fold.go:25-31 | the notes at a start are those of the run after a restart |
| DailyNotes.LateDays.NoteBlock | internal/db/daily_fold.go:33-43 | a block write's note is the run's: its day is noted exactly when the block is not above the watermark the last advance returned, also when the block was reverted before the note |
| DailyNotes.LateDays.Take | internal/db/daily_fold.go:45-53 | the advance takes over every late day of the run, none left noted |
| DailyNotes.LateDays.GiveBack | internal/db/daily_fold.go:55-67 | what an advance gives back is what the run needs noted: its incomplete days, or all it took when it did not get through them |
| DailyNotes.LateDays.Advanced | internal/db/daily_fold.go:69-76 | the watermark reported is the run's, so blocks at or below it are noted from then on |
| DailyChain.AlwaysChained | internal/db/daily_fold.go:284-302 | in every run of counts, applies, refusals, locked folds, reverts and restarts, every aggregated day's txs_before is the previous one's txs_before plus its txs |
| DailyChain.QuietCounts | internal/db/daily_fold.go:125-134 | once no late day is left, a day's txs_before is the first day's plus the transactions of every stored block between, each once, whatever order the blocks came in |
| DailyChain.CountMeetsRules | internal/db/daily_fold.go:251-305 | what a count returns meets the rules its fold is chained by, given only that each aggregated day has a counted block |
| DailyChain.SpannedDays | internal/db/daily_fold.go:558-572 | the days of the first and the last new block are the first and the last of the new days |
| DailyChain.ChainStep | internal/db/daily_fold.go:404-430 | each step keeps the aggregate, its rows and their counts of earlier transactions together, live and staged |
| DailyBefore.ChainSums | internal/db/daily_fold.go:618-636 | a chained day's count is the first day's and the transactions of every aggregated day before it |
| DailyBefore.FoldChains | internal/db/daily_fold.go:284-302 | after any fold, with one or several new days and with or without a recount, every aggregated day's txs_before is the previous one's txs_before plus its txs |
| DailyBefore.RewrittenChains | internal/db/daily_fold.go:618-636 | the running sums chain every day from the given one on to the days before |
| DailyBefore.StatementAloneMissesADay | internal/db/daily_fold.go:388-395 | the single statement gives the second of two new days the first one's count without its transactions, for every aggregate |
| DailyBefore.DroppingKeepsChain | internal/db/migrations/037_daily_stats_fold_generation.sql:27-32 | dropping the last days keeps the chain of the others |
| DailyRefill.InferFirsts | internal/db/daily_refill.go:277-305 | every day's first block, recorded or inferred, is the one the declarative rule gives |
| DailyRefill.DaySpans | internal/db/daily_refill.go:277-323 | the spans and the days left out in date order, and exactly the first blocks inferred |
| DailyRefill.PlacedOnce | internal/db/daily_refill.go:306-321 | every day is in exactly one of the spans and the days left out |
| DailyRefill.InferredWidth | internal/db/daily_refill.go:269-276 | an inferred day's span is exactly its total_blocks |
| DailyRefill.SpansMeet | internal/db/daily_refill.go:316-317 | the spans of neighbouring days meet |
| DailyRefill.NewestEndsAtWatermark | internal/db/daily_refill.go:306-321 | the newest day has a span exactly when its first block is known and not above the watermark, and the watermark's block is then the last block of it |
| DailyRefill.UnknownExactly | internal/db/daily_refill.go:271-276 | a day is inferred exactly when it lies between two recorded days, on consecutive dates with none recorded between, whose totals land on the second's first block |
| DailyAddresses.TotalsAgree | internal/db/daily_refill.go:390-395 | the running sums are the direct counts of first_seen below each day's end |
| DailyAddresses.NewAgree | internal/db/daily_refill.go:374-399 | with spans that do not overlap, the placed new addresses are the direct counts of first_seen within each day |
| DailyAddresses.OnePassExactly | internal/db/daily_fold.go:589-599 | the one pass gives the direct counts for all addresses exactly when no span begins before an earlier one ends |
| DailyAddresses.SpansRise | internal/db/daily_refill.go:306-321 | when the days' first blocks increase, the spans of daySpans rise and do not overlap |
| SpanTotals.AddBlock | internal/db/span_totals.go:36-78 | a block added to a span's totals is the totals plus what the block contributes on its own; it fails exactly on an ERC-20 value that is not a number, with the counts and the transfers up to that one already added |
| SpanTotals.TokenShare | internal/db/span_totals.go:42-63 | a token's share of a block is the count of its transfers and the ERC-20 values sent from the zero address minus those sent to it |
| SpanTotals.FoldSplits | internal/db/backfill.go:373-419 | a range counted in two parts and added up is the range counted at once, least first_seen and greatest last_seen included |
| SpanContents.FoldAddress | internal/db/span_totals.go:64-76 | an address is in a range's totals exactly when a block of it lists the address, with the sums of its counters over those blocks and the first and the last of them |
| SpanContents.FoldToken | internal/db/span_totals.go:42-63 | a token is in a range's totals exactly when a transfer of it is, with the number of them and the mints minus the burns |
| SpanContents.FoldCounts | internal/db/span_totals.go:36-41 | a range's blocks, transactions and transfers are the sums over its blocks |
| StatsBackfill.Build | internal/indexer/stats_backfill.go:113-174 | a batch built from scratch or from what a failed attempt left holds the same share of each span it touches |
| StatsBackfill.Backfiller.Batch | internal/indexer/stats_backfill.go:113-174 | a failed batch keeps what it built, and a batch whose blocks all build succeeds |
| StatsBackfill.CommitSpan | internal/db/backfill.go:207-221 | one span's share staged, and the whole moved into the ledger when the batch reaches its end |
| StatsBackfill.CommitSpans | internal/db/backfill.go:201-222 | the batch's spans in order, and the one left open |
| StatsBackfill.CommitBatch | internal/db/backfill.go:165-251 | a batch that is not the next one is refused and changes nothing; the next one lands whole and keeps the ledger exact |
| StatsBackfill.Conservation | internal/indexer/stats_backfill.go:297-329 | for any batch sizes, failed attempts and resumes, once the progress reaches the target the closed spans are exactly the grid cut at target + 1, each the sum over its own blocks, and nothing is left open |
| StatsBackfill.LedgerContents | internal/indexer/stats_backfill.go:297-329 | what the closed spans then hold, said over the blocks alone: counters, addresses with their first and last block, and tokens with their supply |
| StatsBackfill.SpanLoIsRemainder | internal/indexer/stats_backfill.go:101-105 | the start of the span holding a block is the block less its remainder by the span size |
| StatsBackfill.EachBlockInOneSpan | internal/indexer/stats_backfill.go:101-105 | every block up to the target is in exactly one span of the grid |
| StatsBackfill.AtMostOneOpen | internal/db/backfill.go:206-221 | at every point of every run at most one span is staged, and it is the one recorded as open |
| HistoryPartitions.CreateInGap | internal/db/retention.go:177-203 | a range is created exactly when it starts at or above the first retained block and overlaps none, and ranges stay disjoint |
| HistoryPartitions.FindGaps | internal/db/retention.go:116-150 | the gaps are disjoint, hold no block of any range, and with the ranges cover everything from the first retained block to the highest end; none while a range is unbounded |
| HistoryPartitions.FillGap | internal/db/retention.go:155-173 | only the lowest chunk of a gap is short, and undisturbed the chunks fill it |
| HistoryPartitions.FillHistoryGaps | internal/db/retention.go:112-175 | under any prunes and drops between creates, ranges stay disjoint, none is created below the first retained block of that moment and only the lowest chunk of a gap is short; undisturbed, every block from there to the highest end is covered |
| HistoryPartitions.ExactlyOne | internal/db/retention.go:102-107 | a covered block is in exactly one range |
| HistoryPartitions.EnsurePartitions | internal/db/retention.go:212-240 | ranges are added above the highest without a gap until one ends beyond the bound or 32 are made |

## Left out

- BalanceEpochs.EveryFlushIsFresh: covers history writes (`InsertBalancesBatch`); the stats backfill's current-only writes (`InsertCurrentBalances`) take no part in the epoch protocol of the model, and one revert is under way at a time, as its exclusive lock makes it.
- BalanceScripts.NoDeadlock: speaks of history flushes and reverts; current-only flushes (`InsertCurrentBalances`), the claim of rereads, block writers' `nft_tokens`, `address_stats` and `chain_counters` rows and the rows a revert takes after the tokens are not in the lock model, and a lock key is any function of the (token, holder) pair rather than FNV-1a.
- TokenCounters.CountersExact: a revert is one step and does not overlap the writing of a token it touches; `total_supply`, its clamp at 78 digits and the order in which a writer takes its token keys are not modelled.
- StandardMode.AlwaysLinked: takes a failed block write as not committed, and the node as never answering with the zero hash, which the code reads as no hash; on-demand block requests are not modelled.
- BalanceScripts.NoDeadlock: the rows a transaction writes and the keys a revert's reads show are any that its code could meet, not derived from the tables.
- Realtime.NeverPassesABlock: catch-up leaves the blocks a failed revert is still to be resumed from alone; catch-up's own queue and range deletions are a set of blocks handed over.
- DailyRun.EachBlockCountsOnce: no pruning, blocks whose days do not decrease with their numbers, and no `daily_stats` row without an aggregate below the watermark; gas price, size, status and active-address columns follow the same sums and are not repeated; the first watermark is any number.
- DailyRun.EachBlockCountsOnce: the retry and stall counters of `fold` are represented by the freedom to count, apply, be refused, fold under the lock or give up in any order.
- DailyRun.AppliesUnlessReverted: an apply also refuses when the pruned height or the pending `first_seen` moves changed, which the model does not track.
- DailyChain.QuietCounts: the count of transactions before the earliest aggregated day is a parameter.
- SpanTotals.AddBlock: the block itself is always present.
- SpanContents.FoldAddress: a block's address deltas carry the block's own number.
- DailyProgress.AdvanceQuietly: nothing is written between the advance's steps, and every write has been noted.
- AddressCounters.NeverNegative: each batch is applied to what it read earlier in the same run.
- DailyRefill.DaySpans: block numbers and totals are unbounded, so the sum of totals does not wrap at 64 bits.
- StatsBackfill.Conservation: a block's data is what its committed build counted; strict and lenient builds, daily parts, shared rows and balance keys of a batch are not modelled, and the span size does not change.
- HistoryPartitions.FillHistoryGaps: the caller holds `ensureMu`, so only prunes and drops come between its creates.
- StandardLoop.RetryMissing: the doubling pause of a range that fails and a failed update of the record, which leaves it whole, are not modelled.
- `is_contract`, `SkipAddressStats`, the span rebase (`rebasePendingSpans`, `rebaseSpans`) and contract rows.
- The start checks of the stored head (`checkStoredHead`, `revertStaleHead`) and the wipe for a re-index.
- Balance reads without workers, batched readers, queue drops and shutdown drains.
- gRPC handlers, search, cursors, plain queries, RPC clients, archives, metrics, logging and configuration: they read and pass on what the protocols above keep.
- Postgres itself: MVCC, lock timeouts, `DETACH CONCURRENTLY` and index builds.
