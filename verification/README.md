# Multichain indexer: verified core

A Dafny model of the multichain indexer's ledger and of the pipeline that feeds it, with proofs. Check
everything with `dafny verify dfyconfig.toml`.

## What is modelled

**The ledger.** `Ledger` holds the serving tables of one chain and network: stored balance events,
balances, transactions, indexed blocks and the watermark. `EventStore` and `BalanceStore` give the SQL
statements their meaning. An `UPDATE .. FROM` takes only one of several joined rows, whichever the
database picks, so the bulk adjustment is a relation between tables and not a function. `EventBuilder`
is the in-memory phase of a batch, and `BatchTrace` says of the events alone which of them it records. `LedgerSteps` defines the transactions and the exact conservation
law they obey, `LedgerRuns` lifts it to whole runs, and `PurgeLaws`, `PurgeForms` and `BulkExactness`
prove what purge undoes, that its two forms agree, and precisely when the bulk statement is harmless.
`TableLaws` says what each transaction does to the rows of every table.
`Database` is the same ledger as an object whose methods update it in place, and `Retry` adds the
ingester's retry loop with the watermark probe after an unclear commit; `Commits` says when a batch can
be written at all.

**The pipeline protocol.** `BlockScan` covers the coordinator's range, the fetcher's chunks and the
normalizer's cursor. `ScanRuns` proves what the watermark then guarantees, within a job and over runs of
ticks and stops. `Interleaver` is the cross-chain commit turn-taking as atomic steps over its clients.
`ReorgDetector` and `ReorgLaws` are the reorg check, its cache, and the loop of checks and purges.

**Canonicalization.** `Identity` and `Signatures` treat hashes and scanned signatures, `EventCanon`,
`SolanaCanon` and `InstructionPaths` the decoded events of EVM chains, BTC and Solana, with `FeeLaws` and
`SurvivorLaws` on what becomes of their fields and which of them survive. `Coverage`, `CoverageLaws` and
`CoverageFields` are the merge of two decoded results.

**The address index.** `Bloom`, `Cache` and `AddressIndex` are the bloom filter, the sharded LRU cache and
the three tiers over the database.

`Sums`, `Text`, `KeepBest` and `Paging` hold the shared mathematics: sums over finite maps, ASCII strings
and their byte order, deduplication by key, keyset paging.

## Where the code differs from what its comments or names promise

The model follows the code. Each point is a lemma with a concrete input, and the condition under which
the promise does hold is proved exactly.

- Ingest is not idempotent. Balances move whether or not the upsert stored anything
  (`ReplayMovesBalanceTwice`). The ledger stays balanced for fresh events, and for a one-event batch only
  for them (`LedgerLaw`, `BatchIsExact`, `FreshnessIsExact`).
- An event with no finality state ranks as finalized in Go and as weakest in the database
  (`UnsetFinalityMovesBalanceUnrecorded`). Freshness covers this case.
- The bulk balance statement drops items when an adjustment list names a row twice
  (`BulkPurgeReversesOnlyOne`, `BulkPromotionAddsOnlyOne`, `BulkIngestAddsOnlyOne`). `BulkPurgeIsExact`,
  `BulkPromotionIsExact` and `BulkIngestIsExact` say when it does not.
- The probe after an unclear commit can report a lost batch as committed when the batch's sequence is not
  above the stored watermark (`LostCommitIsTrusted`, `TrustIsExact`).
- Intermediate chunks do move the watermark, because the normalizer raises the cursor the fetcher held
  back (`IntermediateChunkAdvances`). A stop in the middle of a block loses the rest of that block
  (`SameBlockSignatureLost`).
- A signature that does not decode is dropped for good once the watermark passes it
  (`UndecodedSignatureLost`). `StopIsSafeExactly` and `RunIsCompleteExactly` say which stops lose nothing.
- A watermark of 0, as a purge from block 1 leaves it, counts as none: the next scan jumps to the lookback
  window and skips what lies below it for good (`RewoundToZeroSkips`, `RunIsCompleteExactly`).
- The reorg check turns its list newest first only when it is longer than the check depth, so the block it
  always asks for is otherwise the oldest one (`TipIsFirstExactly`). A newest block that was verified once
  and has been replaced since goes unnoticed (`ReplacedTipIsMissed`, `QuietIsExact`, `QuietProvesExactly`).
- A block that agrees with the chain can be the one emitted (`AgreeingChildEmitted`,
  `AgreeingEmittedExactly`).
- BTC hash canonicalization is not idempotent (`BTCNotIdempotent`, `BTCIdempotentExactly`), and there the
  single-pass signature filter differs from its three passes (`SinglePassIsExact`).
- Deltas of which only some parse compare in a circle, and the survivor then depends on the order of
  the events (`MixedDeltasCycle`, `MixedDeltasDependOnOrder`, `OrderFreeExactly`).
- A fee amount with two leading signs, the second a minus, gets a canonical delta that is no number
  (`DoublySignedFee`, `FeeIsDebitExactly`).
- On BTC a merged alias can move its keeper to another coverage key (`BTCMergeMovesKeeper`,
  `PairCollapses`, `BTCMergeKeepsKeyExactly`).

## Model

| member | source | states |
|---|---|---|
| `EventStore.StatementIsFold` | internal/store/postgres/balance_event_repo.go:304-444 | a multi-row INSERT .. ON CONFLICT that does not abort stores exactly what folding the single-row upsert stores, from every table |
| `EventStore.BulkUpsertIsFold` | internal/store/postgres/balance_event_repo.go:161-175 | the same for the whole bulk upsert, whatever the batch size and chunking |
| `EventStore.BulkUpsertExact` | internal/store/postgres/balance_event_repo.go:304-329 | for distinct non-empty event ids chunking neither aborts nor changes anything: the bulk path is equal to the fold, failures included |
| `EventStore.RowHistory` | internal/store/postgres/balance_event_repo.go:48-150 | over every sequence of upserts a stored row keeps its identity columns, its finality rank becomes the maximum offered, its applied flag never reverts and its block cursor never decreases |
| `EventStore.StoreOrder` | internal/store/postgres/migrations/020_perf_optimizations.up.sql:2-10 | which stored state an arriving one may replace: finalized before safe before confirmed before pending before all others |
| `BalanceStore.AdjustAllAmount` | internal/store/postgres/balance_repo.go:26-40 | adjusting item by item moves every amount by the sum of the deltas for it, for any list and any starting rows |
| `BalanceStore.OrderIrrelevant` | internal/store/postgres/balance_repo.go:148-227 | sums, counts and newest cursors per key do not depend on the order of the items |
| `BalanceStore.BulkOrderIrrelevant` | internal/store/postgres/balance_repo.go:175-227 | the possible outcomes of the bulk statement do not depend on the order of the unnested arrays |
| `BalanceStore.BulkIsAdditiveOnDistinctKeys` | internal/store/postgres/balance_repo.go:148-227 | on distinct keys the UPDATE .. FROM plus INSERT statement has exactly one outcome: the fold of AdjustBalanceTx over the list in any order (amounts, cursors, hashes and owners) |
| `BalanceStore.BulkLoss` | internal/store/postgres/balance_repo.go:186-201 | what the bulk statement fails to add under a key: nothing for a lone item, otherwise all of its items but one |
| `BalanceStore.BulkExactlyAdditive` | internal/store/postgres/balance_repo.go:148-227 | the bulk statement adds every item, in all of its outcomes, if and only if items that share a key all have delta zero |
| `EventBuilder.BuildEventModels` | internal/pipeline/ingester/ingester.go:807-1030 | the in-memory accumulation loop computes the specification fold, including skipped events, auto-denial and the overflow abort, and the denials learned up to that point |
| `BatchTrace.BuildIsExact` | internal/pipeline/ingester/ingester.go:807-1030 | which events become models, said of the batch alone: known token and transaction, contract not denied and none of its earlier known events dropped, and native, on BTC, or unhinted and not negative or of a balance that exists by then; the models are their rows in order, the contracts learned are those of the other known events, and the loop stops early only at such an event whose new balance takes more than 78 digits |
| `BatchTrace.TraceIsUnique` | internal/pipeline/ingester/ingester.go:807-1030 | those conditions leave exactly one choice of events |
| `BatchTrace.PrefetchIsTable` | internal/pipeline/ingester/ingester.go:755-800 | what is prefetched for an event is its balance row: amount and existence |
| `EventBuilderLaws.BuiltBatch` | internal/pipeline/ingester/ingester.go:807-1030 | every batch: each event's before-balance is the prefetched amount plus the applied deltas before it, and the aggregated deltas per balance, summed over wallets and organizations, equal the applied deltas of the models |
| `EventBuilderLaws.SuccessiveEventsChain` | internal/pipeline/ingester/ingester.go:836-974 | the before-balance of an applied event is the after-balance of the previous applied event on the same balance |
| `EventBuilderLaws.LastEventMatchesAggregate` | internal/pipeline/ingester/ingester.go:836-1022 | the last after-balance of a balance key is its prefetched amount plus the aggregated deltas |
| `EventBuilderLaws.DeniedContributesNothing` | internal/pipeline/ingester/ingester.go:828-834 | once a contract is denied, all its later events can be dropped without changing the batch |
| `EventBuilderLaws.AutoDenyCutsOffContract` | internal/pipeline/ingester/ingester.go:845-865 | an event of a token that is not native, off BTC, that carries a scam hint or takes from a balance not known to exist is dropped itself and cuts off the rest of its contract |
| `EventBuilderLaws.ItemsTotal` | internal/pipeline/ingester/ingester.go:1050-1065 | whatever order the map iteration takes, the adjust items for a key add up to its aggregated deltas |
| `LedgerSteps.BuildReversalAdjustItems` | internal/pipeline/ingester/ingester.go:1557-1594 | the reversal loop builds one negated item per applied event and a staked item per staking event, in order |
| `LedgerSteps.BuildPromotionAdjustItems` | internal/pipeline/ingester/ingester.go:1596-1627 | the promotion loop builds the forward items of the promoted events, in order |
| `LedgerSteps.IngestLaw` | internal/pipeline/ingester/ingester.go:1034-1127 | a committed batch moves the gap between balance and stored events by exactly its phantom deltas minus what the balance statement lost |
| `LedgerSteps.ReversalLaw` | internal/pipeline/ingester/ingester.go:1157-1223 | deleting any set of rows and reversing them leaves that gap as it was, save for what the reversal lost |
| `LedgerSteps.PromotionLaw` | internal/pipeline/ingester/ingester.go:1259-1363 | the same for finality promotion |
| `LedgerSteps.StepLaw` | internal/pipeline/ingester/ingester.go:1034-1363 | conservation, exactly, for every transaction, every database choice and every starting state |
| `TableLaws.IngestRows` | internal/pipeline/ingester/ingester.go:1034-1102 | stored transactions keep their block, batch blocks replace stored ones, and the watermark becomes the greater of the two sequences |
| `TableLaws.AggregatesAligned` | internal/pipeline/ingester/ingester.go:975-1022 | there is an aggregated delta exactly for every balance and owner an applied model counts for, with the cursor and transaction of a newest such model |
| `TableLaws.IngestOwners` | internal/store/postgres/balance_repo.go:148-227 | an ingest leaves the owner of an existing balance row alone, and a row it creates belongs to the owner of an applied event of that balance |
| `TableLaws.PromotionOwners` | internal/pipeline/ingester/ingester.go:1286-1302 | a promotion keeps the owner of every balance row, and a row it creates belongs to an event it has just applied |
| `TableLaws.PurgeOwners` | internal/pipeline/replay/service.go:174-224 | a purge keeps the owner of every balance row, and a row it creates belongs to an applied event it deletes |
| `TableLaws.AdjustedStamp` | internal/store/postgres/balance_repo.go:186-227 | an adjusted row carries the transaction of one of the items for it and no other row is touched |
| `TableLaws.PromotionRows` | internal/pipeline/ingester/ingester.go:1259-1363 | promotion makes exactly the tracked events up to the block finalized and applied, and changes nothing else about any event |
| `TableLaws.PromotionBlocks` | internal/store/postgres/indexed_block_repo.go:149-160 | exactly the blocks up to the given one become finalized, with their hashes kept |
| `LedgerRuns.RunLaw` | internal/pipeline/ingester/ingester.go:489-610 | the conservation law summed over every run of ingest, promotion, purge and drift rollback |
| `LedgerRuns.LedgerLaw` | internal/pipeline/ingester/ingester.go:807-1363 | over every run whose ingests are fresh, in every state, each liquid balance is the sum of its stored applied deltas and each staked balance minus that sum over staking events |
| `LedgerRuns.BatchIsExact` | internal/pipeline/ingester/ingester.go:1041-1065 | a batch of any size keeps a balanced ledger balanced if and only if its models leave no phantom delta in the table it meets |
| `LedgerRuns.DistinctBatchIsExact` | internal/pipeline/ingester/ingester.go:1041-1065 | for distinct event ids that is a condition on the table before the batch alone: per balance, what the models would each leave unrecorded in it adds up to nothing |
| `LedgerRuns.FreshnessIsExact` | internal/pipeline/ingester/ingester.go:1041-1065 | freshness is necessary as well: for a one-event batch that condition is freshness of the event |
| `LedgerWitnesses.ReplayMovesBalanceTwice` | internal/pipeline/ingester/ingester.go:1041-1065 | a concrete replayed event that moves the balance a second time |
| `LedgerWitnesses.UnsetFinalityMovesBalanceUnrecorded` | internal/store/postgres/migrations/020_perf_optimizations.up.sql:2-10 | the Go ranking and the database ranking of an unset finality disagree: a concrete event that moves the balance while its row stays as it was |
| `LedgerWitnesses.BulkPurgeReversesOnlyOne` | internal/store/postgres/balance_repo.go:186-201 | two applied events of one balance purged by the bulk statement: no event is left, 7 of 12 units are |
| `LedgerWitnesses.BulkPromotionAddsOnlyOne` | internal/pipeline/ingester/ingester.go:1286-1302 | two pending events of one balance promoted by the bulk statement: both rows end up applied and only one delta is added |
| `LedgerWitnesses.BulkIngestAddsOnlyOne` | internal/pipeline/ingester/ingester.go:906-1022 | a block-scan batch with two events of one unwatched address and two watched counterparties: both events are stored as applied and only one delta is added |
| `PurgeLaws.PurgeUndoesIngest` | internal/pipeline/replay/service.go:158-268 | after any batches at or above a block, purging from it always restores transactions, blocks and the watermark; it restores the event table if and only if no batch event took over an older row; amounts are then off by exactly the excess of the run |
| `TableLaws.PurgeRows` | internal/pipeline/replay/service.go:158-268 | a purge deletes exactly the events, transactions and blocks from its block on and sets the watermark to the block before, or to 0 |
| `TableLaws.RollBackRows` | internal/pipeline/ingester/ingester.go:1427-1480 | a drift rollback deletes exactly the events from the fork on, of one watched address or of all, and rewinds likewise |
| `TableLaws.RewoundIsRescanned` | internal/pipeline/replay/service.go:256-263 | after a purge or rollback from above block 1 the next job starts at the purged block |
| `TableLaws.RescanIsExact` | internal/pipeline/coordinator/coordinator.go:385-413 | and in general the next scan starts at or below it if and only if it is above block 1, there is no lookback, or it lies inside the lookback window |
| `PurgeLaws.PurgeRestores` | internal/pipeline/replay/service.go:158-268 | purge undoes ingest, for every sequence of fresh batches, re-deliveries included: watermark, transactions and blocks come back; the events come back if and only if no batch event took over an older row; and then every amount comes back |
| `PurgeLaws.ForeignBatchesAreUndone` | internal/pipeline/replay/service.go:158-268 | in particular everything comes back when no batch mentions an event id stored at the start |
| `PurgeForms.SplitReversals` | internal/pipeline/replay/service.go:181-213 | the service's loop splits the reversals into the liquid and the staked ones, in order |
| `PurgeForms.PurgeFormsAgree` | internal/pipeline/replay/service.go:158-268 | the replay service's purge and the ingester's inline purge have the same outcomes from every state, down to every balance row, whatever order each reads in |
| `PurgeForms.PurgeFormsAgreeAdditively` | internal/pipeline/ingester/ingester.go:1157-1223 | the same amounts when the adjustments are carried out item by item |
| `PurgeForms.BulkPurgeIsExact` | internal/pipeline/replay/service.go:180-224 | through the bulk statement a purge keeps a balanced ledger balanced, in all outcomes, if and only if no two applied purged events share an address and token unless they moved nothing |
| `BulkExactness.BulkPromotionIsExact` | internal/pipeline/ingester/ingester.go:1286-1302 | through the bulk statement a promotion keeps a balanced ledger balanced, in all outcomes, if and only if no two rows it will promote share an address and token unless they move nothing |
| `BulkExactness.BulkIngestIsExact` | internal/pipeline/ingester/ingester.go:1050-1065 | for a fresh batch: if and only if no balance has non-zero deltas under two wallet and organization pairs |
| `Paging.FetchRollbackBatch` | internal/pipeline/replay/service.go:338-380 | a page holds the smallest ids after the last one, ascending, and is short only when nothing is left |
| `Paging.FetchRollbackEvents` | internal/pipeline/replay/service.go:315-336 | the paging loop terminates and returns every matching row with a non-nil id exactly once, ascending |
| `Paging.PagingCoversPurge` | internal/pipeline/replay/service.go:354-358 | with no nil id stored that is every row of the purge |
| `Database.Store.UpsertTx` | internal/store/postgres/balance_event_repo.go:48-150 | one event: refused when its id is empty, otherwise the single-row statement |
| `Database.Store.UpsertRows` | internal/store/postgres/balance_event_repo.go:331-444 | the row-by-row effect of the statement, both when it succeeds and when it must abort |
| `Database.Store.BulkUpsertTx` | internal/store/postgres/balance_event_repo.go:161-329 | one statement for at most five events, otherwise one per 1500, tied to the specification with its failures |
| `Database.Store.BulkAdjustBalanceTx` | internal/store/postgres/balance_repo.go:148-227 | succeeds if and only if no missing row would be inserted twice, then reaches one of the statement's outcomes, and otherwise changes nothing |
| `Database.Store.UpdateWatermarkTx` | internal/store/postgres/indexer_config_repo.go:38-51 | the watermark becomes the greatest of the stored and the offered sequence and never falls |
| `Database.Store.RewindWatermarkTx` | internal/store/postgres/indexer_config_repo.go:56-69 | the watermark is set unconditionally |
| `Database.Store.WriteBatch` | internal/pipeline/ingester/ingester.go:1034-1102 | the phases of a batch up to its commit reach an ingest outcome, and do so if and only if the batch builds, its events can be stored and no missing balance row would be inserted twice |
| `Database.Store.PromoteFinality` | internal/pipeline/ingester/ingester.go:1259-1363 | one transaction over every promotable row: it commits a promotion outcome if and only if no missing balance row would be inserted twice, and otherwise changes nothing |
| `Database.Store.DeleteFrom` | internal/pipeline/replay/service.go:226-263 | the deletes and the rewind, with the row counts reported |
| `Database.Store.RollBackInline` | internal/pipeline/ingester/ingester.go:1145-1223 | the inline reorg rollback of every row from the fork on: a purge outcome if and only if no missing balance row would be inserted twice, and otherwise nothing changed |
| `Database.Store.ReversePaged` | internal/pipeline/replay/service.go:174-224 | paged read and two bulk calls amount to one reversal of every purged row, if and only if that has an outcome; otherwise the balances are untouched; the reported count is that of the liquid items |
| `Database.Store.ExecutePurge` | internal/pipeline/replay/service.go:158-268 | the service's purge as one transaction: done if and only if the reversal of all its rows has an outcome, with the row and item counts it reports; otherwise nothing changed |
| `Database.Store.PurgeFromBlock` | internal/pipeline/replay/service.go:78-156 | a finalized block is refused exactly when not forced; a preview is given exactly for a dry run that is not refused, with the counts and no change; otherwise the purge is done if and only if its reversal has an outcome |
| `Database.CollectItems` | internal/pipeline/ingester/ingester.go:1050-1058 | the adjust items in map iteration order |
| `Commits.InsertableInAnyOrder` | internal/pipeline/ingester/ingester.go:1050-1065 | whether the aggregated deltas can be written does not depend on the map iteration order: exactly when no missing balance row has two owners in the batch |
| `Commits.WritableExactly` | internal/pipeline/ingester/ingester.go:1034-1102 | some transaction can write a batch if and only if it builds, its events can be stored, and no missing balance row has two owners in it |
| `Retry.Ingester.ProcessBatch` | internal/pipeline/ingester/ingester.go:1104-1127 | one attempt: a batch that cannot be written fails, another is committed, refused, or left unclear and then probed |
| `Retry.Ingester.ProcessBatchWithRetry` | internal/pipeline/ingester/ingester.go:277-319 | the retry loop's result is one the attempt-by-attempt specification allows |
| `Retry.AtMostOnce` | internal/pipeline/ingester/ingester.go:277-319 | whatever mix of transient failures, refusals and unclear commits occurs, at most one transaction takes effect, into the tables as they were; otherwise they are unchanged |
| `Retry.SuccessIsCommitted` | internal/pipeline/ingester/ingester.go:1664-1687 | a nil result means exactly one commit whenever the batch's sequence is above the stored watermark |
| `Retry.TrustIsExact` | internal/pipeline/ingester/ingester.go:1664-1687 | a nil result can be trusted if and only if the batch's sequence is above the stored watermark or no attempt, however many auto-denials it has learned, can write the batch |
| `Retry.UnwritableIsReported` | internal/pipeline/ingester/ingester.go:878-883 | a batch that no attempt can write is never reported as done |
| `Retry.LostCommitIsTrusted` | internal/pipeline/ingester/ingester.go:1664-1687 | the failing runs: early failures and then a lost commit whose probe reads the old watermark |
| `Retry.CommitIsRecognised` | internal/pipeline/ingester/ingester.go:1676-1678 | a commit that took effect is always recognised by a probe that answers |
| `Retry.RetryIsFirstAttempt` | internal/pipeline/ingester/ingester.go:277-319 | with nothing auto-denied, whichever attempt commits writes what the first would have |
| `Retry.RetryDropsContract` | internal/pipeline/ingester/ingester.go:845-865 | auto-denials survive the rollback: a retry after phase 3 drops even the earlier events of such a contract |
| `Interleaver.NextKeepsInv` | internal/pipeline/ingester/interleaver.go:65-170 | every atomic step keeps mutual exclusion, the waiting counts and a valid turn |
| `Interleaver.MutualExclusion` | internal/pipeline/ingester/interleaver.go:65-170 | in every state of every run: `active` is empty exactly when nobody holds the turn, at most one client holds it and `active` names it, and waiting[k] is the number of clients blocked on k |
| `Interleaver.DoubleRelease` | internal/pipeline/ingester/interleaver.go:152-170 | a second call of a release function changes nothing |
| `Interleaver.Progress` | internal/pipeline/ingester/interleaver.go:114-130 | with nobody active and a waiter whose deadline is unset or past, some waiter can acquire |
| `Interleaver.TurnFollowsCommits` | internal/pipeline/ingester/interleaver.go:163-168 | over every run the turn is just past the last committed release; uncommitted releases never move it |
| `Interleaver.RoundRobin` | internal/pipeline/ingester/interleaver.go:114-170 | if the preferred target has a waiter at each acquisition, the j-th committed release belongs to position (start + j) mod n |
| `Interleaver.RunsConverge` | internal/pipeline/ingester/interleaver.go:13-17 | two such runs with equally many commits have the same commit order and the same turn, whatever the arrival orders |
| `Interleaver.CommitInterleaver.constructor` | internal/pipeline/ingester/interleaver.go:43-63 | repeated targets keep their first position |
| `Interleaver.CommitInterleaver.Enter` | internal/pipeline/ingester/interleaver.go:65-85 | the entry part of Acquire, with the deadline; untracked keys pass through |
| `Interleaver.CommitInterleaver.TryAcquire` | internal/pipeline/ingester/interleaver.go:87-95 | one round of the waiting loop |
| `Interleaver.CommitInterleaver.CancelWaiter` | internal/pipeline/ingester/interleaver.go:143-150 | a cancelled waiter is no longer counted |
| `Interleaver.CommitInterleaver.Release` | internal/pipeline/ingester/interleaver.go:152-170 | the release closure, first and later calls |
| `ReorgDetector.GetUnfinalized` | internal/store/postgres/indexed_block_repo.go:95-125 | at most a thousand rows in ascending order, none of them finalized, and every block that is not finalized is listed or lies below a thousand listed ones |
| `ReorgDetector.Detector.VerifyParentHashChain` | internal/pipeline/reorgdetector/detector.go:213-244 | returns the first block in list order whose parent hash contradicts the listed parent, if any |
| `ReorgDetector.Detector.VerifyBlock` | internal/pipeline/reorgdetector/detector.go:248-294 | mismatch of hash or of a parent hash both sides carry; RPC errors are counted and reset |
| `ReorgDetector.Detector.VerifyAgainstNode` | internal/pipeline/reorgdetector/detector.go:159-204 | first block always asked for, others unless cached; the new cache |
| `ReorgDetector.Detector.Check` | internal/pipeline/reorgdetector/detector.go:121-206 | what a check emits and remembers, for every table, cache and node |
| `ReorgLaws.RememberedSound` | internal/pipeline/reorgdetector/detector.go:171-204 | while the chain stays as it is, the cache only holds canonical hashes, whatever errors occur and whatever is re-indexed |
| `ReorgLaws.QuietMeansAgreed` | internal/pipeline/reorgdetector/detector.go:155-206 | a quiet check with such a cache proves every examined hash |
| `ReorgLaws.QuietIsExact` | internal/pipeline/reorgdetector/detector.go:121-206 | for any cache and any node answers, a check is quiet if and only if every examined block is linked and each matches the node, or is cached and not first in the list |
| `ReorgLaws.QuietProvesExactly` | internal/pipeline/reorgdetector/detector.go:155-206 | a quiet check proves every examined hash if and only if no cached hash it relied on has gone stale |
| `ReorgLaws.TipIsFirstExactly` | internal/pipeline/reorgdetector/detector.go:139-157 | the block that is always asked for is the newest one if and only if the list is longer than the check depth or has one entry |
| `ReorgLaws.CachedStaysCached` | internal/pipeline/reorgdetector/detector.go:155-204 | a cached block that is not first stays cached through every quiet check, whatever the node answers |
| `ReorgLaws.ReplacedTipIsMissed` | internal/pipeline/reorgdetector/detector.go:155-206 | two checks of two blocks between which the chain replaces the newer one: the second is quiet although the newest hash is stale |
| `ReorgLaws.EmissionIsJustified` | internal/pipeline/reorgdetector/detector.go:121-206 | on a well-formed chain an emission means that the emitted block, or the examined block just below it, disagrees |
| `ReorgLaws.AgreeingIsQuiet` | internal/pipeline/reorgdetector/detector.go:121-206 | blocks that all agree with the chain never trigger an emission |
| `ReorgLaws.ExaminedAreDistinct` | internal/pipeline/reorgdetector/detector.go:127-145 | the blocks one check looks at have distinct numbers |
| `ReorgLaws.AgreeingEmittedExactly` | internal/pipeline/reorgdetector/detector.go:121-244 | exactly when a block that agrees with the chain is emitted all the same: it names a parent, an examined block just below it has a stale hash, and every block listed before it is in line |
| `ReorgLaws.AgreeingChildEmitted` | internal/pipeline/reorgdetector/detector.go:213-244 | a concrete block that agrees and is emitted, because of its stale parent |
| `ReorgLaws.Repair` | internal/pipeline/reorgdetector/detector.go:121-294 | checks alternating with forced purges end after at most one emission per unfinalized block, in a state where every block that is not finalized carries its canonical hash unless as many newer ones are unfinalized as one check looks at, and spare everything below the first disagreement; they give up only over rows whose reversal has no outcome, and never while every applied event has its balance rows, which they keep |
| `ReorgLaws.QuietCoversAll` | internal/pipeline/reorgdetector/detector.go:139-145 | when the unfinalized blocks fit one check, every block that is not finalized has a canonical hash after a quiet one |
| `ReorgLaws.QuietCoversWindow` | internal/pipeline/reorgdetector/detector.go:127-145 | otherwise each that is not among the newest ones a check looks at, counted in the table itself |
| `BlockScan.Coordinator.Tick` | internal/pipeline/coordinator/coordinator.go:371-451 | the range of the next job (watermark, lookback, head and batch size) and the suppression of a range already enqueued |
| `TableLaws.RangeMeans` | internal/pipeline/coordinator/coordinator.go:385-441 | a job starts right after a positive watermark, otherwise at the lookback window or block 0, and ends at the head or after the batch size, whichever comes first; there is none exactly when the watermark has reached the head |
| `BlockScan.ProcessBlockScanJob` | internal/pipeline/fetcher/fetcher.go:376-547 | the batches a job sends: a sentinel for an empty scan, otherwise the chunks, only the last with the newest signature as cursor |
| `BlockScan.ChunksPartition` | internal/pipeline/fetcher/fetcher.go:467-545 | chunking loses, repeats and reorders nothing and respects the size limit |
| `BlockScan.NormalizeCursor` | internal/pipeline/normalizer/normalizer.go:454-565 | the cursor loop, isolated decode failures, and the error when nothing decodes |
| `BlockScan.CursorIsHighest` | internal/pipeline/normalizer/normalizer_identity_decode.go:781-800 | the cursor ends at the highest of its starting sequence and the decoded ones |
| `BlockScan.CursorIsGreatest` | internal/pipeline/normalizer/normalizer_identity_decode.go:781-800 | and names the greatest hash decoded in that block |
| `ScanRuns.JobLaw` | internal/pipeline/fetcher/fetcher.go:440-547 | after any prefix of chunks every scanned signature strictly below the watermark is in a committed chunk, and exactly the decoding ones of those chunks are ingested; after the last chunk the watermark is the newest signature's block, or the end of an empty range |
| `ScanRuns.IntermediateChunkAdvances` | internal/pipeline/normalizer/normalizer.go:543-547 | every intermediate commit moves the watermark into the job's range |
| `ScanRuns.StopIsSafeExactly` | internal/pipeline/fetcher/fetcher.go:504-511 | stopping after any number of chunks loses nothing if and only if every signature at or below a decoding one of those chunks (every signature at all, once the job is done) is in them and decodes |
| `ScanRuns.SafeStopIsBlockBoundary` | internal/pipeline/fetcher/fetcher.go:504-511 | when everything decodes, that says that the chunk boundary is a block boundary |
| `ScanRuns.SameBlockSignatureLost` | internal/pipeline/fetcher/fetcher.go:504-511 | a concrete stop after which a signature is never scanned again |
| `ScanRuns.UndecodedSignatureLost` | internal/pipeline/normalizer/normalizer.go:483-541 | a concrete job that completes although a signature did not decode, and whose watermark passes it |
| `ScanRuns.SafeRunIsCovered` | internal/pipeline/coordinator/coordinator.go:385-441 | over every run of safe ticks, from any starting watermark or none, everything up to the watermark has been ingested |
| `ScanRuns.StartedTickIsSafeExactly` | internal/pipeline/coordinator/coordinator.go:385-395 | once the watermark is positive, a tick is safe if and only if it ends in a safe stop |
| `ScanRuns.RewoundToZeroSkips` | internal/pipeline/coordinator/coordinator.go:389-413 | a purge from block 1 leaves watermark 0, which counts as none: a concrete next scan jumps to the lookback window and passes a signature for good |
| `ScanRuns.LostForever` | internal/pipeline/coordinator/coordinator.go:385-395 | a signature a positive watermark passed without ingesting it is never ingested later |
| `ScanRuns.RunIsCompleteExactly` | internal/pipeline/coordinator/coordinator.go:385-441 | whatever the starting watermark, everything after it (after block 0 if it is not positive) and up to the last one is ingested if and only if every tick ended in a safe stop and skipped nothing, decode failures included |
| `Identity.IdentityIdempotent` | internal/pipeline/identity/identity.go:14-41 | off BTC canonicalizing an identity again changes nothing, for every input |
| `Identity.BTCIdempotentExactly` | internal/pipeline/identity/identity.go:19-25 | on BTC if and only if the body shows neither another prefix nor leading white space |
| `Identity.BTCNotIdempotent` | internal/pipeline/identity/identity.go:19-25 | two concrete hashes that canonicalization changes a second time |
| `Identity.HexIsSettled` | internal/pipeline/identity/identity.go:94-105 | hexadecimal bodies are always stable |
| `Identity.AddressIdempotent` | internal/pipeline/identity/identity.go:60-81 | addresses are stable on every chain |
| `Identity.SpellingsAgree` | internal/pipeline/identity/identity.go:11-41 | two spellings of a hexadecimal hash have one identity if and only if their digits agree up to case |
| `Identity.PlainIdentity` | internal/pipeline/identity/identity.go:14-43 | off EVM and BTC two hashes have one identity exactly when they are equal up to surrounding white space |
| `Identity.AddressSpellingsAgree` | internal/pipeline/identity/identity.go:60-82 | on EVM chains two spellings of a hexadecimal address are one exactly when their digits agree up to case |
| `Identity.PlainAddress` | internal/pipeline/identity/identity.go:60-82 | elsewhere addresses are compared as written, up to surrounding white space |
| `Signatures.CanonicalizeSignatures` | internal/pipeline/fetcher/fetcher.go:993-1024 | one sighting per identity, by the replacement rule, in chain order |
| `Signatures.FilterAndCanonicalize` | internal/pipeline/fetcher/fetcher.go:944-991 | the same in a single pass with cutoff and cursor |
| `Signatures.SuppressBoundaryCursor` | internal/pipeline/fetcher/fetcher.go:1026-1044 | every signature with the cursor's identity is dropped, the order kept |
| `Signatures.CanonicalMeans` | internal/pipeline/fetcher/fetcher.go:1138-1163 | sorted by sequence and hash, one entry per identity, nothing invented, the highest sequence and then the latest time of every identity |
| `Signatures.OrderInvariant` | internal/pipeline/fetcher/fetcher.go:993-1024 | the result depends only on which signatures were reported, not on their order or repetition |
| `Signatures.SinglePassIsThreePasses` | internal/pipeline/fetcher/fetcher.go:944-1044 | the single pass equals cutoff, canonicalization and cursor suppression one after the other, when identities are stable |
| `Signatures.SinglePassIsExact` | internal/pipeline/fetcher/fetcher.go:944-1044 | and only then: the forms agree for every cutoff and cursor if and only if every identity is stable |
| `Signatures.StableInputs` | internal/pipeline/identity/identity.go:14-41 | which inputs are stable, per chain |
| `EventCanon.Canonicalize` | internal/pipeline/normalizer/normalizer_balance_evm.go:478-533 | the deduplicating loop and the sort compute the fold, for all inputs, and a canonical list when each id's deltas are uniform |
| `EventCanon.CanonicalizeBaseEvents` | internal/pipeline/normalizer/normalizer_balance_evm.go:466-533 | the EVM canonicalizer: canonical fields, id and deduplication |
| `EventCanon.CanonicalizeBTCEvents` | internal/pipeline/normalizer/normalizer_balance_btc.go:51-112 | the BTC canonicalizer |
| `EventCanon.CanonicalMeans` | internal/pipeline/normalizer/normalizer_identity_decode.go:865-879 | strictly sorted by id, one event per id, none invented, and no input event replaces the one kept for its id |
| `FeeLaws.FeeDeltaMeans` | internal/pipeline/normalizer/normalizer_balance.go:395-427 | a canonical fee is minus the magnitude of the amount, or minus zero if the amount is no number; two leading signs are the one exception, spelled out |
| `FeeLaws.FeeIsDebitExactly` | internal/pipeline/normalizer/normalizer_balance.go:395-427 | a canonical fee is a number that is not positive if and only if the amount is not a sign, a minus and non-zero digits |
| `FeeLaws.DoublySignedFee` | internal/pipeline/normalizer/normalizer_balance.go:418-426 | concrete amounts such as +-5 whose canonical fee is no number |
| `FeeLaws.BaseEventsStem` | internal/pipeline/normalizer/normalizer_balance_evm.go:466-533 | every canonical EVM event stems from an input event field by field: fees debited, other deltas kept, identities canonical, the id that of its own path, address, asset and activity |
| `FeeLaws.BTCEventsStem` | internal/pipeline/normalizer/normalizer_balance_btc.go:51-113 | the same on BTC, where no delta changes |
| `FeeLaws.BaseFieldsSurvive` | internal/pipeline/normalizer/normalizer_balance_evm.go:466-533 | with an injective id hash every EVM input event's path, canonical address, asset and activity are in the output |
| `FeeLaws.BTCUtxoPath` | internal/pipeline/normalizer/normalizer_balance_btc.go:115-130 | on BTC an input or output without a path of its own is named by its kind and index |
| `SurvivorLaws.FirstIsKept` | internal/pipeline/normalizer/normalizer_identity_decode.go:865-879 | of several events with one id none comes before the kept one by action, contract and counterparty, whatever the deltas |
| `SurvivorLaws.SmallestDeltaSurvives` | internal/pipeline/normalizer/normalizer_balance.go:459-466 | and among those that agree on all three the smallest delta survives |
| `EventCanon.CanonicalizationIsOrderInvariant` | internal/pipeline/normalizer/normalizer_balance_evm.go:466-533 | ids, actions, contracts, counterparties and delta values do not depend on the order of the decoded events when each id's deltas all parse or all fail to |
| `EventCanon.OrderFreeExactly` | internal/pipeline/normalizer/normalizer_balance_evm.go:520-524 | whatever the deltas: the kept event of an id looks the same in every order of the input if and only if some view of the id dominates, every event with it replacing every event without it |
| `EventCanon.OutputOrderFreeExactly` | internal/pipeline/normalizer/normalizer_balance_evm.go:466-533 | the output as a whole ignores the order of the input if and only if every id has a dominant view |
| `EventCanon.UniformHasDominantView` | internal/pipeline/normalizer/normalizer_balance.go:459-466 | deltas that all parse, or all fail to, always have one |
| `EventCanon.MixedDeltasCycle` | internal/pipeline/normalizer/normalizer_balance.go:459-466 | the comparison of deltas is circular when only some parse |
| `EventCanon.MixedDeltasDependOnOrder` | internal/pipeline/normalizer/normalizer_balance.go:459-466 | a concrete triple of events whose survivor depends on their order |
| `SolanaCanon.CanonicalizeSolanaEvents` | internal/pipeline/normalizer/normalizer_balance.go:182-307 | preparation, owner detection, ownership collapse, deduplication and sort compute the specification |
| `SolanaCanon.OwnerSurvivesOnce` | internal/pipeline/normalizer/normalizer_balance.go:214-307 | if an outer-level non-fee event exists for an instruction, address, asset and activity, exactly one event with that outer path survives and it stems from an outer-level event |
| `SolanaCanon.NoOwnedInnerSurvives` | internal/pipeline/normalizer/normalizer_balance.go:256-267 | and no inner event for it survives |
| `FeeLaws.SolanaEventsStem` | internal/pipeline/normalizer/normalizer_balance.go:182-307 | every canonical Solana event stems from an input event field by field: a fee is debited and moved to the transaction level, any other event keeps its delta and its instruction unless it is raised to the outer level |
| `FeeLaws.SolanaFieldsSurvive` | internal/pipeline/normalizer/normalizer_balance.go:182-307 | with an injective id hash every Solana input event's outer instruction, address, asset and activity are in the output |
| `SurvivorLaws.NearestIsKept` | internal/pipeline/normalizer/normalizer_balance.go:309-339 | of several candidates of one id the outer-level one, then the lowest inner index, survives |
| `SolanaCanon.EveryIdSurvives` | internal/pipeline/normalizer/normalizer_balance.go:281-307 | every candidate id is in the output exactly once |
| `SolanaCanon.OuterIsKept` | internal/pipeline/normalizer/normalizer_balance.go:309-335 | once an outer-level candidate has been met the kept one is outer-level, whatever the deltas |
| `Coverage.MergeDecodedBalanceEvents` | internal/pipeline/normalizer/normalizer_identity_decode.go:304-347 | collection, lineage reconciliation and sort compute the specification |
| `Coverage.Reconcile` | internal/pipeline/normalizer/normalizer_identity_decode.go:349-423 | the groups by lineage, settled in the order of their keys |
| `Coverage.ReconcileGroup` | internal/pipeline/normalizer/normalizer_identity_decode.go:368-422 | one group: the keeper is never replaced, because a path hint dominates |
| `CoverageFields.SameKeyExactly` | internal/pipeline/normalizer/normalizer_identity_decode.go:597-615 | two events share a coverage key if and only if path, canonical address, canonical contract and category are equal |
| `CoverageFields.SameLineageMeans` | internal/pipeline/normalizer/normalizer_identity_decode.go:557-595 | events of one lineage are about one address, contract and category, and agree on counterparty and amount |
| `CoverageFields.FeeSignsShareLineage` | internal/pipeline/normalizer/normalizer_identity_decode.go:557-595 | a fee reported as a credit and as a debit is one lineage |
| `CoverageFields.PathRoundTrip` | internal/pipeline/normalizer/normalizer_balance.go:385-393 | an instruction path is read back as the indices it was made of, wrapped to 32 bits |
| `CoverageFields.PathIsInjective` | internal/pipeline/normalizer/normalizer_balance.go:385-393 | different instructions have different paths |
| `CoverageFields.WinnerTellsMost` | internal/pipeline/normalizer/normalizer_identity_decode.go:467-542 | no event tells more than the winner of its key: path hint, metadata entries, populated fields, least fingerprint |
| `CoverageFields.EachFieldCounts` | internal/pipeline/normalizer/normalizer_identity_decode.go:499-542 | every text field counts once if filled, and a non-zero number of decimals |
| `CoverageFields.CategoryMeans` | internal/pipeline/normalizer/normalizer_identity_decode.go:610-613 | the category, or the action where there is none, in upper case |
| `CoverageFields.KeeperMetadataStays` | internal/pipeline/normalizer/normalizer_identity_decode.go:425-465 | off EVM chains, and with a complete fee split of its own, a keeper's metadata is never overwritten |
| `CoverageFields.FeeSplitIsCopied` | internal/pipeline/normalizer/normalizer_identity_decode.go:425-465 | otherwise exactly the fee components of the complete split replace the keeper's |
| `CoverageLaws.KeyFollowsPath` | internal/pipeline/normalizer/normalizer_identity_decode.go:597-615 | of the parts of a coverage key only the path depends on the metadata: new metadata keeps the key if and only if it keeps the path |
| `CoverageLaws.MergeEnrichesOn` | internal/pipeline/normalizer/normalizer_identity_decode.go:425-465 | on every chain merging a pathless event into a path-hinted one only adds metadata and keeps its hint and lineage |
| `CoverageLaws.HarmlessOn` | internal/pipeline/normalizer/normalizer_identity_decode.go:425-465 | a pathless event that spells out no instruction path, which is every one on EVM chains and Solana, never changes its keeper's coverage key |
| `CoverageLaws.WinnersDomain` | internal/pipeline/normalizer/normalizer_identity_decode.go:309-333 | every coverage key has a winner, which is one of the inputs and carries that key |
| `CoverageLaws.HintIsKept` | internal/pipeline/normalizer/normalizer_identity_decode.go:467-492 | on every chain a path-hinted event is never given up for a pathless one of its key |
| `CoverageLaws.EachGroupAlone` | internal/pipeline/normalizer/normalizer_identity_decode.go:368-422 | each lineage group is settled as if it were alone |
| `CoverageLaws.ReconcileLosesNothing` | internal/pipeline/normalizer/normalizer_identity_decode.go:304-465 | on every chain each coverage key of either input has a winner, which is kept under its key with metadata added, or was pathless and collapsed, metadata included, into the single path-hinted event of its lineage; no key is invented |
| `CoverageLaws.NoEventLost` | internal/pipeline/normalizer/normalizer_identity_decode.go:304-465 | the same of the merged list, BTC included: every input event is represented by an output event of its winner's lineage and metadata, and every output event is an input event with metadata added |
| `CoverageLaws.NoCoverageLost` | internal/pipeline/normalizer/normalizer_identity_decode.go:304-347 | when no pathless event spells out an instruction path (always so on EVM chains and Solana) every coverage key survives in the merged list or its pathless winner collapsed, and every output event has the key of an input event |
| `CoverageFields.NoSubjectLost` | internal/pipeline/normalizer/normalizer_identity_decode.go:304-347 | in terms of fields, on every chain: each input event's canonical address, contract and category are in the merged list, and none is invented |
| `CoverageFields.NoPathLost` | internal/pipeline/normalizer/normalizer_identity_decode.go:304-347 | and each event's path with them, or its pathless winner collapsed, when no pathless event spells out an instruction path |
| `CoverageLaws.BTCMergeKeepsKeyExactly` | internal/pipeline/normalizer/normalizer_identity_decode.go:425-465 | on BTC merging keeps the keeper's key if and only if the first path key that parses is the keeper's own, or the alias's entry that comes first spells the path the keeper already has |
| `CoverageLaws.BTCMergeMovesKeeper` | internal/pipeline/normalizer/normalizer_identity_decode.go:741-757 | concrete pairs of one lineage, one path-hinted and one not, whose merge has another coverage key than its keeper |
| `CoverageLaws.PairCollapses` | internal/pipeline/normalizer/normalizer_identity_decode.go:368-422 | the whole merge of such a pair is the one merged event |
| `Bloom.BloomFilter.Add` | internal/addressindex/bloom.go:47-55 | adding a key keeps every earlier key marked |
| `Bloom.BloomFilter.MayContain` | internal/addressindex/bloom.go:59-70 | no false negatives; the answer is exactly whether all bits are set |
| `Cache.LRU.Get` | internal/cache/lru.go:41-63 | a hit moves the key to the front, an expired entry is removed, and the counters follow |
| `Cache.LRU.Put` | internal/cache/lru.go:66-89 | a known key moves to the front; a new one evicts the oldest when full; other entries keep their values |
| `Cache.HoldsMostRecent` | internal/cache/lru.go:41-117 | as long as no entry expires, a cache of capacity n holds exactly the n most recently used keys, in order of use |
| `Cache.HashBytes` | internal/cache/sharded_lru.go:59-63 | the byte loop of the hash |
| `Cache.FnvVector` | internal/cache/sharded_lru.go:56-66 | a published test vector of FNV-32a |
| `Cache.ShardedLRU.constructor` | internal/cache/sharded_lru.go:36-55 | the capacity per shard, at least one |
| `Cache.ShardedLRU.ShardOf` | internal/cache/sharded_lru.go:57-65 | the shard a key belongs to, with 32-bit wrap-around |
| `Cache.ShardedLRU.Get` | internal/cache/sharded_lru.go:68-70 | an answer is the stored value; no other key is affected |
| `Cache.ShardedLRU.Put` | internal/cache/sharded_lru.go:73-75 | the key is stored; other keys keep their values or are evicted |
| `AddressIndex.KeyTextInjective` | internal/addressindex/tiered.go:70-72 | two keys never share a cache entry |
| `AddressIndex.TieredIndex.Lookup` | internal/addressindex/tiered.go:109-137 | without a database error an active address yields its row; whatever is returned is the database row |
| `AddressIndex.TieredIndex.Contains` | internal/addressindex/tiered.go:76-106 | false is definitive; without a database error true means registered |
| `AddressIndex.TieredIndex.Reload` | internal/addressindex/tiered.go:141-169 | a complete filter is swapped in for one place, the others keep theirs, the cache stays truthful |
| `AddressIndex.TieredIndex.Serve` | internal/addressindex/tiered.go:76-169 | after any sequence of reloads, lookups and questions, with any evictions, expiries and errors on the way, an active address yields its row and an unregistered one yields nothing |

## Left out

- Columns of stored events, tokens and transactions that no balance depends on (block time, chain data, decoder versions, indices).
- collectEvents, synthetic fee events and the owner and token lookups of phase 1: decoded events and the prefetched maps are inputs.
- Canonicality drift inside a retried batch: the drift rollback is a transaction of its own in the run theorems.
- Chains without an indexed block repository: the repository is always present.
- Other writers between the attempts of one batch, and exactly-once ingestion across process restarts: the code does not establish the latter.
- Several fetch jobs of one chain in flight at once: the chunks of a job are processed in order, and one job at a time.
- The wall clock, sleeping and notification channels of the interleaver: the clock is a parameter and waiting is a step that may be repeated.
- Text of commit and RPC errors and its classification: each attempt's outcome is a parameter.
- SHA-256 event ids and FNV-128a: arbitrary functions, injective where ownership on Solana needs it. FNV-32a is written out.
- Bloom filter sizing in floating point: any positive size and any number of hash functions.
- Unicode white space, case folding and encodings: strings are ASCII as far as trimming and case go.
- Finality states of the events in one canonicalization call: they are all equal there, so the comparators start at the next criterion.
- Nil entries in decoded event lists, and the fingerprint used as a key when a coverage key is empty: keys are never empty.
- SolanaCanon.SortStable: shown to be a permutation only; what is proved of the survivors holds for every order.
- RememberedSound: one fixed chain; once the chain changes the cache may be stale, which QuietProvesExactly and ReplacedTipIsMissed take up.
- Repair: one fixed chain and a node that answers every request.
- RunIsCompleteExactly: signatures of block 0 when the run starts without a positive watermark, which a later tick may scan again.
- HoldsMostRecent: does not cover runs in which an entry expires, where the cache holds fewer keys than its capacity.
- Retry delays, health metrics, alerts, tracing, the admin and dashboard servers, RPC clients, gRPC, configuration, auto-tuning and sidecar decoding: plumbing around the core.
- The LRU's and the interleaver's locks: every locked section is one step.
