# Nightgate index, passes and protocols

A Dafny model of the state machines of the Nightgate indexer and gateway, with proofs of what they keep in every run.
`dafny verify dfyconfig.toml` checks the whole project.

Tables are sequences and maps, each database transaction is one atomic step or method, and the node, the indexer, the
wallet worker and all ciphers are oracles: parameters, or values chosen arbitrarily at the point where they answer.
Where the program works step by step, a class with the program's fields runs its loops, and its methods are proved
equal to functions; the properties are proved about those functions.

| files | what they model |
|---|---|
| `IndexTables`, `Persist`, `PersistProofs`, `StoredRows`, `Rollback`, `IndexRuns`, `IndexStore`, `Reconcile` | storing blocks, balance rows kept by deltas, rollback with recomputed balances, the balance check |
| `TrailingPasses`, `PassBounds`, `PassStore` | the decode pass behind the tip: window, cursor, rollback counter, redecode requests |
| `Supplement`, `SupplementProofs`, `SupplementRuns`, `SupplementStore` | the indexer pass and its delta-encoded ledger parameters with an in-memory cache |
| `Crawler`, `CrawlerStore` | blocks of a tree of chains, fork search, reorg check, catch-up pipeline |
| `BatchSegments`, `BatchOrdering`, `BatchProofs`, `BatchStore`, `BatchPicks` | the segment order of batched calls |
| `Submission`, `WorkerRpc`, `WorkerSlots` | announce-before-send, worker calls and their acknowledgements, rotating workers |
| `Budgets`, `AccountKeys`, `Disclosure`, `Compaction` | grant budgets, account key cache, disclosure merges, contract state compaction |

## Main results

- Rolling back undoes storing exactly, for every chunk size; in every state reached by linked blocks and rollbacks every
  balance row exists exactly when recomputing gives one, with the same eight figures. What storing writes and what a
  rollback leaves is also said from extrinsics and rows alone (`StoredRows`).
- Whatever interleaves with a pass, every indexed block of height 1 or more at or below its cursor was processed after it
  was inserted and after the last redecode that lowered the cursor below it. Ledger parameters read back exactly.
- Catch-up, live blocks and reorgs in any order leave one branch of blocks up to the recorded tip, whichever chain the
  node follows at any moment. The catch-up pipeline terminates, leaves no gap, tries a failed range once more and no
  oftener, and ends at the tip, on a stop or with a recorded error.
- The ledger runs a batch as its calls in order if and only if there is no causality violation; reordering keeps intents
  and segments, and it is known exactly when stage grouping is enough.
- At every step of a submission all that may land is the job's hash on a pending row, and its result is read off the
  first attempt that no budget lets it rebuild. Across rotations, crashes and
  restarts of workers a submitting call is run by one worker at most, and every call can reach its one end.

## Where the code does less than its comments say

- A balance row registered for dust and zeroed by a rollback stores a null first height, which the next block reads as 0.
  Incremental and recomputed figures then differ. `PersistAgrees` gives the exact condition, `ZeroedRowDrifts` an input,
  and `RunAgrees` shows that nothing else can differ. No part of the program writes the dust columns, so the row needs an
  outside writer.
- A pass on an empty index moves its cursor to 0, so a block stored at height 0 afterwards is never processed
  (`GenesisSkipped`); `AppendKeepsFullCoverage` gives the exact condition.
- A redecode request that reports no change is not heeded by a pass already over the requested blocks
  (`RequestDuringPass`, both directions; `RequestNotHeeded`, a run).
- Storing a block checks that its parent is stored, not that the parent is the tip. That is enough only because block
  heights are unique (`WrittenIsLinked`); the index that makes them so is created at startup, and a failure to create it
  is logged and skipped.
- A fork search that ends at height 0 does not look at the block there, and runs past a head that is the first stored
  block, such as an anchor that is also the finalized head. Both can remove blocks of the head's chain
  (`RollbackKeepsShared` and `StoredHeadIsNoReorg`, both directions; `SharedGenesisRemoved` and `AnchorRemoved`, inputs).
- A head more than one above the tip is taken for a gap even on another chain; storing then fails without a change
  (`GapHidesFork`, both directions; `GapOnOtherChain`, an input).
- With an empty circuit name, `orderBatchSegments` can take a missing segment for a call and lose a segment
  (`SegmentLost`); the segments are kept if and only if every picked segment is in the map.
- A request can be refused under its limit when another one resets the counter into another window after it read the row
  (`RefusedUnderLimit`, both directions; `RefusedThoughUnused`, a run).
- A late read of disclosure grants can reactivate a grant that is gone, because a row that stays inactive keeps its old
  stamp (`NewestReadWins`, both directions; `OldReadReactivates`, an input).
- Two states of one contract in one block can make a repeated compaction end elsewhere (`PageKeepsFinal`, both directions;
  `SameBlockLosesState`, an input).
- A result without a transaction hash marks the row failed although what was announced may still land
  (`MalformedResult`, both directions; `MalformedRun`, a run).
- The exit of a worker rejects every pending call of its slot. The exit of a stopped worker can come late and end a call
  that a newer worker runs (`OnlyOwnCallsEnd`, both directions; `LateExitEndsNewCall`, a run).
- A given password is compared with a cached key only if the entry was made with one, and not when a lookup under way is
  joined (`Begin`, both directions; `UntestedPassword`, an input).
- Grouping keeps the listed order among calls with a fallible part, so a call with both parts can stay out of order
  (`GroupingIsSufficient`, both directions; `BothPartsBehind`, an input).
- The balance check lists addresses from rows and outputs, so it misses one that only sent NIGHT and lost its row
  (`ReconcileAll`, both directions).

## Model

| member | source | states |
|---|---|---|
| `IndexTables.ComputeExists` | srv/crawler/rollback.ts:223-243 | An address has recomputed figures exactly when it ever owned a NIGHT output or sent NIGHT to another address; without figures every counter is zero |
| `IndexTables.ActiveAddressHasHeights` | srv/crawler/rollback.ts:245-259 | With figures, at least one stored block is behind them, so first and last height are known |
| `PersistProofs.BlockTotals` | srv/crawler/BlockProcessor.ts:484-594 | The deltas collected for a block, spends included, are the change of all six sums over the stored rows, with create-and-spend in one block, repeated spends and spends of unknown outputs |
| `PersistProofs.ActiveAfter` | srv/crawler/BlockProcessor.ts:717-757 | An address got a delta exactly when the block made it active, and its active blocks grow by exactly that block |
| `PersistProofs.PersistKeepsMatch` | srv/crawler/BlockProcessor.ts:759-801 | For a row that matched before, the updated row matches recomputation if and only if it is not a zeroed dust row touched above height 0 |
| `StoredRows.StoredBlock` | srv/crawler/BlockProcessor.ts:464-479 | A stored block adds one block row with its hash and height, and its parent exactly when that is stored, and becomes the recorded tip without a new rollback count |
| `StoredRows.StoredTransactions` | srv/crawler/BlockProcessor.ts:494-529 | A stored block adds one row per extrinsic in order, with the block's hash, the extrinsic's place, and the sender, receiver and amount its projection names; older rows stay |
| `StoredRows.StoredOutputs` | srv/crawler/BlockProcessor.ts:559-591 | A stored block adds one output per creation event in order, with the event's name, owner, token and value and the extrinsic that created it, and marks each unspent output with the first extrinsic that spends it; nothing else about any output changes |
| `StoredRows.StoredBalance` | srv/crawler/BlockProcessor.ts:559-594 | From extrinsics and outputs alone: a balance row changes exactly when the block pays the address NIGHT, moves NIGHT from it to a known other one, or spends its NIGHT output; then all six sums change by those payments, transfers and spends, and both heights and the dust mark are as promised |
| `Rollback.UntouchedComputes` | srv/crawler/rollback.ts:70-89 | Addresses not collected as affected recompute to the same figures after the rollback, so recomputing only the affected ones is enough |
| `Rollback.RollbackMatches` | srv/crawler/rollback.ts:122-126 | After a rollback every affected row matches recomputation, whatever it was, and every other matching row still does |
| `StoredRows.RolledBackRows` | srv/crawler/rollback.ts:41-161 | A rollback leaves exactly the blocks below the height, the transactions of the others, the outputs those created with removed spends undone, and counts itself once |
| `StoredRows.RolledBackBalance` | srv/crawler/rollback.ts:70-126 | A rollback recomputes the row of exactly the addresses that sent or received in a removed block or own an output it created or spent, whatever the row said; without activity the row goes, or is zeroed if registered for dust |
| `IndexRuns.StoredChain` | srv/crawler/BlockProcessor.ts:455-466 | A new block row keeps the hash-linked chain of consecutive heights if and only if it continues it at the tip |
| `IndexRuns.WrittenIsLinked` | srv/utils/db-indexes.ts:18-20 | With unique heights and the parent required, a block of whatever chain that is stored above height 0 continues the stored chain at the tip; at height 0 it does if and only if the index is empty |
| `IndexRuns.PersistKeepsWellFormed` | srv/crawler/BlockProcessor.ts:455-603 | Storing a linked block keeps chain, recorded tip, unique outputs and associations |
| `IndexRuns.RollbackKeepsWellFormed` | srv/crawler/rollback.ts:41-161 | A rollback leaves exactly the blocks below its height, with the recorded tip at the highest one left |
| `IndexRuns.RollbackUndoesStoring` | srv/crawler/rollback.ts:41-161 | Storing any blocks from a height upwards, the anchor included, and rolling back from there gives back the same blocks, transactions, outputs with their spends, balance rows and tip |
| `IndexRuns.PersistAgrees` | srv/crawler/BlockProcessor.ts:592-594 | Storing a linked block keeps all balance rows in agreement if and only if it touches no zeroed dust row above height 0 |
| `IndexRuns.RollbackAgrees` | srv/crawler/rollback.ts:122-126 | A rollback keeps all balance rows in agreement |
| `IndexRuns.RunAgrees` | srv/crawler/rollback.ts:221-223 | Over all runs of linked blocks, rollbacks and dust registrations: one chain, and a balance row exists exactly when recomputing gives figures, with the same eight figures; on a registered row the first height may be 0 instead |
| `IndexRuns.RollbackAfterRun` | srv/crawler/rollback.ts:41-161 | After any run, blocks stored on top are undone by one rollback; the balance rows too, without dust registrations |
| `IndexRuns.SecondWriterChangesNothing` | srv/crawler/BlockProcessor.ts:605-613 | The second of two writers of one block changes nothing and is skipped |
| `IndexRuns.ZeroedRowDrifts` | srv/crawler/rollback.ts:289-303 | A zeroed dust row and a block after which incremental and recomputed first height differ |
| `IndexStore.RunSpends` | srv/crawler/BlockProcessor.ts:717-757 | Rows looked up in chunks, marked in memory and written back together are the spends applied one by one in order |
| `IndexStore.Index.PersistFromNode` | srv/crawler/BlockProcessor.ts:438-613 | The method with its loops stores exactly what `StoredTransactions`, `StoredOutputs` and `StoredBalance` say, or leaves every table unchanged on each error: a missing parent, a stored block, a stored height, a stored output |
| `IndexStore.Index.ComputeNightBalance` | srv/crawler/rollback.ts:223-279 | Loops over rows and chunked lookups give the figures of the specification, for every chunk size |
| `IndexStore.Index.RecomputeNightBalance` | srv/crawler/rollback.ts:281-338 | One row becomes what recomputing gives, kept as zeroes if registered for dust; no other row changes |
| `IndexStore.Index.RollbackIndexedData` | srv/crawler/rollback.ts:41-161 | Chunked deletes, cleared spends and recomputed rows give the same tables for every chunk size |
| `Reconcile.DriftOrMatch` | srv/crawler/night-balance-reconcile.ts:33-51 | The check of one address is silent exactly when row and activity agree in all eight figures, or without activity when there is no row or only zeroes in it |
| `Reconcile.PageIsNext` | srv/crawler/night-balance-reconcile.ts:60-76 | A page over two sources is the next addresses of their union, and no next page means none is left |
| `Reconcile.ReconcileAll` | srv/crawler/night-balance-reconcile.ts:53-77 | Paging to the end checks every address with a row or with a NIGHT output once, in order; of all drifting addresses it misses exactly those without a row that sent NIGHT and never owned an output |
| `Reconcile.ReachedStatesDoNotDrift` | srv/crawler/night-balance-reconcile.ts:33-51 | No address drifts in any state reached by linked blocks and rollbacks; with dust registrations only a first height of 0 on a registered row can |
| `TrailingPasses.RangeIsSlice` | srv/crawler/cursor-pass.ts:41-48 | The blocks in range are a contiguous slice of the stored blocks, with lower blocks before it and higher ones after it |
| `TrailingPasses.CommitCovers` | srv/crawler/cursor-pass.ts:50-68 | Moving the cursor at the end of a pass leaves no unprocessed block of height 1 or more below it |
| `TrailingPasses.CommitAdvances` | srv/crawler/LedgerPayloadDecoder.ts:78-99 | A pass whose cursor still stands moves it up |
| `TrailingPasses.StepKeepsInv` | srv/crawler/cursor-pass.ts:20-68 | Every step of the pass, every append, rollback and redecode keeps the invariant of the protocol |
| `TrailingPasses.RunCovers` | srv/crawler/cursor-pass.ts:20-68 | In every interleaving each indexed block of height 1 or more at or below the cursor was processed after its insert and after the last redecode that lowered the cursor below it, and the cursor is not above the tip |
| `TrailingPasses.RequestDuringPass` | srv/crawler/redecode.ts:48-51 | After a request that changes nothing, a pass at any point of its work that goes on, with blocks and requests arriving, leaves the requested blocks processed from later data if and only if it had begun none of them |
| `TrailingPasses.RequestNotHeeded` | srv/crawler/redecode.ts:48-51 | A run from the empty index after which a requested block is below the cursor with data read before the request |
| `TrailingPasses.ChangedRequestStopsPass` | srv/crawler/redecode.ts:27-57 | A request that lowers the cursor keeps a pass under way from moving it |
| `TrailingPasses.AppendKeepsFullCoverage` | srv/crawler/rollback.ts:131-151 | With height 0 counted, an insert keeps coverage if and only if it lands above the cursor, and only height 0 can fail |
| `TrailingPasses.GenesisSkipped` | srv/crawler/LedgerPayloadDecoder.ts:84-88 | A run on an empty index after which block 0 is below the cursor and never processed |
| `TrailingPasses.RollbackToCursor` | srv/crawler/cursor-pass.ts:50-52 | After a rollback to exactly the cursor the counter stops the pass, where comparing the cursor alone would lose coverage |
| `PassBounds.PassStaysWithin` | srv/crawler/cursor-pass.ts:20-48 | However others interleave, a pass takes at most a batch of blocks, all above its cursor and at least the lag below the tip it read, processes no other block and moves its cursor no further |
| `PassBounds.OthersForgetNothing` | srv/crawler/redecode.ts:27-57 | Appends, rollbacks and requests never move the cursor up, and lower it no further than to right below what is asked for again or removed |
| `PassStore.SyncStore.RunOnce` | srv/crawler/LedgerPayloadDecoder.ts:78-106 | A whole pass with other writers at every wait is a run of the protocol; the cursor it sets and the blocks it processes, a batch at most, lie at least the lag below the tip it read; undisturbed, it gets a whole batch further or up to the lag, and reports the blocks it took |
| `SupplementProofs.WriteKeeps` | srv/crawler/IndexerSupplement.ts:169-172 | A true report written at any block keeps every block reading back that did |
| `SupplementProofs.AnsweredBlock` | srv/crawler/IndexerSupplement.ts:163-173 | A block with a report reads back afterwards, whether its write was skipped or not, and the cache stays valid |
| `SupplementRuns.ActKeepsSafe` | srv/crawler/IndexerSupplement.ts:113-183 | Every step, failure, restart, append and rollback keeps parameters and cache consistent |
| `SupplementRuns.ParametersReadBack` | srv/crawler/contract-state.ts:154-165 | At every supplemented height of 1 or more with a report, the newest stored parameters at or below it are the reported ones |
| `SupplementStore.IndexerSupplement.ReadParametersBelow` | srv/crawler/IndexerSupplement.ts:175-183 | The newest stored parameters below a height |
| `SupplementStore.IndexerSupplement.ApplyBlockFields` | srv/crawler/IndexerSupplement.ts:163-173 | Parameters and cache change as specified, with the row gone or not |
| `SupplementStore.SupplementStaysWithin` | srv/crawler/IndexerSupplement.ts:113-161 | However others interleave, a pass writes parameters for at most a batch of blocks, none nearer to the tip than the lag |
| `SupplementStore.IndexerSupplement.RunOnce` | srv/crawler/IndexerSupplement.ts:113-161 | A whole pass with failures, stops and rollbacks at every wait keeps every supplemented block reading back, writes and moves its cursor no nearer to the tip it read than the lag, for a batch at most, and undisturbed gets a whole batch further or up to the lag |
| `Crawler.PersistHonest` | srv/crawler/BlockProcessor.ts:371-385 | Storing a block of any chain, while the node switches between them, keeps one chain of blocks the network has, if and only if it is not a late block at height 0 |
| `Crawler.StoredIsBranch` | srv/crawler/Crawler.ts:392-396 | The stored blocks are the top of the one branch that ends in the tip |
| `Crawler.ForkPointIs` | srv/crawler/Crawler.ts:769-798 | A positive fork is one above the highest stored ancestor, within 100 blocks; zero means none above height 0 is stored; both are exact |
| `Crawler.ReorgReportedWhen` | srv/crawler/Crawler.ts:728-767 | For every state and head, exactly when no reorg is reported, in terms of the stored blocks; otherwise the rollback starts at the head's height if its parent is stored, and where the search ends or fails if not |
| `Crawler.RollbackLeavesAncestors` | srv/crawler/Crawler.ts:801-810 | After a rollback from any height all stored blocks are ancestors of a head if and only if the last one left is, or none is left |
| `Crawler.RollbackToAncestor` | srv/crawler/Crawler.ts:801-810 | After a rollback to above a stored ancestor, all stored blocks are ancestors of the head and the tip is that ancestor |
| `Crawler.RollbackKeepsShared` | srv/crawler/Crawler.ts:728-767 | The rollback a reorg asks for removes no block of the head's chain, the head included, if and only if its fork is not 0 over a first stored block that is the head or the block at height 0 below it, and the head is not stored while the node names another block there |
| `Crawler.StoredHeadIsNoReorg` | srv/crawler/Crawler.ts:741-759 | A stored head that the node confirms is no reorg if and only if it is not the first stored block, or is at height 0 |
| `Crawler.HeadOnAnchor` | srv/crawler/Crawler.ts:769-798 | For a head that is the first stored block, above height 0, the search passes it: it asks for a rollback to 0, which removes everything, if and only if the node has the headers and 100 blocks reach down, and fails otherwise |
| `Crawler.AnchorRemoved` | srv/crawler/Crawler.ts:741-759 | An index with its anchor only, and the anchor as a head on the node's chain: a reorg to 0 is reported and the anchor removed |
| `Crawler.SharedGenesisRemoved` | srv/crawler/Crawler.ts:769-798 | Two chains over one genesis and a head at height 2 for which the search ends at 0 and the shared genesis is removed |
| `Crawler.ReorgLeavesAncestors` | srv/crawler/Crawler.ts:728-767 | Whenever the check reports a reorg, the rollback it asks for leaves only ancestors of the head, also in a later state in which the ancestor found is still stored |
| `Crawler.NoReorgExtends` | srv/crawler/Crawler.ts:728-739 | A head one above the tip is no reorg if and only if its block continues the stored chain |
| `Crawler.GapHidesFork` | srv/crawler/Crawler.ts:737-739 | A head further up is never a reorg; the block above the tip on its chain is refused, with nothing changed, if and only if the tip is not on that chain, and goes on top otherwise |
| `Crawler.GapOnOtherChain` | srv/crawler/Crawler.ts:737-739 | A head three above the tip on another chain that is not reported as a reorg, and whose next block is refused |
| `Crawler.CrawlStaysInSync` | srv/crawler/Crawler.ts:299-307 | In every interleaving of anchor, catch-up, live blocks, reorgs and requested rollbacks, with the node on any chain at any moment: one branch up to the recorded tip, and all balance rows in agreement |
| `CrawlerStore.Crawl.SearchFork` | srv/crawler/Crawler.ts:769-798 | The loop with a wait at every lookup finds the specified fork with no other writer at work, and a fork whose base is still stored when no other writer rolls back |
| `CrawlerStore.Crawl.OnHead` | srv/crawler/Crawler.ts:671-684 | With other writers at every wait of check, search and rollback: a reorg leaves only ancestors of the head unless one of them may roll back, and anything else removes nothing; with no other writer the verdict is the specified one and only its rollback changes the tables |
| `CrawlerStore.Crawl.ProcessBatch` | srv/crawler/Crawler.ts:440-505 | Fetched blocks are stored in order up to the first failure or stop, without a gap below unless another writer may roll back; behind a failure is a fault of node or database or a refused block |
| `CrawlerStore.Crawl.OnFailure` | srv/crawler/Crawler.ts:498-533 | A failure is counted, and ends the run if and only if there are more than 10 errors in a row or the batch was already retried; only a permanent error of a retried batch halts the crawler at the block |
| `CrawlerStore.Crawl.RunCatchUpPipeline` | srv/crawler/Crawler.ts:392-545 | Whatever chain the node names blocks of, the pipeline terminates with one chain stored, gap-free from the start unless another writer may roll back. Over the record of its attempts: a stored range is followed by the next, a range that failed once by the same, one that failed twice by none; it ends at the tip with the error count cleared, on a stop, with more than 10 errors, or on a second failure of one range, and only a permanent second failure halts the crawler |
| `BatchSegments.LedgerRunsInOrder` | srv/midnight/batch-segment-order.ts:61-78 | All guaranteed stages and then all fallible ones are the calls' stages in turn, if and only if no fallible call comes before a guaranteed one |
| `BatchSegments.FindCausalityViolation` | srv/midnight/batch-segment-order.ts:61-78 | Nothing is found exactly when the ledger runs the calls in order; otherwise the first offending pair |
| `BatchOrdering.PickIsPicked` | srv/midnight/batch-segment-order.ts:135-169 | The picked intents carry the call names in order on distinct segments, each from the map or missing from it |
| `BatchPicks.PickedByIds` | srv/midnight/batch-segment-order.ts:135-145 | Build-time segments are taken exactly when there is a distinct one per call with an intent of that call's name; otherwise the calls are matched by name |
| `BatchPicks.PickedByName` | srv/midnight/batch-segment-order.ts:155-169 | Matching by name works exactly when no circuit is called more often than there are intents of its name; the calls of a circuit get the intents of its name in map order |
| `BatchOrdering.ArrangedIsPartition` | srv/midnight/batch-segment-order.ts:171-181 | Sorting by rank keeps the first `orderedPrefix` calls in place and makes the rest a stable partition by fallibility |
| `BatchProofs.SizeCheck` | srv/midnight/batch-segment-order.ts:183-191 | The size check refuses exactly when a picked intent object also sits under a segment that was not picked |
| `BatchProofs.SegmentsKept` | srv/midnight/batch-segment-order.ts:183-194 | The segment set is kept if and only if every picked segment was in the map |
| `BatchStore.ReorderedKeeps` | srv/midnight/batch-segment-order.ts:147-195 | A reordered transaction keeps the multiset of intents, the unpicked entries, and has the calls in order on the ascending picked segments |
| `BatchStore.RefusedWhen` | srv/midnight/batch-segment-order.ts:147-195 | When a reorder of named circuits is refused, in terms of its input |
| `BatchStore.GroupingIsSufficient` | srv/midnight/batch-segment-order.ts:171-181 | With every call picked, stage grouping leaves no causality violation if every pair out of order is in the tail and the later call has no fallible part; for named circuits if and only if |
| `BatchProofs.BothPartsBehind` | srv/midnight/batch-segment-order.ts:171-181 | Two calls that grouping leaves out of order and that the other order would put right |
| `BatchStore.AppliedInCallOrder` | srv/midnight/batch-segment-order.ts:147-148 | Without grouping the ledger applies the calls in the order of the call list |
| `BatchStore.SegmentLost` | srv/midnight/batch-segment-order.ts:135-145 | An input with an empty circuit name for which a segment is lost |
| `BatchStore.PickFromPools` | srv/midnight/batch-segment-order.ts:155-169 | The pools give each call the first free intent of its name |
| `BatchStore.Transaction.OrderBatchSegments` | srv/midnight/batch-segment-order.ts:148-195 | The loops give the specified map, and a refusal leaves the transaction unchanged |
| `BatchStore.Transaction.ProveTx` | srv/midnight/batch-segment-order.ts:198-241 | What reaches the prover runs on the ledger in order; each refusal is exact |
| `Submission.EventKeepsOpen` | srv/submission/TransactionSubmitter.ts:210-263 | Announcing, sending, rejecting and closing keep books in which only the current row is pending, with the job's hash |
| `Submission.MalformedResult` | srv/submission/TransactionSubmitter.ts:365-376 | Marking the row failed for a malformed result is safe if and only if nothing sent may still land; where the program does it, that is when the submitter remembers no hash |
| `Submission.EndsOnce` | srv/submission/TransactionSubmitter.ts:170-203 | One attempt is the first that is not rebuilt; each one before it failed for a dust race or a stale transcript within that reason's own budget, so there are no more of them than both budgets allow |
| `Submission.Submitter.RunSubmit` | srv/submission/TransactionSubmitter.ts:170-203 | The submission ends with the first attempt that is neither a dust race nor a stale transcript within its own budget, or whose books cannot be written, and the result is read off that attempt alone; as many transactions are sent as attempts were announced up to it. At every step all that may land is the job's hash on a pending row, and no row changes its hash; only the last step of a malformed result can break this, exactly when something may still land |
| `Submission.MalformedRun` | srv/submission/TransactionSubmitter.ts:365-376 | A submission whose one attempt is announced, sent and answered without a hash ends with a failed row for a transaction that may still land |
| `Submission.Submitter.SettleFailed` | srv/submission/TransactionSubmitter.ts:266-279 | An announced attempt with an ambiguous failure stays pending; any other failure ends with no pending row, or with the books as they were when they cannot be written |
| `WorkerRpc.CallIsSound` | srv/midnight/wallet-worker-client.ts:476-603 | Under racing replies, timeouts, crashes and hooks a call has one end, settles after its hooks, and no announcement is acknowledged before it is stored or after the call was answered |
| `WorkerRpc.FirstEndWins` | srv/midnight/wallet-worker-client.ts:476-603 | A call ends with the reply, exit, crash or timeout that arrived first; every announcement before it is stored and acknowledged once that is done; a timeout asks the worker to stop |
| `WorkerSlots.SubmittedOnce` | srv/midnight/wallet-worker-client.ts:435-455 | In every interleaving of calls, replies, refusals, timeouts, rotations, crashes, stops and restarts: a call gives its caller one outcome at most, is handed to two workers at most, and a submitting one is run by one worker at most, handed to a second only after the first refused it |
| `WorkerSlots.WaitsForDraining` | srv/midnight/wallet-worker-client.ts:435-474 | In every run a call is handed to no worker that was draining when it came to the gate, and only after that worker exited; it is tried a second time exactly after a refusal by a rotating worker, which ran none of it, or, unless it submits, after a planned exit |
| `WorkerSlots.GateIsDraining` | srv/midnight/wallet-worker-client.ts:441-451 | In every run the worker a call waits for at the gate is the one draining at that moment; after a refusal there is one as long as a worker is there |
| `WorkerSlots.NoCallIsLost` | srv/midnight/wallet-worker-client.ts:309-335 | A call not answered yet is on a worker that has not exited, and its announcements and acknowledgements are sound |
| `WorkerSlots.NeverFurther` | srv/midnight/wallet-worker-client.ts:435-603 | No step of any call or worker takes a call further from its end or takes back the outcome its caller got |
| `WorkerSlots.NeverStuck` | srv/midnight/wallet-worker-client.ts:457-603 | In every reachable state each call that has not ended has a step that brings it closer to its end |
| `WorkerSlots.OthersWereStopped` | srv/midnight/wallet-worker-client.ts:384-387 | In every run the workers alive are the current one and those a stop took off that have not exited |
| `WorkerSlots.StartedBeside` | srv/midnight/wallet-worker-client.ts:476-483 | With no current worker, one is alive when the next is started if and only if a stopped one has not exited |
| `WorkerSlots.OnlyOwnCallsEnd` | srv/midnight/wallet-worker-client.ts:309-335 | In every run, the exit or error of a worker an unanswered call was not handed to last can end that call, if and only if a stopped worker that is not the call's own, or was replaced, has not exited |
| `WorkerSlots.ExitIsPlanned` | srv/midnight/wallet-worker-client.ts:309-335 | In every run the exit of a worker is a planned one for the calls it ends if and only if that worker was the last to announce a rotation and not the last to be stopped; otherwise, and on an error, they crashed |
| `WorkerSlots.LateExitEndsNewCall` | srv/midnight/wallet-worker-client.ts:309-335 | A run in which the exit of a stopped worker ends a call that a newer worker runs |
| `WorkerSlots.WorkerSlot.OnExit` | srv/midnight/wallet-worker-client.ts:106-113 | The exit handler with its loop clears only what belonged to the worker and rejects every pending call of the slot |
| `WorkerSlots.WorkerSlot.EndAttempt` | srv/midnight/wallet-worker-client.ts:442-453 | The end of an attempt gives the caller its outcome, or takes the call back to the gate once |
| `Budgets.RunBudget` | srv/sessions/agent-grants.ts:1241-1268 | In every interleaving takes less refunds are between 0 and the limit in every window, the counter is that difference for the row's window, one request at most wins each reset, and the takes of a window are the requests that passed in it |
| `Budgets.RefundGivesBack` | srv/sessions/agent-grants.ts:1241-1247 | A refund gives one unit back if and only if the row still counts the window of the take |
| `Budgets.RefusedWhen` | srv/sessions/agent-grants.ts:1261-1268 | A request is refused under its limit if and only if the row counts another window |
| `Budgets.RefusedUnderLimit` | srv/sessions/agent-grants.ts:1250-1268 | In every run: a request is refused under its limit if and only if, after it read the row, another request won the last reset for another window; an earlier one as long as its own is current |
| `Budgets.RefusedThoughUnused` | srv/sessions/agent-grants.ts:1250-1268 | A run in which a request is refused though its window is unused |
| `Budgets.Budget.ConsumeBudget` | srv/sessions/agent-grants.ts:1250-1268 | With other requests at every wait, a request that was not there before is decided for the window current when it began, by winning its reset or by its increment, and is counted if it passed; a refusal is an increment that `RefusedWhen` explains |
| `Budgets.Grant.Enforce` | srv/sessions/agent-grants.ts:1148-1159 | With other requests at every wait of both, the hour budget is asked once, and the day budget once if and only if the hour did not refuse; a request passes exactly when its new request in every budget there is passed and was counted; an hour unit taken before the day refused is offered back once, in the window current then |
| `AccountKeys.KeyStore.Evict` | srv/submission/account-keys.ts:125-130 | An eviction wipes the cached bytes, drops the entry and bars the lookup under way from caching |
| `AccountKeys.KeyStore.StoreDek` | srv/submission/account-keys.ts:116-123 | A lookup overtaken by an eviction caches nothing |
| `AccountKeys.KeyStore.Begin` | srv/submission/account-keys.ts:165-185 | A cached key is handed out exactly when no password is given, none was given for the entry, or both agree; otherwise the caller joins the lookup under way, whatever its password, or begins one |
| `AccountKeys.UntestedPassword` | srv/submission/account-keys.ts:168-174 | A key cached by a lookup without a password is handed to a caller with any password |
| `AccountKeys.KeyStore.CreateOrRead` | srv/submission/account-keys.ts:252-273 | The key of a creator is its own random one when its insert went through, and else the one it reads again; either is the persisted one, whatever other creators, lookups and evictions do at the waits |
| `AccountKeys.KeyStore.ResolveUncached` | srv/submission/account-keys.ts:187-273 | A lookup with its waits ends with a shared result that holds the persisted key, with none when it may not create one, or with an error when nothing opens it |
| `AccountKeys.KeyStore.ResolveAccountDek` | srv/submission/account-keys.ts:165-185 | A key returned is the persisted one in a buffer that is neither cached nor shared; a cached key is returned unless both passwords are given and differ, a caller who joins gets what that lookup gives, and a lookup of its own gives none only when none is stored and none is to be made, or fails when it cannot be opened |
| `AccountKeys.KeyStore.CallerWipes` | srv/submission/account-keys.ts:175-184 | Wiping a returned buffer leaves the cache, the shared results and the key another caller got intact |
| `Disclosure.MergeByHeight` | srv/submission/disclosure-indexer.ts:52-131 | A read at a height lowers no stamp, leaves rows with later stamps alone, and every row it stamps says what the chain said |
| `Disclosure.MergeWithoutHeight` | srv/submission/disclosure-indexer.ts:72-127 | A read without a height changes no stamp, grants what is listed unless a stamped row was revoked, and sweeps exactly the active rows that are not listed and were not changed recently |
| `Disclosure.MergeUnstamped` | srv/submission/disclosure-indexer.ts:72-127 | A read at a height stamps a row without a stamp, unless the grant is not listed and the row is inactive or recent |
| `Disclosure.RowsAgree` | srv/submission/disclosure-indexer.ts:52-131 | Over reads in any order every row agrees with the chain at its stamp |
| `Disclosure.InactiveBecomesActive` | srv/submission/disclosure-indexer.ts:72-90 | A read turns an inactive row active if and only if the chain lists the grant at its height and the row is stamped no later |
| `Disclosure.NewestReadWins` | srv/submission/disclosure-indexer.ts:52-131 | Over reads in any order, the active rows are the grants on chain at the greatest height read if and only if no grant gone by then was revived by a read after it that no later read took back |
| `Disclosure.InOrderWins` | srv/submission/disclosure-indexer.ts:52-131 | When no earlier read was at a greater height than the last one, the active rows are the grants it showed |
| `Disclosure.OldReadReactivates` | srv/submission/disclosure-indexer.ts:108-127 | Four reads after which a grant that is gone at the greatest height read is active |
| `Disclosure.Disclosures.ReindexOnce` | srv/submission/disclosure-indexer.ts:52-131 | The loops merge every row no other writer touched, which is all of them with no other writer at work, and keep rows others stamped later |
| `Compaction.UpsertKeepsFinal` | srv/crawler/contract-state.ts:68-88 | Offering the newest state of a contract does not change where compaction ends |
| `Compaction.PageKeepsFinal` | srv/crawler/contract-state.ts:336-378 | With the newest states offered, clearing a page changes where compaction ends if and only if it clears the newest state of a contract while another state of that block stays stored |
| `Compaction.FinalIsNewest` | srv/crawler/contract-state.ts:68-88 | The current state of a contract ends as the state of its newest action by block, place and id, unless one of a later block was stored already; without any state there is none |
| `Compaction.FinalIsFinal` | srv/crawler/contract-state.ts:293-380 | Compaction is idempotent and digests every stored state; the state itself is kept when all are kept or the contract is watched and removed otherwise, and nothing else of an action changes |
| `Compaction.SameBlockLosesState` | srv/crawler/contract-state.ts:68-74 | Two states of one block and a crash after which the older one wins |
| `Compaction.Store.Compact` | srv/crawler/contract-state.ts:293-380 | An uninterrupted run ends in the final form, after one transaction per contract and at most one per action; a run stopped after any transaction can be repeated to the same end if and only if its pages lost no state in that way |

## Left out

- Premises about the node: a hash names one block with its height, parent and contents, and a header is one above its parent. Which chain it reports at any moment is arbitrary.
- Premise about the indexer: for a stored block it reports the same parameters whenever asked, or always none.
- Databases without the unique index on block heights (HANA, or a failed creation at startup): a block could then be stored beside another at its height.
- Tables that hang on transactions (contract actions and balances, results, segments, fees, ledger events, identifiers) are deleted and inserted with them and are not modelled, nor is the clearing of inclusion data on jobs.
- Generated row ids: index rows are named by their unique columns (block hash, position in the block, intent hash and output index); the pass models use fresh numbers.
- Integer widths and the decimal columns of amounts, timestamps, and the display figures of the sync state.
- Empty owner and address texts, which the program skips, are absent values here.
- Decoding of extrinsics and events into outputs, spends and transfers is input to the model.
- The single-flight join of `catchUp`, the seeding of a start height as a separate request, reconnects and pacing. Storing the anchor is a step of the model, into an empty index.
- The pools of the catch-up prefetch run one after the other here; a batch is fetched when it is taken.
- `Crawler.CrawlStaysInSync`: a late block at height 0 on an anchored index is excluded by the step, as `PersistHonest` shows it must be.
- `Reconcile.ReconcileAll`: the tables do not change between two pages.
- `SupplementRuns.ParametersReadBack`: heights from 1, because of the cursor at 0 on an empty index.
- `TrailingPasses.RunCovers`: heights from 1, and redecode requests that change the cursor; `AppendKeepsFullCoverage` and `RequestDuringPass` say what happens otherwise. One pass loop per cursor.
- `AccountKeys.KeyStore.ResolveAccountDek`: sealing and re-encryption are abstract, and whether a stored copy opens, the viewing-key check included, is one yes-or-no per lookup; a database error other than a second key for the account is not modelled.
- `Submission.Submitter.RunSubmit`: one announcement per attempt before its send, and a result that names the announced hash or none; the reconciler that finishes pending rows later is not part of this model.
- `WorkerSlots.SubmittedOnce`: one slot; which slot a call goes to, the shutdown call a stop sends first, and calls refused because no worker was ever started are not modelled.
- `Budgets.RunBudget`: a fixed limit and a monotone clock. Value budgets, which run under a lock, and deploy budgets are not modelled.
- `Disclosure.Disclosures.ReindexOnce`: other writers change existing rows only, with newer stamps.
- `Disclosure.NewestReadWins`: every read knows its height, and no other writer changes rows.
- `BatchStore.ReorderedKeeps`: a fractional `orderedPrefix` is rounded by the caller; log lines and gas figures are not modelled.
- Session handling, request validation, error text classification, wallet SDK, proving and transport.
