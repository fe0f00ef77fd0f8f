# subdex, modelled and verified

subdex indexes a Substrate chain into Postgres. An engine fetches windows of
decoded blocks, hands them to user-written handlers, and commits each window in
one transaction together with a row per block (height, hash, parent hash). The
highest row is the progress cursor; the rows below it are what a reorg is
detected and rolled back with. This project models that engine and the code
around it whose correctness is not obvious from one function, and proves what the
documentation promises: atomic commits, resumption without gaps or repeats, reorg
safety, and a bookkeeping table that stays bounded.

Run `dafny verify dfyconfig.toml` in this directory.

## How the model is laid out

| module | what it is |
|---|---|
| `Chain`, `Sql`, `Prelude` | blocks and hash-linked batches, table cells, machine integers and error values |
| `BlockTable` | the `subdex_block` table as a value: upsert with pruning, rollback, and the shape they keep (one linked interval of heights) |
| `ForkPoint` | the common ancestor of a table and a canonical chain, defined without reference to the walk that looks for it |
| `Handlers` | handlers as transformers of the entity tables; when a batched two-phase schedule means the same as block by block |
| `Ledgers` | durable state with its history (heights kept, highest height ever committed, the log of committed blocks, number of rollbacks); the two steps the engine makes, and the invariant both keep |
| `Runs` | the whole indexer as a state machine of single statements, with handler failures, refused reorgs, crashes anywhere and restarts |
| `Convergence` | what backfill heads for against one canonical chain, and why one rollback is enough |
| `TipStream` | following the tip: what any stream of deliveries leaves, when no height is skipped, and what a stream that keeps up adds |
| `Source`, `Store`, `Processor` | the classes: source, transactional store, engine, with the loops and early exits of the code |
| `DeferredIndexes` | the registry of indexes dropped for a fresh backfill, as a state machine with crashes |
| `Config`, `Retry` | validation of the loaded configuration; retry with saturating backoff and jitter |
| `Schema`, `Naming`, `SchemaResolver`, `Upsert` | entity model, column and table names, the two-pass resolver, and the generated upsert with a semantics for executing it |
| `AssetRows` | a two-phase handler that bulk-inserts, and how far it keeps the handler contract |
| `Witnesses` | concrete runs and schemas at which the code fails what one would expect of it |

Imperative code is proved against functions on values: `PgStore.SetCursor`
against `BlockTable.SetCursor`, `Processor.FindForkPoint` against
`ForkPoint.ForkOf`, `Processor.CommitBatch` against `Handlers.RunHandlers` and
`BlockTable.SetAll`, `Processor.Backfill` and `Processor.Follow` against paths of
`Ledgers.EngineStep`. The theorems are then about those functions and steps, and
what the functions compute is said once more without them: `BlockTable.Describes`
says what a stored row records, `Handlers.AllWrite` what a schedule of writes
does, `SchemaResolver.ModelOf` what a resolved model says of the document, and
`AssetRows.Tells` what each named column of a stored event holds.
`Runs` and `Processor` meet in `EngineStep`: a run of the state machine and a
call of the engine change the database by the same two steps, and every batch the
engine can commit is committed by some run (`Runs.EveryCommitIsARun`).

## What is assumed

- **Source.** A batch is a prefix of the requested window, in order and
  hash-linked; it is empty only if the source is `flaky`, and shorter than it could
  be only if that or `brief`. The engine checks the parent of a batch's first block
  only. The source's chain does not change during
  a backfill; between the deliveries of the tip and the steps of `Runs` it may.
- **No skipped height.** A batch of `Runs` starts at the height the session stands
  at, as a backfill sees to. The tip stream does not: `Processor.Follow` assumes
  nothing of where a delivery starts, and says more of a stream that keeps up.
- **Hashes.** Two different blocks do not share a hash (`ForkPoint.NoCollisions`),
  wherever rows are compared with a chain. The invariants of `Runs` do not need it.
- **Range.** The head is below `u32::MAX`, because the next height saturates there.
- **Settings.** The retention bound and the invariants of `Runs` are about an
  indexer whose settings never change. Convergence, termination and following
  need only a linked table without gaps, filled under whatever settings.
- **Handlers.** Statements that compare batches with their blocks taken one by one
  are about handlers that own disjoint tables, and whose batch path or prepared
  write, when it succeeds, has done what `process_block` on each block does
  (`Handlers.Independent`). `AssetRows.AssetsHandlerIsLawful` proves that of a
  real one. Everything else, atomicity included, holds for arbitrary handlers.
- **Database values.** What Postgres makes of a bound value is a parameter
  (`Upsert.Database`): the number a text casts to, the value an uncast parameter
  is stored and compared as, or a refusal.
- **Faults.** A `flaky` store or source may fail any request. A commit that
  reports an error may have taken effect or not; it never takes effect in part.

## What the proofs found

- **A stored genesis that is not the source's** makes backfill repeat one step
  forever: the walk reports height 0 as the fork, and rolling back to 0 keeps row
  0. `Convergence.Trapped` is the exact condition (a foreign genesis row within
  the depth bound), `Convergence.TrappedForever` proves the loop,
  `Witnesses.RunIntoTheTrap` is a run into it under any settings, and
  `Processor.Backfill` proves termination and convergence outside it.
  `ForkPoint.RollbackIsExactIff` says the same of one rollback: it leaves exactly
  the canonical rows if and only if the stored genesis is not foreign.
- **Validation does not keep the fork in the table.** Retention counts from the
  highest height ever committed, the depth bound from the cursor. Under an
  accepted configuration a pruned table loses the fork of some chain exactly when
  the depth is unbounded or the rows left are no more than the bound
  (`Config.PrunedTableLosesForkIff`). At a cursor that never moved back that is
  the value 0 only, which means no bound but compares as the smallest
  (`Config.AcceptedConfigKeepsForkIff`). After a rollback it can be any value:
  `Witnesses.TwoReorgsLoseTheFork` is a run with retention 1 and depth 1.
- **Memory and disk can part.** After a reorg that empties a pruned table the
  session goes on from the fork, a restart from the start height
  (`Witnesses.TwoReorgsLoseTheFork`); otherwise the two always agree
  (`Runs.PositionsAgree`).
- **Following can skip heights for good.** The height to refetch after a reorg is
  dropped (`crates/subdex/src/processor.rs:171-175`), and no reorg is needed:
  backfill reads the head once, the tip is subscribed to later, and what becomes
  final in between is never delivered (`Source.Tip.NextFinalized`). A batch whose
  parent is not stored passes the parent check. Over any stream of batches that
  pass it, every height from the start to the cursor is indexed at every moment
  exactly when each batch starts at or below the height after the cursor of its
  moment (`TipStream.NothingIsEverSkippedIff`). `Witnesses.SubscribedTooLate` is a
  delivery that leaves a gap in the table, `Witnesses.PruningHidesTheGap` one that
  leaves a table which is linked and has no gap, over heights never indexed.
  `BlockTable.CommitStaysLinkedIff` and `BlockTable.CommitStaysContiguousIff` say
  exactly which deliveries leave the table linked and without gaps.
- **A list of `BigInt` can be declared but never stored.** The column is
  `NUMERIC[]`, the value is bound as `TEXT[]`, and only scalars are cast.
  `Upsert.TypeChecksIff` makes this the only field type that fails, and
  `Upsert.BigIntListIsNeverStored` is the smallest schema.
- **A `BigInt` is a text to the struct and a number to the table.** A text that is
  not a number is refused (`Upsert.NonNumberIsRefused`), and two structs whose ids
  differ by a leading zero are one row (`Upsert.PaddedIdIsTheSameRow`).
- **A virtual field may share its name with a stored field after it, but not with
  one before it** (`Witnesses.VirtualFieldOrder`), because the repeat check runs
  before virtual fields are skipped, and only over the stored ones.
- **Distinct names do not give distinct columns or tables.** `fooBar` and
  `foo_bar` are one column, and the schema is accepted
  (`Witnesses.ColumnsCollide`); entities `Foo` and `FOO` are one table
  (`Witnesses.TablesCollide`). Camel-case field names never collide
  (`Naming.CamelNamesStayApart`).
- **A bulk insert can fail where its blocks would not.** A statement binds at most
  65535 parameters. `AssetRows.BatchIsEachBlockIff` is the exact condition on row
  counts, `AssetRows.BatchPastTheLimit` a failing batch of two blocks.
- **The documented backoff law** loses a base below a millisecond, the part of a
  base that is not whole milliseconds, and what overflows 64 bits of them.
  `Retry.DocumentedBackoffIff` is the exact condition;
  `Retry.HalfMillisecondIsLost` and `Retry.HugeBaseIsLost` are failing inputs.
- **Code and documentation disagree** on entity rows: the documentation of
  `rollback_to` (`crates/subdex-core/src/store.rs:162-164`) has them rolled back
  too. The code deletes bookkeeping rows only, and so does the model. What is
  said of entity tables after a rollback is only that they are the handlers
  run over everything that was ever committed; `Witnesses.OrphanedRowSurvives` is
  a run after which a row is there that no block of the chain has written. The comment on `process_block`
  describes a rollback by one block; the code walks to the fork.

## Model

| member | source | states |
|---|---|---|
| `BlockTable.PruneOnceAtTheEnd` | crates/subdex-store/src/store.rs:241-282 | setting the cursor block by block with a prune after each equals adding the whole ascending batch and pruning once at its last height |
| `BlockTable.SetAllAt` | crates/subdex-store/src/store.rs:241-282 | row by row, what a table holds after a committed batch: for each height from the retention floor up, the row that records the batch's block of that height (hash, parent, spec version, and the time it states as a signed 64-bit integer), or the older row |
| `BlockTable.RowDescribes` | crates/subdex-store/src/store.rs:241-261 | the row that is bound has the block's hash, parent and spec version, a time exactly when the block states one, and that time, as the signed integer with its low 64 bits |
| `BlockTable.Cursor` | crates/subdex-store/src/store.rs:214-225 | the cursor is the highest stored height, absent exactly when nothing is stored |
| `BlockTable.CommitKeepsSpan` | crates/subdex/src/processor.rs:432-441 | a batch appended at the cursor keeps the stored heights one interval ending at the new cursor, its lower end raised to the retention floor |
| `BlockTable.CommitStaysLinkedIff` | crates/subdex/src/processor.rs:286-314 | for a batch that passed the parent check, wherever it is committed: the table stays hash-linked exactly when the row above the batch, if any, names its last hash |
| `BlockTable.CommitStaysContiguousIff` | crates/subdex/src/processor.rs:171-175 | for a batch committed at any height: the stored heights stay one interval exactly when the batch leaves no gap above or below what is kept |
| `BlockTable.RollbackKeepsSpan` | crates/subdex-store/src/store.rs:288-307 | a rollback leaves a linked interval that ends at the fork |
| `BlockTable.RollbackDeletes` | crates/subdex/src/processor.rs:300-307 | the number of rows a rollback deletes is the distance from cursor to fork, which is the depth reported |
| `BlockTable.CommitBoundsTable` | crates/subdex-store/src/store.rs:263-280 | with pruning on, a contiguous table has at most retention + 1 rows after a commit |
| `ForkPoint.ForkOf` | crates/subdex/src/processor.rs:335-374 | the greatest height at or below the diverged one that is not stored, agrees with the chain, or is genesis; every height above it is stored and disagrees |
| `ForkPoint.TooDeepIff` | crates/subdex/src/processor.rs:345-350 | the walk is refused exactly when every height from cursor - max (above genesis) to the diverged one is stored and disagrees |
| `ForkPoint.DisagreementRises` | crates/subdex/src/processor.rs:318-328 | on a linked table, above a row that disagrees with the chain nothing stored agrees |
| `ForkPoint.RollbackIsExactIff` | crates/subdex/src/processor.rs:286-311 | a rollback to the fork leaves exactly the rows that are on the canonical chain, none lost and none stale, if and only if the stored genesis is not foreign |
| `ForkPoint.ForkStaysNear` | crates/subdex/src/processor.rs:352-356 | the walk ends on a stored height or on the first one below the table |
| `ForkPoint.WalkCanLeaveTableIff` | crates/subdex/src/processor.rs:345-356 | some chain leads the walk off a table unrefused exactly when the depth bound is off or reaches past the lowest row |
| `Handlers.Commute` | crates/subdex-core/src/handler.rs:22-31 | writes confined to disjoint tables commute, failures included |
| `Handlers.BatchRefinesBlocks` | crates/subdex/src/processor.rs:403-449 | a batch that succeeds, each handler over all of it and through its compute phase if it has one, leaves what all handlers on each block in turn leave, for any number of both |
| `Handlers.HandlerMajorIsBlockMajor` | crates/subdex/src/processor.rs:403-449 | and it fails exactly when they do, if every handler's batch path is exact on it |
| `Handlers.RunBlocksAppend` | crates/subdex-core/src/handler.rs:75-80 | running the blocks of two batches in a row is running them as one |
| `Handlers.BatchesRefineBlocks` | crates/subdex/src/processor.rs:403-449 | independent handlers run over batches leave what they leave over the blocks, wherever the batches were cut |
| `Handlers.PrepareFails` | crates/subdex/src/processor.rs:409-415 | a handler whose compute phase fails makes the whole batch fail, whatever the others do |
| `Handlers.EachBlockLeadsIff` | crates/subdex-core/src/handler.rs:75-80 | the default batch path succeeds with given tables exactly when there are intermediate ones, each the next block's `process_block` applied to the one before |
| `Handlers.BatchWriteIff` | crates/subdex/src/processor.rs:417-430 | one handler's write phase is the write it prepared; if none, its own batch path; if none, `process_block` on each block in order |
| `Handlers.RunHandlersIff` | crates/subdex/src/processor.rs:417-430 | a batch's write phase succeeds with given tables exactly when there are intermediate ones, from first to last, each the write phase of the next handler applied to the one before |
| `Handlers.RunBlockLeadsIff` | crates/subdex/src/processor.rs:257-267 | the same for one block and its handlers in order |
| `Handlers.RunBlocksIff` | crates/subdex/src/processor.rs:257-267 | for blocks taken one by one, every handler on each |
| `Handlers.RunBatchesIff` | crates/subdex/src/processor.rs:403-449 | and for batches committed one after another |
| `Ledgers.CommitKeepsInv` | crates/subdex/src/processor.rs:403-449 | a committed batch keeps the invariant: linked interval, retention floor counted from the highest block ever committed, bounded table, one linked log from the start height whose fold is the entity tables |
| `Ledgers.TablesAreBlocks` | crates/subdex/src/processor.rs:403-449 | for independent handlers the entity tables are the fold over the log block by block |
| `Ledgers.RewindKeepsInv` | crates/subdex-store/src/store.rs:288-307 | so does a rollback to the fork |
| `Ledgers.ReopenKeepsInv` | crates/subdex/src/processor.rs:95-100 | so does a restart, which resumes at the height the invariant names |
| `Ledgers.StepKeepsShape` | crates/subdex-store/src/store.rs:241-307 | every commit and rollback keeps a linked table without gaps, under any settings |
| `Ledgers.PositionIsDurableIff` | crates/subdex/src/processor.rs:95-136 | the next height in memory is the one a restart would compute exactly when a row is stored or the table is back at the start height |
| `Ledgers.CommitIsCommitEach` | crates/subdex/src/processor.rs:257-267 | a batch transaction that succeeds leaves the same rows, entity tables and history as a transaction per block; with handlers exact on the batch it also fails exactly when that does |
| `Ledgers.CommitEachAppend` | crates/subdex/src/processor.rs:257-267 | indexing two runs of blocks one after the other is indexing them as one |
| `Runs.StepRefinesEngine` | crates/subdex/src/processor.rs:403-449 | every statement of a run changes the database by one commit or one rollback, or not at all: open transactions, handler failures and crashes leave it as it was |
| `Runs.StepKeepsStateInv` | crates/subdex/src/processor.rs:106-141 | every step keeps the invariant of database and process, including what an open transaction has written so far |
| `Runs.ReachableInv` | crates/subdex/src/processor.rs:106-141 | the invariant holds in every state of every run from a fresh database |
| `Runs.EveryCommitIsARun` | crates/subdex/src/processor.rs:403-449 | every batch the engine can commit, with any number of handlers, is committed statement by statement by some run |
| `Runs.CrashRefinement` | crates/subdex/src/processor.rs:403-449 | over every run without a rollback, wherever it failed, crashed and restarted, there is one linked log from the start height to the cursor, each height once, cut into batches, and intermediate tables from the initial ones to those stored, each batch leading from one to the next by the handlers' own writes in handler order; for independent handlers the same block by block |
| `Runs.CrashForgets` | crates/subdex/src/processor.rs:403-449 | after a crash, a handler's error or a refused reorg the next session starts from what the last commit left, whatever an open transaction had written |
| `Runs.RollbackIsBounded` | crates/subdex/src/processor.rs:286-350 | in every run a reorg deletes rows only, no more of them than the depth bound, and leaves the entity tables as they are |
| `Runs.ChainInvariant` | crates/subdex/src/processor.rs:280-315 | in every reachable state the stored heights have no gap and each row names the hash of the row below it |
| `Runs.RetentionBound` | crates/subdex-store/src/store.rs:263-280 | in every reachable state the table has at most retention + 1 rows and holds every height within retention of every block ever committed, up to the cursor |
| `Runs.PositionsAgree` | crates/subdex/src/processor.rs:95-136 | a running session stands where a restart would, exactly unless a reorg emptied a pruned table |
| `Runs.ForkIsRetained` | crates/subdex/src/processor.rs:345-356 | the walk never ends in pruned ground when the depth bound, counted from every block ever committed, fits the retention |
| `Convergence.RewoundAgrees` | crates/subdex/src/processor.rs:286-311 | outside the trap, the state after the reorg check is wholly canonical and the next window extends it: one rollback is enough |
| `Convergence.TrappedRepeats` | crates/subdex/src/processor.rs:363-366 | with a foreign genesis in reach, the reorg check rolls back to height 0 and leaves the same situation |
| `Convergence.TrappedForever` | crates/subdex/src/processor.rs:111-136 | there the loop makes any number of rollbacks and commits nothing |
| `Convergence.ProgressContinues` | crates/subdex/src/processor.rs:111-136 | each window goes on tiling the chain without gap or overlap, and equals the one-block-at-a-time run |
| `Convergence.RoundKeepsLoopInv` | crates/subdex/src/processor.rs:111-136 | a round settles the loop, and once settled no round is a rollback, so the measure (not yet settled, blocks left) goes down |
| `Convergence.AgreementIsWindow` | crates/subdex/src/processor.rs:106-141 | a contiguous table that agrees with the chain is the chain's window of its heights |
| `Convergence.ScratchTable` | crates/subdex/src/processor.rs:106-141 | what indexing the chain from a fresh database leaves: the window from the retention floor |
| `Convergence.ScratchIff` | crates/subdex/src/processor.rs:106-141 | a converged table equals the one from scratch exactly when the table it started from began at the start height, or the retention floor of the head is above both |
| `Convergence.NothingAboveHead` | crates/subdex-store/src/store.rs:271-280 | which under unchanged settings is always so when nothing above the head was ever committed |
| `Convergence.PathKeepsInv` | crates/subdex/src/processor.rs:106-141 | under unchanged settings every state a backfill or a follow goes through keeps the full invariant |
| `TipStream.OneRollback` | crates/subdex/src/processor.rs:111-136 | against one chain a loop rolls back at most once |
| `TipStream.KeepsUpStep` | crates/subdex/src/processor.rs:148-178 | a stream that keeps up delivers the next window of its chain, and keeps up with whatever the engine makes of it |
| `TipStream.CursorAfter` | crates/subdex-store/src/store.rs:214-282 | a committed batch moves the cursor to its last height, unless it is higher already, on any table |
| `TipStream.SkipsNothingIff` | crates/subdex/src/processor.rs:285-314 | a batch that passes the parent check skips no height exactly when it starts at or below the height after the cursor |
| `TipStream.NothingIsEverSkippedIff` | crates/subdex/src/processor.rs:148-178 | for any stream of such batches, every height from the start to the cursor has been indexed at every moment exactly when each batch starts so |
| `Witnesses.SubscribedTooLate` | crates/subdex/src/processor.rs:106-108 | a delivery that passes the parent check and leaves a gap |
| `Witnesses.PruningHidesTheGap` | crates/subdex-store/src/store.rs:271-280 | a delivery over heights never indexed that leaves a linked table without a gap |
| `TipStream.CaughtUpMeets` | crates/subdex/src/processor.rs:79-91 | where a backfill ends, its chain can be gone on with, after at most one rollback |
| `Source.DataSource.FetchBatch` | crates/subdex-source/src/source.rs:121-141 | a prefix of the window no longer than the source's own cap, in order; all of it up to the cap unless the source is flaky or brief |
| `Source.DataSource.FetchOne` | crates/subdex-source/src/source.rs:45-62 | the block of the chain at that height, or an error |
| `Source.DataSource.FinalizedHead` | crates/subdex-source/src/source.rs:107-119 | the height of the chain's last block, or an error |
| `Source.Tip.NextFinalizedOnce` | crates/subdex-source/src/source.rs:70-103 | subscribes if need be and takes at most one block: the one at the height the subscription stands at, or at the head if it is new; none only when every final block was delivered |
| `Source.Tip.NextFinalized` | crates/subdex-source/src/source.rs:143-161 | while the subscription lives, deliveries are consecutive heights, none only when every final block was delivered; an error leaves no subscription, comes only after the whole budget of attempts, and what follows one starts at the head of its moment, whatever became final in between |
| `Store.PgStore.Cursor` | crates/subdex-store/src/store.rs:214-225 | the highest stored row with its hash |
| `Store.PgStore.HashAt` | crates/subdex-store/src/store.rs:227-235 | the stored hash, if there is a row |
| `Store.PgStore.Begin` | crates/subdex-store/src/store.rs:237-239 | a transaction with its own view of the committed tables |
| `Store.PgStore.SetCursor` | crates/subdex-store/src/store.rs:241-282 | the block's hash, parent, spec version and time are upserted at its height and rows below the retained window pruned, on the transaction's view only |
| `Store.PgStore.Commit` | crates/subdex-store/src/store.rs:284-286 | the view is published as a whole, or on an error possibly not at all |
| `Store.PgStore.RollbackTo` | crates/subdex-store/src/store.rs:288-307 | exactly the bookkeeping rows above the height go, the entity tables stay |
| `Store.PgStore.DeferIndex` | crates/subdex-store/src/store.rs:125-167 | on an empty table the index is dropped and registered together; on one that holds rows no index is lost, the statement's index is there and the registry is as it was |
| `Store.PgStore.OnBackfillComplete` | crates/subdex-store/src/store.rs:313-343 | on success the registry is empty and the indexes of its statements were added to those present; on a failure anywhere each is still registered or exists |
| `DeferredIndexes.NeverLost` | crates/subdex-store/src/store.rs:125-167 | over every interleaving of deferring, indexing, recreating and crashing, an index that was deferred or present is present or registered, and present once the registry is empty |
| `DeferredIndexes.LiveIndexStays` | crates/subdex-store/src/store.rs:133-143 | over every interleaving, an index that is there stays there while rows are stored |
| `DeferredIndexes.DeferredComesBackIff` | crates/subdex-store/src/store.rs:125-167 | over all runs that defer the index first, it is there whenever its entry is cleared, exactly when its statement creates the index of that name |
| `Processor.Processor.ResumeHeight` | crates/subdex/src/processor.rs:95-100 | one above the cursor, or the start height on an empty table |
| `Processor.Processor.CanonicalHashAt` | crates/subdex/src/processor.rs:377-386 | the hash of the chain at that height, or a source error |
| `Processor.Processor.FindForkPoint` | crates/subdex/src/processor.rs:335-374 | returns the fork as defined apart from the walk, or `ReorgTooDeep` with its depth exactly when that fork lies too deep; terminates |
| `Processor.Processor.PrepareAll` | crates/subdex/src/processor.rs:409-415 | whatever order the compute phases finish in, result i is handler i's, and it fails exactly when one of them does |
| `Processor.Processor.ProcessEach` | crates/subdex-core/src/handler.rs:75-80 | the default batch path is `process_block` on each block in order, by way of intermediate tables, and fails exactly when there are none |
| `Processor.Processor.WriteHandlers` | crates/subdex/src/processor.rs:417-430 | the serial write phase leads through intermediate tables, handler by handler: the prepared write, else the handler's own batch path, else `process_block` on each block in order; it fails exactly when there are none, on the transaction only |
| `Processor.Processor.MarkBlocks` | crates/subdex/src/processor.rs:432-437 | every block of the batch is recorded on the transaction, in order |
| `Processor.Processor.CommitBatch` | crates/subdex/src/processor.rs:403-449 | all handlers' writes, handler by handler through intermediate tables, and all cursor rows land together, or nothing does; a compute or write error in any schedule leaves the store as it was |
| `Processor.Processor.CommitBlock` | crates/subdex/src/processor.rs:257-267 | the same for one block: each handler's `process_block` in handler order |
| `Processor.Processor.CheckParent` | crates/subdex/src/processor.rs:285-311 | without divergence nothing changes; with it the store is rolled back once, to the fork, and fork and depth are reported, or the walk is refused and nothing changes |
| `Processor.Processor.ProcessBlock` | crates/subdex/src/processor.rs:227-251 | a block is committed, or a reorg is rolled back to the fork and the height above it returned, with every error case |
| `Processor.Processor.ProcessBatchBlocks` | crates/subdex/src/processor.rs:280-315 | the same for a window, with every error case |
| `Processor.Processor.DepthIsRowsDeleted` | crates/subdex/src/processor.rs:300-307 | the depth reported for a reorg is the number of rows deleted, on a table without gaps |
| `Processor.Processor.ProcessWindow` | crates/subdex/src/processor.rs:125-135 | one round, as a step of the ledger; the depth reported for a reorg is the number of rows deleted |
| `Processor.Processor.FetchWindow` | crates/subdex/src/processor.rs:112-121 | a run of the chain from the next height, no longer than the batch size and not past the head, and as long as these and the source's cap allow unless the source is flaky or brief |
| `Processor.Processor.TakeDelivery` | crates/subdex/src/processor.rs:154-175 | one delivery, whatever it is: its rows are handled or nothing happens; in step, only another chain starts the loop afresh, and blocks are one engine step |
| `Processor.Processor.Proceed` | crates/subdex/src/processor.rs:111-136 | every round extends a path of engine steps and keeps the loop invariant, errors included |
| `Processor.Processor.Backfill` | crates/subdex/src/processor.rs:106-141 | ends, with at most one rollback, from any linked store without gaps outside the genesis trap; the windows committed after it tile the chain and leave what one block at a time would have; at the head the table is the chain's window, no index is left deferred and the deferred ones are there; with reliable parts only a refused reorg stops it |
| `Processor.Processor.Follow` | crates/subdex/src/processor.rs:148-178 | whatever is delivered, the rows are those of the deliveries handled in turn, no more of them than asked for; with a stream that keeps up, over any number of reorgs, every delivered batch is one engine step, at most one rollback for every chain followed, and since a chain was met the same progress holds as for a backfill |
| `Processor.Processor.RunUntil` | crates/subdex/src/processor.rs:79-91 | backfill, then follow: the tip is followed from the last state of the backfill, on a chain the engine can always go on with |
| `Retry.BackoffLaw` | crates/subdex-source/src/config.rs:50-54 | the delay is the least of base * 2^k, the longest 64-bit span of milliseconds and the maximum: saturation shows only as one more cap |
| `Retry.BackoffDoubles` | crates/subdex-source/src/config.rs:47-54 | the first delay is the base, and below the caps each next one is twice the last |
| `Retry.DocumentedBackoffIff` | crates/subdex-source/src/config.rs:47-54 | the delay is min(base * 2^k, max), over the exact base, exactly when the maximum caps what is computed, or the base is whole milliseconds and the uncapped delay fits 64 bits of them |
| `Retry.NothingLostIff` | crates/subdex-source/src/config.rs:51-53 | the computed delay is never above the exact one, and equal exactly when nothing is truncated, wrapped or saturated |
| `Retry.HalfMillisecondIsLost` | crates/subdex-source/src/config.rs:51-53 | a base of half a millisecond gives no delay |
| `Retry.HugeBaseIsLost` | crates/subdex-source/src/config.rs:51-53 | a base of 2^64 milliseconds gives no delay |
| `Retry.BackoffGrows` | crates/subdex-source/src/config.rs:50-54 | the delay is monotone in the attempt and never above the maximum |
| `Retry.JitterBounds` | crates/subdex-source/src/retry.rs:25-37 | jitter adds at most a quarter and loses less than a millisecond |
| `Retry.JitterSpreads` | crates/subdex-source/src/retry.rs:25-37 | the jitter follows the clock: a quarter of the delay times the last three digits of its nanoseconds over 1000, in whole milliseconds |
| `Retry.StopIsUnique` | crates/subdex-source/src/retry.rs:43-71 | there is one place to stop: the first outcome that is not a transient failure, or the last the budget allows |
| `Retry.TotalSleepBound` | crates/subdex-source/src/retry.rs:57-66 | sleeps that are the jittered backoffs of successive attempts take together at most 5/4 of their number times the maximum delay |
| `Retry.RetryAsync` | crates/subdex-source/src/retry.rs:43-71 | for every outcome stream, stops there, returns that outcome, and sleeps the jittered backoff of attempt k before retry k, all together at most 5/4 of retries times maximum |
| `Config.ValidateIff` | crates/subdex-config/src/lib.rs:199-228 | accepts exactly the configs with both URLs whose store, as built, keeps everything or at least the depth the processor, as built, may rewind; an error names the setting at fault |
| `Config.BuildStoreConfig` | crates/subdex-config/src/lib.rs:250-259 | each setting is the one given or its default (5 connections, 5000 blocks), the pool size at least 1 |
| `Config.BuildProcessorConfig` | crates/subdex-config/src/lib.rs:262-271 | each setting is the one given or its default (height 0, 100 blocks, depth 64), the batch size at least 1 |
| `Config.PrunedTableLosesForkIff` | crates/subdex-config/src/lib.rs:214-227 | whatever an indexer under an accepted config has been through, its pruned table loses the fork of some chain exactly when the depth is unbounded or the rows left do not exceed it |
| `Config.AcceptedConfigKeepsForkIff` | crates/subdex-config/src/lib.rs:214-227 | at a cursor that never moved back, an accepted config can lose the fork exactly when the depth bound is 0 |
| `Witnesses.TwoReorgsLoseTheFork` | crates/subdex/src/processor.rs:345-356 | a run under an accepted config with retention 1 and depth 1 that loses the fork, and leaves session and restart at different heights |
| `Witnesses.RunIntoTheTrap` | crates/subdex/src/processor.rs:363-366 | a run into the genesis trap, under any settings |
| `Schema.ScalarNames` | crates/subdex-codegen/src/model.rs:43-71 | a name is read as the scalar that is spelled so, and `JSONObject` as JSON |
| `SchemaResolver.ParseFields` | crates/subdex-codegen/src/parse.rs:129-220 | an entity's fields are accepted exactly when they are well named, typed and have a key; a rejection names a fault they have |
| `SchemaResolver.CollectNames` | crates/subdex-codegen/src/parse.rs:78-113 | the first pass finds every enum and entity name, or an entity name that occurs twice, or none at all |
| `SchemaResolver.ParseSchema` | crates/subdex-codegen/src/parse.rs:74-230 | a document is accepted exactly when its names are distinct and every entity's fields are well formed against all names; the model then says of every entity, enum and column what the document says of it; a rejection names a fault the document has |
| `SchemaResolver.AcceptsIff` | crates/subdex-codegen/src/parse.rs:74-230 | accepted means, said of the document alone: it marks an entity, no two entities have one name, every column has a type the document gives a meaning to, no field repeats a column before it, and each entity has a non-null id |
| `SchemaResolver.ResolvedIsModel` | crates/subdex-codegen/src/parse.rs:104-220 | entities, enums and columns come out one for each marked definition and stored field, in order, with the name, column, type, nullability, index and uniqueness the document states |
| `SchemaResolver.FieldsOfHas` | crates/subdex-codegen/src/parse.rs:129-146 | the columns of an entity are those of its stored fields, virtual ones have none |
| `SchemaResolver.OrderDoesNotMatter` | crates/subdex-codegen/src/parse.rs:78-113 | neither acceptance nor the resolved entities and enums depend on the order of definitions |
| `SchemaResolver.AcceptedIsWellFormedIff` | crates/subdex-codegen/src/parse.rs:129-220 | an accepted entity has one non-null key, and is fit for the upsert generator exactly when no two stored fields have the same snake-case name |
| `SchemaResolver.CamelFieldsAreWellFormed` | crates/subdex-codegen/src/parse.rs:204-213 | which is so whenever fields are named in camel case |
| `Naming.ToSnakeCase` | crates/subdex-codegen/src/model.rs:211-229 | the loop over the characters builds the column name that the naming lemmas are about |
| `Naming.CamelNamesStayApart` | crates/subdex-codegen/src/model.rs:207-229 | different camel-case names get different columns: the name can be read back from the column |
| `Naming.LowerNamesStay` | crates/subdex-codegen/src/model.rs:211-229 | a name without capitals is its own column |
| `Naming.DocumentedColumns` | crates/subdex-codegen/src/model.rs:207-229 | the documented columns: `asset_id`, `id`, and `http_server` for a run of capitals |
| `Naming.PluralByLastLetters` | crates/subdex-codegen/src/model.rs:231-249 | the table name by the last two letters: asset_classes, identities, days, transfers |
| `Witnesses.ColumnsCollide` | crates/subdex-codegen/src/parse.rs:130-138 | an accepted schema with two fields in one column |
| `Witnesses.TablesCollide` | crates/subdex-codegen/src/model.rs:235-249 | two entity names with one table |
| `Witnesses.VirtualFieldOrder` | crates/subdex-codegen/src/parse.rs:130-146 | one order of a virtual and a stored field of the same name is accepted, the other is not |
| `Upsert.RenderUpsert` | crates/subdex-codegen/src/gen_upsert.rs:59-129 | the one pass builds the statement on the entity's table whose lists agree position by position |
| `Upsert.QuotedNameReadsBack` | crates/subdex-codegen/src/gen_upsert.rs:142-144 | a quoted column name reads back as the column, quotes in it included |
| `Upsert.StructValues` | crates/subdex-codegen/src/model.rs:75-84 | the values a struct field can have by its type: texts for ids, strings, decimals, bytes, enums and relations, 32-bit integers for `Int`, 64-bit ones for `DateTime` |
| `Upsert.TypeChecksIff` | crates/subdex-codegen/src/gen_upsert.rs:133-138 | the statement type-checks against the migration's columns exactly when no field is a list of `BigInt` |
| `Upsert.EvaluatesIff` | crates/subdex-codegen/src/gen_upsert.rs:67-77 | every placeholder has a value exactly when the database takes every field of the struct |
| `Upsert.RowIsComplete` | crates/subdex-codegen/src/gen_sql.rs:61-74 | a struct never breaks a `NOT NULL` or the primary key |
| `Upsert.ProposedIs` | crates/subdex-codegen/src/gen_upsert.rs:67-77 | the proposed row has every field's value in that field's column and nothing else |
| `Upsert.UpdateIsReplacement` | crates/subdex-codegen/src/gen_upsert.rs:72-93 | overwriting every column but the id of a row with the same id gives the proposed row |
| `Upsert.IdOnlyRow` | crates/subdex-codegen/src/gen_upsert.rs:84-93 | with only an id, doing nothing is the update |
| `Upsert.UpsertIsCorrect` | crates/subdex-codegen/src/gen_upsert.rs:59-129 | for any struct and database, executing the statement on the table it names puts every field in its column of the row of the entity's table keyed by the id as stored and changes no other row and no other table, exactly when there is no list of `BigInt`, every value is taken, and no other row has the same stored value in a unique column |
| `Upsert.NoTableNoUpsert` | crates/subdex-codegen/src/gen_upsert.rs:95-100 | it fails when the entity's own table is missing |
| `Upsert.UpsertIsIdempotent` | crates/subdex-codegen/src/gen_upsert.rs:59-129 | doing it again changes nothing in any table |
| `Upsert.BigIntListIsNeverStored` | crates/subdex-codegen/src/gen_upsert.rs:133-138 | the smallest schema whose upsert always fails |
| `Upsert.NonNumberIsRefused` | crates/subdex-codegen/src/gen_upsert.rs:30-35 | a `BigInt` text that does not cast fails the upsert and changes nothing |
| `Upsert.PaddedIdIsTheSameRow` | crates/subdex-codegen/src/gen_upsert.rs:30-35 | two `BigInt` ids that differ by a leading zero address one row |
| `AssetRows.RowsForBlock` | examples/multi-pallet/src/assets.rs:84-108 | the rows are exactly those of the creation and destruction events, one each, in event order, with height, index, action, owner and the low 64 bits of the asset id |
| `AssetRows.ExtractsIsUnique` | examples/multi-pallet/src/assets.rs:84-108 | there is only one such list |
| `AssetRows.BuildInsert` | examples/multi-pallet/src/assets.rs:42-72 | tuple i of the statement names, in the order of its column list, the bound values of row i |
| `AssetRows.BulkIsRowByRow` | examples/multi-pallet/src/assets.rs:42-76 | executed on the table it names, the multi-row insert has the effect of inserting the rows one at a time, and touches no other table |
| `AssetRows.RecordOfIs` | examples/multi-pallet/src/assets.rs:42-72 | each value lands in the column of its name, and the key is height and event index |
| `AssetRows.ReindexingChangesNothing` | examples/multi-pallet/src/assets.rs:60-76 | inserting the same blocks' rows again changes nothing |
| `AssetRows.EveryEventIsStored` | examples/multi-pallet/src/assets.rs:42-76 | with distinct event indices, indexing a new batch stores every creation and destruction under its height and index: height, index, "created" or "destroyed", the low 64 bits of the asset id or null, and the owner or null, each in the column of its name; nothing else is new and nothing that was there is touched |
| `AssetRows.PreparedWrite` | examples/multi-pallet/src/assets.rs:35-77 | the write phase executes the statement it builds, or fails without a table or past the parameter limit |
| `AssetRows.BatchIsEachBlockIff` | examples/multi-pallet/src/assets.rs:128-143 | preparing a batch and writing it equals `process_block` on each block exactly when all its rows fit one statement, or those of one block do not |
| `AssetRows.BatchPastTheLimit` | examples/multi-pallet/src/assets.rs:42-76 | a batch of two blocks that fails although each block would succeed |
| `AssetRows.AssetsHandlerIsLawful` | examples/multi-pallet/src/assets.rs:118-147 | the two-phase handler keeps to its own table, and what its bulk write does is what `process_block` on each block does |
| `Witnesses.OrphanedRowSurvives` | crates/subdex-store/src/store.rs:288-307 | a run in which a reorg takes away the block that wrote an asset row, and the row stays |

## Left out

- Processor.Processor.Follow: says what the rows are for every stream, and promises steps, one rollback per chain and progress only for one that keeps up (`KeepsUp`), because the code discards the refetch height and skips what it was not delivered.
- Processor.Processor.Backfill: rules out the foreign-genesis trap, where the loop of the code does not end.
- Entity rows on a reorg: no statement that a rollback undoes handler writes, because the code does not undo them.
- Waiting on the tip and shutdown: the tip stream is the list of what arrives before the engine is shut down; `follow_until` differs from `follow` only in racing that wait. The subscription is modelled by itself (`Source.Tip`), not under `Follow`.
- One-time setup before a run: migrations and the handlers' `init`.
- `HybridSource`, the SQD portal client, RPC, HTTP, GraphQL serving, Postgres itself and its isolation levels: the store is its committed tables and one transaction at a time.
- A second process writing to the same database.
- Concurrency of `fetch_batch` (blocks fetched in parallel, delivered in order) and of `prepare` beyond completion order: `prepare` is a function of the blocks.
- The `indexed_at` clock column, the hash index and the generated key of `asset_lifecycle`.
- Retries inside the source (`retry_async` is modelled by itself, not under `fetch_batch`), logging, metrics and durations passed to the observer.
- `overlay_env` and the environment parsing of the configuration, and settings that reach neither the store nor the processor.
- SS58 addresses, hex and SCALE value decoding: an event carries the two values a handler extracts.
- Which values Postgres refuses and how it compares them, beyond decimal integers: a parameter of the upsert theorems.
- Floating-point values other than finite ones, and limits on the size of a row, an index entry or a column list.
- Text of generated SQL and Rust: statements are syntax trees with quoted names, numbered placeholders and binds; `gen_rust`, `gen_graphql` and the scaffolder are templates.
- The GraphQL text parser: the resolver starts from its definitions.
- Message texts of errors, and which of several handler errors is reported first.
