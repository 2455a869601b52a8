# Sync engine model

A Dafny model of the engine that makes an Iceberg lake table agree with a live Postgres table,
and proofs of what it keeps. `dafny verify dfyconfig.toml` checks everything.

## How the model is built

Time is an integer number of microseconds, a row is `(id, updated_at, created_at, payload)` with
nullable columns, a lake table is a sequence of rows compared as a multiset, a source snapshot
is a map from key to current row (incremental) or a list of rows (bootstrap, reconcile).
Code that updates things step by step is a method or a class, proved against a specification
function; what the repository promises is then proved about those functions. Behaviour that
depends on interleaving is a step machine, and the results hold for every run of it.

| module | what it covers |
|---|---|
| `Prelude`, `Rows`, `Digits` | arithmetic, rows by key, decimal text |
| `Merge` | de-duplication, upsert, the batched merge, the lake table |
| `Marks`, `Incremental` | window bounds, the extract loop, one tick |
| `IncrementalProtocol`, `NoRowLost` | source, lake, watermark and a tick as a step machine; the exact condition under which no row is lost; seeding |
| `Watermarks`, `WatermarkOrder` | the stored row and its text form; the calendar order of its values |
| `CatalogCommit` | racing commits on one catalog row |
| `Chunker`, `CopyWorker`, `Decimals` | chunk plans, COPY streaming, numeric coercion |
| `ChunkState`, `Bootstrap`, `BootstrapOp` | the bootstrap protocol: workers that read, upload part by part into one bucket, commit and record, each attempt on a snapshot of its own |
| `BootstrapLake`, `BootstrapRuns` | what the lake then shows, and particular runs |
| `BootstrapThenSync` | bootstrap while the source changes, seeding, and all ticks after it, end to end |
| `Reconcile`, `Repair` | key reconciliation; key uniqueness over runs of merges and reconciles; what a reconcile does for a missed row |
| `SchemaEvolution` | schema evolution and alignment of staged tables |
| `ConnectionPool`, `ViewCache` | the DuckDB pool with `for_each`, and the view refresh |

Hypotheses the results make explicit:

- A row becomes visible at most `lag` after the instant it is stamped with; the clock that stamps a
  naive or a date column runs at a fixed offset (`zone`) from UTC, any offset. Integer watermarks
  become visible in key order where `keyOrdered` says so.
- One tick per table at a time; a crash may come between any two steps, and the retry starts over.
- An overwrite, an append, a delete, an `add_files` and a metadata-database write are each atomic, and
  a metadata-database write that raises was not made; `add_files` appends references to objects without
  looking at what is there; a reader sees an object as it was uploaded last; a commit succeeds exactly when the loaded table version is still current. A commit may also
  succeed while its caller sees an exception. `sort_indices` is a stable sort.
- A bootstrap starts from an empty table and without a stored watermark. Its planning query and each
  attempt's COPY read snapshots of their own; attempts of one chunk are sequential, attempts of
  different chunks interleave freely.
- The two queries of the seeding each see what is committed when they begin
  (`src/viamedia_pipeline/extract/incremental.py:76-86`), so they may differ.
- Overlap and safety gap are not negative, the chunk target is at least 1.
- De-duplication sorts by the watermark column. The code sorts by `updated_at` even when another
  column is configured; on the windows of a tick, which name each key once, that makes no difference
  (`Merge.DedupeIrrelevant`).
- Namespaces of connections differ: the column `iceberg_namespace` is declared UNIQUE
  (`src/viamedia_pipeline/common/migrations.py:74`).
- `union_by_name` behaves as the docstring of `evolve_table_schema` describes it, column by column; a
  source type narrower than the lake's changes nothing.

## What the proofs found

- The incremental protocol never loses a row exactly under `NoRowLost.SafeSettings`: for
  `timestamptz`, overlap above zero and lag below gap plus overlap; for a naive timestamp, lag below
  overlap; for a date, lag minus zone minus gap at most the overlap days less one day; for an
  integer, commits in key order. With overlap 0 the jump of an empty window to `hi`
  (`src/viamedia_pipeline/extract/incremental.py:219-220`) passes over a row stamped exactly `hi`
  with an id not above `last_id`. A row once missed stays missed through any number of ticks until
  the source touches it; a reconcile brings it back exactly when the lake has no row of its key
  (`Repair.ReconcileRepairsExactly`).
- For a date column `hi` is the UTC date, while the column carries the date of the clock that stamps
  it. With the default overlap and gap, a clock eight hours behind UTC loses rows even when every row
  is visible at once (`NoRowLost.DateBehindUtcLoses`).
- Seeding after a bootstrap takes the plain maximum of the source, so the safety gap does not help
  it. From an empty lake on, no row is ever lost exactly when the watermark is a time, the
  configuration is safe, and the overlap alone exceeds the lag plus the time from the beginning of
  the bootstrap to the seeding; a seeded integer watermark can always lose what was written during
  the bootstrap (`BootstrapThenSync.NeverLosesFromScratchExactly`). A plan without chunks seeds
  nothing (`src/viamedia_pipeline/orchestration/bootstrap_job.py:203-206`) and is not among the
  failing runs.
- The exported snapshot is closed before the first chunk is handed out: the `with` block of
  `src/viamedia_pipeline/orchestration/bootstrap_job.py:79-118` ends, and with it the exporting
  transaction, before the chunks are yielded at lines 127-142. So every attempt falls back to a
  snapshot of its own (`src/viamedia_pipeline/extract/copy_worker.py:189-196`) and a table that
  changes meanwhile is not copied from one point in time. Rows that do not change meanwhile are
  still copied (`BootstrapThenSync.UnchangedIsCopied`).
- Object keys depend on run, chunk and part, not on the attempt
  (`src/viamedia_pipeline/extract/copy_worker.py:174`). A retry of a chunk whose files are already in
  the table overwrites what the table refers to: the lake shows rows of an attempt that has not
  committed, and after its commit the last attempt's rows once per landing. What landed attempts
  read is what the lake shows as long as no attempt uploads after one of its chunk has landed
  (`BootstrapLake.LakeIsWhatWasRead`); `BootstrapRuns.CommittedTwice` is a run where that fails
  unless both attempts read the same row.
- The docstring of `evolve_table_schema` says incompatible changes are skipped. The code puts all
  fields into one schema update, so a new column arrives, and a promotion happens, exactly when no
  column at all clashes (`SchemaEvolution.OneClashKeepsAllOut`). The model follows the code.
- The decimal context of `quantize` has 28 digits, the column type 38: values in between are
  stored as NULL although they fit (`Decimals.FittingValueBecomesNull`).
- `set_watermark` is called forward-only, but on a row without `last_value` it compares with the
  default while `get_watermark` answers `last_ts`: the answer can move back
  (`Watermarks.MovesBackExactly`).
- With id ranges in a day-partitioned plan, a row with a NULL id and a partition value is in no
  chunk (`Chunker.PartitionPlanCovers`).
- A chunk attempt that dies between its commit and its DONE record makes the next attempt append
  the chunk again (`BootstrapRuns.CommittedTwice` ends with all chunks DONE and a row twice). Under
  one snapshot the lake is exact if and only if no attempt of a chunk with rows died there
  (`BootstrapLake.BootstrapCopiesSnapshot`).
- A failed catalog listing prunes every view of that connection
  (`ViewCache.ViewsAreWhatTheCatalogAnswered`). The first DROP that fails ends the prune: a stale
  view survives exactly when a DROP failed at it or before it in the listing (`ViewCache.PrunedStale`).
- `for_each` reaches every connection exactly when the pool is idle; on a pool in use it misses the
  connection another thread keeps and visits some other one twice
  (`ConnectionPool.ForEachCoversExactly`, `ConnectionPool.BusyForEachRepeats`).

## Model

| member | source | states |
|---|---|---|
| NoRowLost.NeverLosesInSettings | src/viamedia_pipeline/extract/incremental.py:125-231 | over all runs from a covered start (commits, ticks cut at any step, crashes, retries), no source row at or below the bound of the watermark is ever missing or stale in the lake, if and only if, in seconds and microseconds: timestamptz overlap > 0 and lag < gap + overlap; naive lag < overlap; date lag - zone - gap <= (whole days of overlap, at least 1) - 1; integer commits in key order |
| NoRowLost.NeverLosesExactly | src/viamedia_pipeline/extract/incremental.py:125-231 | the same over the window's own overlap |
| NoRowLost.TickDelivers | src/viamedia_pipeline/orchestration/incremental_job.py:70-88 | with no assumption on settings or coverage, a tick begun at `now` that is not killed has brought every snapshot row from mark - overlap up to now - gap, in seconds, to the lake before it advances |
| NoRowLost.NoRowIsLost | src/viamedia_pipeline/orchestration/incremental_job.py:70-88 | the safety half, run by run: extract, merge, advance in that order keep coverage through any crash and retry |
| NoRowLost.LosingRun | src/viamedia_pipeline/extract/incremental.py:127-160 | every unsafe configuration has a concrete run from an empty table that loses a row |
| NoRowLost.LostAtUpperBound | src/viamedia_pipeline/extract/incremental.py:215-221 | with overlap 0 the empty-window jump skips a visible row stamped exactly `hi` |
| NoRowLost.JumpPasses | src/viamedia_pipeline/extract/incremental.py:215-221 | from any state with an empty source and an older mark, the jump to `hi` passes over a row that is late by the whole overlap |
| NoRowLost.LostToLateCommit | src/viamedia_pipeline/extract/incremental.py:129-148 | so a row late by the whole gap plus overlap is lost, from a covered start |
| NoRowLost.DateBehindUtcLoses | src/viamedia_pipeline/extract/incremental.py:142-148 | with the default settings a date column stamped eight hours behind UTC loses rows at lag 0 and any other |
| NoRowLost.LostToTie | src/viamedia_pipeline/extract/incremental.py:135-150 | without an upper bound a later commit at the bound with a smaller id is passed over |
| NoRowLost.MissedForever | src/viamedia_pipeline/extract/incremental.py:154-160 | a row behind the bound and absent from the lake never arrives through any number of ticks until the source touches it |
| NoRowLost.TickCatchesUp | src/viamedia_pipeline/orchestration/incremental_job.py:87-88 | when a tick is about to advance, every unchanged row below its upper bound is in the lake at its current version |
| NoRowLost.UninterruptedTick | src/viamedia_pipeline/orchestration/incremental_job.py:70-88 | the effect promised by the tick method is exactly that of a run of the step machine |
| NoRowLost.SeedNeverLosesExactly | src/viamedia_pipeline/extract/incremental.py:75-90 | seeding within `delay` of the chunk snapshot, its two queries on snapshots of their own, never loses a row in any later run if and only if the configuration is safe, and safe with gap and zone 0 and lag increased by `delay` |
| NoRowLost.LostAfterSeed | src/viamedia_pipeline/extract/incremental.py:142-148 | an unsafe date configuration loses a row after a seeding that was itself in time |
| NoRowLost.SeedCoversExactly | src/viamedia_pipeline/orchestration/bootstrap_job.py:217-226 | a watermark set on the bootstrapped lake is a covered start exactly when it is not ahead of the source and all that changed since the snapshot lies above its bound |
| NoRowLost.IntegerSeedCovers | src/viamedia_pipeline/extract/incremental.py:75-90 | for an integer watermark a seeding is a covered start exactly when the snapshot already had every stamped row at its current version |
| IncrementalProtocol.StepKeepsInv | src/viamedia_pipeline/extract/incremental.py:125-231 | each step of source or tick keeps coverage and the pending window's invariant |
| IncrementalProtocol.WindowReachesNext | src/viamedia_pipeline/extract/incremental.py:127-160 | every snapshot row between the old and the new bound satisfies the COPY predicate |
| IncrementalProtocol.NextIsAhead | src/viamedia_pipeline/extract/incremental.py:199-231 | the new mark's bound stays below everything that can still become visible |
| Incremental.WindowExactly | src/viamedia_pipeline/extract/incremental.py:127-160 | bounds and COPY predicate select exactly the rows after (mark - overlap seconds, last_id) and before now - gap seconds; for dates with overlap in whole days covering it, at least one, up to the last day that had ended; without upper bound for naive and integer columns, without overlap for integers |
| Incremental.JumpExactly | src/viamedia_pipeline/extract/incremental.py:215-221 | after an empty window the mark is now - gap if that lies above mark - overlap, unchanged for unbounded kinds |
| Incremental.DateJumpExactly | src/viamedia_pipeline/extract/incremental.py:142-148 | for dates it is the day of now - gap if that lies above the mark less the overlap's days |
| Incremental.RunIncremental | src/viamedia_pipeline/extract/incremental.py:125-231 | the file is the whole stream; the new mark is the lexicographic maximum of mark and rows, `hi` after an empty bounded window, the old mark without a window |
| Incremental.SyncedTable.IncrementalOneTable | src/viamedia_pipeline/orchestration/incremental_job.py:70-97 | the lake is upserted batch by batch with the extracted window and only then the mark advances |
| Incremental.MaxMarkUnique | src/viamedia_pipeline/extract/incremental.py:199-204 | the running maximum is determined by the rows |
| Merge.BatchedEqualsOneShot | src/viamedia_pipeline/load/merge.py:128-161 | for every batch size an ordered tie-free window leaves the same lake as one upsert: untouched keys keep their rows, window keys have exactly their newest row |
| Merge.ReplayAfterCrash | src/viamedia_pipeline/load/merge.py:128-161 | merging the window again after any prefix of its batches, with any batch size, gives that same lake |
| Merge.AnyBatchingMerges | src/viamedia_pipeline/load/merge.py:134-137 | the same for every way of cutting the window, equal sizes or not |
| Merge.DedupeIrrelevant | src/viamedia_pipeline/load/merge.py:150-151 | on a window with distinct keys de-duplication, and so its sort column, does not matter |
| Merge.StaleWindowRegresses | src/viamedia_pipeline/load/merge.py:153-155 | a window merged out of order replaces a newer lake row by an older one |
| Merge.DedupeKeepsNewest | src/viamedia_pipeline/load/merge.py:85-105 | de-duplication keeps exactly one row of each key, and it is a newest one |
| Merge.NewestMeans | src/viamedia_pipeline/load/merge.py:89-91 | newest: no row of the key has a later timestamp, and none has one if this has none |
| Merge.StagedSize | src/viamedia_pipeline/load/merge.py:80-82 | an upsert writes one row per key of its batch |
| Merge.StagedTotalIs | src/viamedia_pipeline/load/merge.py:158-161 | on a window with distinct keys the row total is the window's length |
| Merge.DedupeLatest | src/viamedia_pipeline/load/merge.py:97-105 | the seen-set and mask loop computes that de-duplication |
| Merge.UpsertMerges | src/viamedia_pipeline/load/merge.py:61-82 | one upsert replaces each batch key by its newest row and leaves every other row |
| Merge.UpsertKeyCount | src/viamedia_pipeline/load/merge.py:75-79 | after an upsert each batch key has one row, however many copies the lake held |
| Merge.MergeArrowTable | src/viamedia_pipeline/load/merge.py:47-82 | overwrite by key list, append without keys, nothing for an empty table: together one upsert |
| Merge.MergeParquetBatched | src/viamedia_pipeline/load/merge.py:146-161 | the batch loop's lake, row total and batch count; on an ordered tie-free file the merge of the whole file |
| Watermarks.TextRoundTrip | src/viamedia_pipeline/state/watermarks.py:44-62 | every value of its kind is parsed back from its text unchanged, with or without microseconds, under any UTC offset down to the microsecond |
| Watermarks.SetRefinesAdvance | src/viamedia_pipeline/state/watermarks.py:65-124 | on rows with `last_value` the text store refines the forward-only mark of the protocol |
| Watermarks.StoredIsMaximum | src/viamedia_pipeline/state/watermarks.py:86-124 | after any sequence of calls `get` answers one of the values set or stored, and none of them is greater |
| Watermarks.MovesBackExactly | src/viamedia_pipeline/state/watermarks.py:73-115 | exactly when one call makes `get` answer less than before |
| Watermarks.LegacyRowMovesBack | src/viamedia_pipeline/state/watermarks.py:77-106 | a concrete row without `last_value` whose 2024 answer becomes a 2001 one |
| Watermarks.DefaultRanksZero | src/viamedia_pipeline/state/watermarks.py:34-41 | the default of every kind is the zero of its axis |
| Watermarks.WatermarkTable.GetWatermark | src/viamedia_pipeline/state/watermarks.py:65-83 | default, parsed text, or the `last_ts` fallback, as the row decides |
| Watermarks.WatermarkTable.SetWatermark | src/viamedia_pipeline/state/watermarks.py:86-124 | advances its own row forward-only and leaves all other rows |
| WatermarkOrder.DaysInOrder | src/viamedia_pipeline/state/watermarks.py:104-110 | day numbers order days as (year, month, day) |
| WatermarkOrder.NextDayNumber | src/viamedia_pipeline/state/watermarks.py:24-25 | the next calendar day is the next number, 1970-01-01 being 0 |
| WatermarkOrder.StampsInOrder | src/viamedia_pipeline/state/watermarks.py:104-110 | naive stamps, and aware ones of one offset, compare by date, hour, minute, second, microsecond |
| WatermarkOrder.NextMicroIsNext | src/viamedia_pipeline/state/watermarks.py:104-110 | the axis counts microseconds: the next one on a clock is one more |
| WatermarkOrder.OffsetsMoveTheClock | src/viamedia_pipeline/state/watermarks.py:18-21 | moving wall clock and offset alike keeps the instant |
| WatermarkOrder.SetKeepsTheNewer | src/viamedia_pipeline/state/watermarks.py:86-124 | a stored watermark is replaced exactly by a newer one in Python's order; the new row reads back as set, with `last_ts` for aware stamps only |
| WatermarkOrder.StoredIsGreatest | src/viamedia_pipeline/state/watermarks.py:65-124 | after any calls `get` answers one of the watermarks set or stored, and none is newer in Python's order |
| WatermarkOrder.LegacyAnswer | src/viamedia_pipeline/state/watermarks.py:73-83 | the answer for every row without `last_value`, and for no row |
| WatermarkOrder.DayTextForm | src/viamedia_pipeline/state/watermarks.py:47-48 | a date is written YYYY-MM-DD |
| WatermarkOrder.StampTextForm | src/viamedia_pipeline/state/watermarks.py:45-46 | a datetime is written date, T, HH:MM:SS, a six-digit fraction only if there is one, then the offset |
| WatermarkOrder.OffsetTextForm | src/viamedia_pipeline/state/watermarks.py:45-46 | an offset is written with sign, HH:MM, and more only where it is not whole minutes |
| CatalogCommit.CommitsAreAtomicAppends | src/viamedia_pipeline/load/iceberg_writer.py:283-322 | in every interleaving the table is its old files followed by the file lists of the calls that landed, each once: those that returned, and those that failed after an unseen success; no other call appended anything |
| CatalogCommit.GivingUpNeedsContention | src/viamedia_pipeline/load/iceberg_writer.py:308-322 | each conflict is charged to its own commit by another call, so giving up takes at least `max_attempts` foreign commits during the call |
| CatalogCommit.Catalog.CommitFilesWithRetry | src/viamedia_pipeline/load/iceberg_writer.py:301-322 | against any foreign commits around each attempt, and another exception at any attempt: on success its files stand once, last; after exhaustion nothing of it and every attempt met a commit; after another exception nothing unless the swap succeeded unseen |
| CatalogCommit.Catalog.TryAddFiles | src/viamedia_pipeline/load/iceberg_writer.py:275-280 | the compare-and-swap append |
| Chunker.RangePlanExactly | src/viamedia_pipeline/extract/chunker.py:99-114 | for any bounds, estimate and target, n whole targets (at least 1) and width span / n (at least 1): numbered slices end to end, all of that width but for the last, between min(n, span) and 2n-1; width below twice the target when the estimate is at least the span |
| Chunker.GroupPlanExactly | src/viamedia_pipeline/extract/chunker.py:191-207 | the same for the chunks of one day, all of that day |
| Chunker.RangePlanArithmetic | src/viamedia_pipeline/extract/chunker.py:99-114 | the same over the plan's own count and width |
| Chunker.RangePlanCovers | src/viamedia_pipeline/extract/chunker.py:70-120 | each row with a key is selected by exactly one chunk, one with a NULL key by none |
| Chunker.FullPlanCovers | src/viamedia_pipeline/extract/chunker.py:216-221 | the single chunk selects every row once |
| Chunker.PartitionPlanCovers | src/viamedia_pipeline/extract/chunker.py:135-213 | every row is selected by exactly one chunk, unless id ranges are used and it has a NULL id with a partition value: then by none |
| Chunker.OneDayPerChunk | src/viamedia_pipeline/extract/copy_worker.py:107-126 | chunk ids are plan positions and all rows a chunk selects share its one day (floor of the instant), or are all NULL |
| Chunker.PlanRangeChunks | src/viamedia_pipeline/extract/chunker.py:95-120 | the loop yields that plan, nothing for an empty table |
| Chunker.PlanPartitionedChunks | src/viamedia_pipeline/extract/chunker.py:176-213 | the nested loops yield that plan with continuous ids |
| CopyWorker.ExtractChunkToS3 | src/viamedia_pipeline/extract/copy_worker.py:148-219 | the parts concatenate to the stream, none empty, every part but the last has one fixed size between the limit and the limit plus a row group, keys are numbered, `rows` is the stream's length; the bucket has the parts under these keys; an upload that raises leaves the parts before it, a prefix of the stream |
| CopyWorker.StoredParts | src/viamedia_pipeline/extract/copy_worker.py:169-181 | after a chunk's uploads each of its keys holds the part of its number, and every other key, higher part numbers of an earlier attempt included, what it held before |
| CopyWorker.PartKeysDiffer | src/viamedia_pipeline/extract/copy_worker.py:169-181 | equal object keys mean equal prefix, chunk and part, past the padding widths too |
| CopyWorker.PartKeyForm | src/viamedia_pipeline/extract/copy_worker.py:174 | the object key is prefix/chunk=NNNNNN-partNNNN.parquet, zero-filled |
| CopyWorker.PrefixesDiffer | src/viamedia_pipeline/orchestration/bootstrap_job.py:169 | prefixes of different runs or tables differ, run ids holding no `=`, or one of the two names being the same |
| CopyWorker.PrefixesCanMeet | src/viamedia_pipeline/orchestration/bootstrap_job.py:169 | without that two pairs of names share a prefix |
| CopyWorker.MatchingCount | src/viamedia_pipeline/extract/copy_worker.py:134-144 | a chunk's COPY delivers each selected row as often as the snapshot has it |
| Decimals.KeptIsNearest | src/viamedia_pipeline/extract/copy_worker.py:55-69 | a kept finite value is the nearest multiple of 10^-scale, ties away from zero; NULL exactly when its coefficient needs more than 28 digits |
| Decimals.QuantizeMonotoneIdempotent | src/viamedia_pipeline/extract/copy_worker.py:55-69 | rounding keeps order and does nothing to a kept value |
| Decimals.FittingValueBecomesNull | src/viamedia_pipeline/extract/copy_worker.py:56-66 | a value within the column's 38 digits that is stored as NULL |
| Decimals.CoerceDecimals | src/viamedia_pipeline/extract/copy_worker.py:55-69 | cell by cell: a finite value becomes the multiple of 10^-scale nearest to it, ties away from zero, or NULL exactly when that coefficient has more than 28 digits; an infinity NULL; NaN, NULL and other values stay |
| Decimals.RoundingExamples | src/viamedia_pipeline/extract/copy_worker.py:64 | 1.005 at two places is 1.01, -0.5 at none is -1 |
| ChunkState.ChunkKeysDiffer | src/viamedia_pipeline/state/chunks.py:28-29 | a chunk key names one table and one chunk, whatever the table name contains |
| ChunkState.PutStatus | src/viamedia_pipeline/state/chunks.py:32-56 | a put decides the status of its own record and of no other |
| ChunkState.PutKeeps | src/viamedia_pipeline/state/chunks.py:32-56 | status and error as given (the error cut at 2000 characters, NULL when empty), uri and rows as given or as before, all other records untouched |
| ChunkState.ChunkKeyForm | src/viamedia_pipeline/state/chunks.py:28-29 | the key is the table, `#`, and the chunk in at least six digits |
| ChunkState.ListDoneIsDone | src/viamedia_pipeline/state/chunks.py:79-87 | the listed keys are those recorded DONE in this run |
| Bootstrap.StepKeepsInv | src/viamedia_pipeline/orchestration/bootstrap_job.py:145-196 | every step of every worker, single uploads included, keeps the accounting, the reference counts of the table and what is known about each stored object |
| Bootstrap.CommitAccounting | src/viamedia_pipeline/orchestration/bootstrap_job.py:158-196 | attempts of a chunk that reached the table = 1 if DONE + 1 if now between commit and DONE + deaths there; DONE implies committed |
| Bootstrap.DoneIsFinal | src/viamedia_pipeline/orchestration/bootstrap_job.py:158-164 | a DONE chunk stays DONE, is never committed again, and its objects are never written again |
| Bootstrap.TableIsCatalogRun | src/viamedia_pipeline/orchestration/bootstrap_job.py:175-179 | the table of a bootstrap run is that of a run of racing commit calls |
| Bootstrap.GivingUpMeansContention | src/viamedia_pipeline/load/iceberg_writer.py:308-322 | an attempt that gives up was refused each time because of another attempt's own commit |
| Bootstrap.ObjectKeysDiffer | src/viamedia_pipeline/extract/copy_worker.py:174-180 | different chunks or parts of a run never share an object key, attempts of one chunk do |
| Bootstrap.RunsKeepApart | src/viamedia_pipeline/orchestration/bootstrap_job.py:169 | nor do objects of different runs or tables, run ids holding no `=` |
| BootstrapLake.LakeIsWhatIsStored | src/viamedia_pipeline/extract/copy_worker.py:169-181 | at any moment the lake shows each object the landed attempts listed as it is stored now, once for every landed attempt that listed it |
| BootstrapLake.LakeRowWasRead | src/viamedia_pipeline/extract/copy_worker.py:134-181 | a row in the lake was read by some extraction of a chunk that selects it, which need not have landed |
| BootstrapLake.LakeIsWhatWasRead | src/viamedia_pipeline/orchestration/bootstrap_job.py:170-179 | while no attempt uploads after one of its chunk has landed, the lake holds a row as often as the landed attempts that select it read it, each on its own snapshot |
| BootstrapLake.OneAttemptPerChunk | src/viamedia_pipeline/orchestration/bootstrap_job.py:158-183 | a DONE chunk without a death in the gap shows exactly what one single attempt read, whatever earlier attempts uploaded |
| BootstrapLake.RepeatedChunk | src/viamedia_pipeline/orchestration/bootstrap_job.py:158-183 | with deaths in the gap and equally many parts, a DONE chunk shows the last attempt's rows once per landing |
| BootstrapLake.CompleteRow | src/viamedia_pipeline/orchestration/bootstrap_job.py:145-196 | with all chunks DONE, a row every extraction saw m times is there at least m times, exactly m without a death in the gap, m per landing if the attempts cut alike; a row none saw is not there |
| BootstrapLake.BootstrapCopiesSnapshot | src/viamedia_pipeline/orchestration/bootstrap_job.py:145-196 | if all extractions read one snapshot and all chunks are DONE: the lake is that snapshot as a multiset if and only if no attempt of a chunk with rows died in the gap, in every interleaving |
| BootstrapLake.PartitionedRow | src/viamedia_pipeline/orchestration/bootstrap_job.py:101-196 | planned by day on one snapshot, each extraction on its own: a row that planning saw and all extractions saw m times is there m times, one that none saw is not |
| BootstrapLake.RangedRow | src/viamedia_pipeline/orchestration/bootstrap_job.py:114-196 | the same for id ranges, with any row estimate |
| BootstrapLake.PartitionedBootstrap | src/viamedia_pipeline/orchestration/bootstrap_job.py:101-196 | the special case of one snapshot: from the day planner's query answer on, the table is copied |
| BootstrapLake.RangedBootstrap | src/viamedia_pipeline/orchestration/bootstrap_job.py:114-196 | the same for id ranges |
| BootstrapRuns.CommittedTwice | src/viamedia_pipeline/orchestration/bootstrap_job.py:158-196 | a run whose first attempt dies after its commit: the second one's upload shows before it commits, what the landed attempt read is shown if and only if both read the same row, and all DONE the row is there twice |
| BootstrapRuns.UninterruptedAttempt | src/viamedia_pipeline/orchestration/bootstrap_job.py:161-190 | an attempt without conflict or fault is a run of one worker with the op's promised effect on bucket, table and record |
| BootstrapThenSync.NeverLosesFromScratchExactly | src/viamedia_pipeline/orchestration/bootstrap_job.py:199-233 | bootstrap of an empty table while the source changes, seeding by two queries within `delay` of its beginning, then any run of ticks: no row is ever lost if and only if the watermark is a time and the configuration is safe for the ticks and for the seeding |
| BootstrapThenSync.NeverLosesFromScratchInSettings | src/viamedia_pipeline/orchestration/bootstrap_job.py:199-233 | the same in seconds and microseconds: lag + delay < overlap for timestamps; for dates lag + delay, and lag - zone - gap, at most the overlap's days less one; never for integers |
| BootstrapThenSync.HandoverIsBootstrapped | src/viamedia_pipeline/orchestration/bootstrap_job.py:145-233 | the lake that such a bootstrap leaves is a covered snapshot for the incremental protocol |
| BootstrapThenSync.UnchangedIsCopied | src/viamedia_pipeline/extract/copy_worker.py:186-197 | a row that does not change while the bootstrap runs is the only one of its key in the lake, whatever snapshots were read, attempts repeated and objects overwritten |
| BootstrapThenSync.UnchangedOrRecent | src/viamedia_pipeline/extract/incremental.py:75-87 | a row version at the seeding was there all the time, or is stamped no earlier than the lag before the beginning |
| BootstrapOp.PlanBootstrap | src/viamedia_pipeline/orchestration/bootstrap_job.py:120-142 | hands out exactly the chunks whose key is not DONE in this run, in plan order and as often as planned; the whole plan when nothing is DONE |
| BootstrapOp.ExtractChunkOp | src/viamedia_pipeline/orchestration/bootstrap_job.py:145-196 | skipped if and only if DONE; completed if and only if not DONE, the RUNNING write, COPY, uploads and DONE write do not fail, and the stream is empty or one of ten commit attempts meets no foreign commit before anything breaks it; raised otherwise. The stored parts; keys appended at most once and only when the whole stream is stored under them; FAILED when raised (RUNNING if that write fails too); a raised attempt appended keys only if the DONE write failed or the commit's answer was lost |
| Reconcile.ReconcileTable | src/viamedia_pipeline/load/reconcile.py:35-88 | afterwards key sets agree, rows of shared keys are untouched, counts are right with duplicated lake keys too, and a pass over agreeing keys changes nothing |
| Reconcile.EffectReconciles | src/viamedia_pipeline/load/reconcile.py:67-83 | row by row: shared keys as in the lake, all else as in the source |
| Reconcile.KeySetsAgree | src/viamedia_pipeline/load/reconcile.py:1-15 | a reconciled lake has the source's key set |
| Reconcile.EffectSize | src/viamedia_pipeline/load/reconcile.py:67-86 | the size changes by added minus deleted |
| Reconcile.SecondPassIsIdle | src/viamedia_pipeline/load/reconcile.py:67-83 | with agreeing key sets nothing is deleted, fetched or changed |
| Reconcile.DeleteGone | src/viamedia_pipeline/load/reconcile.py:67-75 | the delete batches together remove all rows of the listed keys, duplicates across batches included |
| Reconcile.AddMissingRows | src/viamedia_pipeline/load/reconcile.py:113-131 | the fetched parts are exactly the source rows of the missing keys, each upserted, and counted |
| Reconcile.KeysStayUnique | src/viamedia_pipeline/load/merge.py:61-82 | over any run of merges and reconciles no key gains duplicates, and a merge that touches a key leaves one row |
| Repair.ReconcileRepairsExactly | src/viamedia_pipeline/load/reconcile.py:67-83 | a reconcile brings a row the ticks have missed to the lake if and only if the lake has no row of its key; an older version of it stays |
| SchemaEvolution.UnionMeets | src/viamedia_pipeline/load/iceberg_writer.py:325-358 | the union succeeds exactly when each source column is absent or comparable in the promotion order; then it loses and narrows nothing and has every source column |
| SchemaEvolution.UnionKeepsPlaces | src/viamedia_pipeline/load/iceberg_writer.py:330-336 | the lake's columns keep their places, new ones follow, no name occurs twice |
| SchemaEvolution.KeptInOrder | src/viamedia_pipeline/load/iceberg_writer.py:380-386 | a drop decides column by column and keeps the order |
| SchemaEvolution.PromotionIsInclusion | src/viamedia_pipeline/load/iceberg_writer.py:330-336 | among int, long and decimals of one scale a promotion is exactly what keeps every value |
| SchemaEvolution.NoOtherPromotion | src/viamedia_pipeline/load/iceberg_writer.py:343-344 | besides these only float to double |
| SchemaEvolution.OneClashKeepsAllOut | src/viamedia_pipeline/load/iceberg_writer.py:343-363 | a new column arrives, and a promotion happens, exactly when no source column clashes; otherwise every type stays as it was |
| SchemaEvolution.ClashBesideNewColumn | src/viamedia_pipeline/load/iceberg_writer.py:349-357 | a concrete update of one clash and one new column that stays out |
| SchemaEvolution.CarriesExactly | src/viamedia_pipeline/load/iceberg_writer.py:325-363 | after an evolve the table can carry every source column exactly when none clashes |
| SchemaEvolution.LakeOnlyGrows | src/viamedia_pipeline/load/iceberg_writer.py:325-391 | through any sequence of source schemas and dropping settings, columns that are protected or still in the source stay and only widen |
| SchemaEvolution.DropsExactly | src/viamedia_pipeline/load/iceberg_writer.py:366-391 | a drop leaves a lake column exactly when it is protected or in the source |
| SchemaEvolution.TableSchema.EvolveTableSchema | src/viamedia_pipeline/load/iceberg_writer.py:346-363 | union all or nothing, then the drop if switched on and not refused |
| SchemaEvolution.TableSchema.UnionByName | src/viamedia_pipeline/load/iceberg_writer.py:349-351 | a failing field leaves the table's schema unchanged |
| SchemaEvolution.EvolveThenAlign | src/viamedia_pipeline/load/merge.py:21-44 | without a clash, evolve then align brings every staged column over with all its values, and NULLs for the rest |
| SchemaEvolution.AlignToTable | src/viamedia_pipeline/load/merge.py:30-44 | one array per table column, in the table's order |
| SchemaEvolution.AlignCases | src/viamedia_pipeline/load/merge.py:33-43 | NULLs for a missing column, the column itself at the same type or along a promotion, else what the cast makes of it |
| ConnectionPool.PoolStaysWhole | src/viamedia_pipeline/gateway/duckdb_pool.py:35-46 | whatever acquires and releases interleave, each connection is once in the queue or with one holder |
| ConnectionPool.HeldIsOutOfReach | src/viamedia_pipeline/gateway/duckdb_pool.py:35-46 | while one thread keeps a connection no run of the others sees it |
| ConnectionPool.ForEachCoversExactly | src/viamedia_pipeline/gateway/duckdb_pool.py:49-52 | an uninterrupted `for_each` reaches every connection if and only if the pool is idle; then each once, in queue order, and the queue ends as it was |
| ConnectionPool.BusyForEachRepeats | src/viamedia_pipeline/gateway/duckdb_pool.py:49-52 | whatever interleaves, on a busy pool `for_each` misses the connection another thread keeps and visits some other one twice |
| ViewCache.DuckDBPool.RefreshAll | src/viamedia_pipeline/gateway/duckdb_pool.py:49-52 | on an idle pool connections are refreshed in queue order, each once, up to the first that raises; that one goes back too, and without a raise the queue keeps its order |
| ViewCache.DuckDBPool.AcquireConn | src/viamedia_pipeline/gateway/duckdb_pool.py:36-41 | the head of the queue, or a timeout exactly when the queue is empty |
| ViewCache.DuckConn.ApplyRefresh | src/viamedia_pipeline/gateway/view_refresher.py:42-70 | the rounds of one refresh on one connection, with any creation, listing or drop failing, up to a secret or schema statement that raises |
| ViewCache.DuckConn.Prune | src/viamedia_pipeline/gateway/view_refresher.py:60-70 | one DROP per listed view without a table; the first that fails ends the loop |
| ViewCache.PrunedStale | src/viamedia_pipeline/gateway/view_refresher.py:60-70 | a listed stale view survives if and only if a DROP failed at it or before it |
| ViewCache.RefreshAgrees | src/viamedia_pipeline/gateway/view_refresher.py:42-70 | whichever statements failed, each view of a refreshed namespace shows the catalog's location, or its old self where its creation failed; a stale one is gone unless the listing failed or a DROP at or before it; other namespaces are untouched |
| ViewCache.ViewAfterRefresh | src/viamedia_pipeline/gateway/view_refresher.py:42-70 | the same name by name, without auxiliary notions |
| ViewCache.ViewsAreWhatTheCatalogAnswered | src/viamedia_pipeline/gateway/view_refresher.py:19-35 | without failed statements a view scans a location exactly when the catalog listed the table and loaded it from there |
| ViewCache.ResolveTables | src/viamedia_pipeline/gateway/view_refresher.py:19-35 | the loop leaves out tables that fail to load, and resolves nothing when the listing fails |

## Left out

- UninterruptedAttempt: links the op to the machine for an attempt without conflict; conflicts and faults are covered by the op's own contract and by the machine separately.
- TextRoundTrip: only the ISO 8601 forms that `isoformat` writes.
- NeverLosesFromScratchExactly: the plan must cover the rows its own planning query saw, which the planner theorems give for tables whose keys are not NULL.
- AlignToTable: conversions that are not promotions are a parameter, so nothing is said about their values.
- Concurrent incremental runs on one table: the code does not promise the result; `Merge.StaleWindowRegresses` shows why.
- NULL primary keys in merge and incremental, NULL keys in the lake at reconcile, and merge keys other than `id`: preconditions, as the code makes no promise there.
- Bootstrapping into a table that already has rows, and `create_or_get_table` with its recreate paths.
- A source that changes during a reconcile, and the race between its key query and its fetch.
- Postgres, S3, Parquet, Arrow, PyIceberg and DuckDB internals, SQL text building; statistics that a table keeps of an object which is overwritten later.
- String and JSON coercion, type mapping, discovery and glob filtering: lookups.
- Dagster wiring, schedules and sensors: only the freedom of interleaving and retry is kept.
- The web gateway, authentication, the query store, `sql_guard`, settings, encryption, migrations and table maintenance.
