# Verified model of the benchmark's data pipeline

A Dafny model of the logic behind an ETL benchmark: the concurrent
pipeline that replays a dataset into a target system, the two programs that
drive it to numbered checkpoints, and the smaller components around it
(duration texts, the rate limiter, the JSON-RPC connection to system adapters,
YAML configuration values, and the columnar metrics converter).

`dafny verify dfyconfig.toml` checks everything.

## What is modelled

**The pipeline.** A shared work plan maps batch IDs to tables. One task per
table pops an ID, speculatively reserves later ones, reads them out of order,
reassembles them in order until a row target is reached, and hands back what it
did not need. `RunSegment` is that algorithm as a step system: pops,
reservations, read completions, writes, joins and the ends of outer iterations
interleave freely. `TableLane` is one table's view of it, `SegmentSafety` the
invariant, `SegmentOutcome` where a segment can end, `SegmentCounts` the
counters, `SegmentProgress` termination. `Reference` is a run without tasks,
reservations or coalescing; `Pipeline` is the pipeline object, proved to refine
it.

**Rows.** `Coalesce` regroups record batches, `Replay` splits them by operation
and says what concurrent chunk writes do to a target table (observed one key at
a time, as the bag of rows the key has), `Writer` interleaves the chunk writes
of all tables under the two semaphores, `Target` says what a key and the ledger
hold as a count over the rows' `_op` texts, `PartReader` reads a batch stored in
parts. `EndToEnd` puts initialization, tasks, coalescing, splitting, writers and
ledgers together over whole runs.

**The drivers.** `Drivers` has the checkpoint oracle and the benchmark run as
methods on the pipeline object, and the exact condition under which their
checkpoint numbering agrees.

**The rest.** `Decimal` and `Duration*` (parser, printer, grammar, round trip),
`RateLimiter`, `Rpc`, `Yaml`, `Otel`, `OtelConverter` and `OtelBatch`.

## What turned out not to hold as documented

- `run` accepts every state although its comment says otherwise; only
  `initialize`, `start` and `continue_pipeline` check the state
  (`Pipeline.ETLPipeline.Run`).
- A read that finds batches but no record batch ends its table. The exact
  condition for a segment to do what it is meant to is `SegmentOutcome.IdealIff`;
  `SegmentOutcome.EmptyBatchEndsTable` is the failing family.
- In bootstrap mode, a plan that ends before the base is seeded makes the
  benchmark start over and write everything twice, and a base of fewer than two
  steps is numbered differently by the oracle (`Drivers.DriversAgreeIff`).
- A step budget of zero pauses forever without progress
  (`SegmentOutcome.ZeroBudgetStalls`).
- A key updated to two values in one run of updates may end with either
  (`Replay.UpdateExactIff`, `Replay.DoubleUpdateRaces`), and rows are sorted per
  coalesced batch only (`Replay.SortFixedIff`, `Replay.SortIsPerBatchOnly`).
- A part listed twice can be lost, unless it is the smallest
  (`PartReader.AllPartsIff`, `PartReader.DuplicateIsLost`).
- With about 2^32 fraction digits and a negative exponent, the digit counter of
  the duration parser wraps (`DurationExact.ShiftNanosIff`,
  `DurationExact.WrapShows`).
- A failed metrics conversion spoils the next one: rows it had appended show up
  in the next batch, and a row it had begun makes the next call fail
  (`OtelConverter.NextCallIff`, `OtelConverter.StaleRowsAppear`,
  `OtelConverter.PartialRowRefuses`).

## Model

| member | source | states |
|---|---|---|
| `EndToEnd.WholeMeansRows` | crates/etl/src/lib.rs:1366-2189 | The whole pipeline, storage to target: initialize, then any number of run/continue segments with any positive budgets, any schedule of table tasks and writers, any row target, chunk size and permits; once the plan is empty every key of every table holds what the rows of all listed batches, in ascending order and up to the first missing one, would have left if applied one by one |
| `EndToEnd.WholePausedMeansRows` | crates/etl/src/lib.rs:1366-2189 | The same at every pause, for the rows of the batches taken so far, initialization's included |
| `EndToEnd.WholeLeaves` | crates/etl/src/lib.rs:857-997 | The same on completion, said on the `_op` texts alone: the number of copies of a key is the number of its rows that are neither "u" nor "d" after its last "d" row, plus the copies it began with if there is no "d"; a last row "u" makes every copy its value, a last row "d" leaves none; in general the last update since the last delete overwrites what was there before it and the later inserts are added |
| `EndToEnd.WholePausedLeaves` | crates/etl/src/lib.rs:857-997 | The same at every pause, for the batches taken so far |
| `Target.BatchesLeave` | crates/etl/src/lib.rs:760-997 | The same for one stream cut into any batches and chunks and written in any chunk order |
| `Target.FoldIsLeft` | crates/etl/src/lib.rs:857-869 | Applying rows one by one leaves a key exactly the bag read off its `_op` texts: last delete, last update after it, inserts before and after that |
| `Target.LeftReads` | crates/etl/src/lib.rs:857-869 | That bag has the size and, after a closing update or delete, the contents just described |
| `Target.InsertThenUpdate` | crates/etl/src/lib.rs:857-869 | An insert followed by an update of the same key leaves the updated value once and counts one net row |
| `EndToEnd.WholeTakenIsPrefix` | crates/etl/src/lib.rs:1366-1987 | The batches taken from a table so far are a prefix of everything listed up to the first missing one, and all of it once the plan is empty |
| `EndToEnd.WholeLedgers` | crates/etl/src/lib.rs:886-918 | Cumulated over initialization and all segments, at every pause and at completion, `net_rows` of each table is the inserted minus the deleted source rows of the batches taken, and `ingest_rows_total` is their number of rows, for every target, chunk size, budget list and schedule |
| `EndToEnd.CompletedLedgers` | crates/etl/src/lib.rs:886-918 | On completion the ledgers count everything listed, up to the first missing batch of each table |
| `EndToEnd.CompletedNet` | crates/etl/src/lib.rs:886-918 | On completion `net_rows` of a table is the number of its listed rows whose `_op` is neither "u" nor "d" minus the number whose `_op` is "d" |
| `Target.NetCounts` | crates/etl/src/lib.rs:886-918 | A list of rows nets its rows that are neither "u" nor "d" minus its "d" rows, and these and the "u" rows are all its rows |
| `EndToEnd.WholeLedgersAreLog` | crates/etl/src/lib.rs:928-993 | At every pause the ledgers equal the sink's cumulated write log: inserts minus deletes per table, and its total number of rows, without any assumption on the rows |
| `EndToEnd.RunMeansRows` | crates/etl/src/lib.rs:1762-2189 | A complete run from any plan: each table not finished before holds what its stored rows up to the first missing batch would have left; a table finished before is untouched |
| `EndToEnd.RunsAgree` | crates/etl/src/lib.rs:1366-2189 | Two completed pipelines over the same storage and listing agree on every key, whatever their budgets, schedules, row targets, chunk sizes and caps |
| `EndToEnd.RunExists` | crates/etl/src/lib.rs:1366-2189 | For every list of positive budgets such runs exist, initialization included: no schedule of tasks or writers is forced into a dead end |
| `EndToEnd.SegmentMeansRows` | crates/etl/src/lib.rs:1762-2189 | One segment changes a table by exactly the rows of the batches the checkpoint interval assigns to it |
| `EndToEnd.BatchesAreStream` | crates/etl/src/lib.rs:274-348 | Grouping by the row target and coalescing only regroup the stored rows |
| `SegmentOutcome.SegmentOutcomeFixed` | crates/etl/src/lib.rs:1762-2189 | Schedule independence and checkpoint exactness: every schedule that stops a segment (budget absent or at least 1) leaves the plan cut exactly at the L-th smallest key, has written exactly the prescribed reads of every table in order, and pauses or completes as that boundary exists or not |
| `SegmentOutcome.DeliveredOnceInOrder` | crates/etl/src/lib.rs:498-674 | A segment's output for a table is ascending, without repetition and a prefix of the available pending IDs; it is all of them if and only if the interval does not end with a void read |
| `SegmentOutcome.IdealIff` | crates/etl/src/lib.rs:2040-2047 | A segment delivers everything available and ends a table only at a missing batch if and only if no table that is still going ends its interval with a read of no record batch |
| `SegmentOutcome.EmptyBatchEndsTable` | crates/etl/src/lib.rs:2040-2047 | The failing family: a present batch without record batches, alone in its interval, marks its table finished although a later batch is still in the plan |
| `SegmentOutcome.ZeroBudgetStalls` | crates/etl/src/lib.rs:1900-1918 | A budget of zero pauses at once and consumes nothing |
| `SegmentOutcome.LeavesClean` | crates/etl/src/lib.rs:1883-1987 | When the outer loop is left, nothing inside the interval remains in the plan, and the step limit is only reached if a boundary exists |
| `SegmentSafety.StepKeeps` | crates/etl/src/lib.rs:1890-2189 | Every step of the interleaving model keeps the invariant: each table's output, running task and pending IDs together continue the prescribed grouping, and plan entries beyond the boundary are untouched |
| `SegmentSafety.TwoReads` | crates/etl/src/lib.rs:562-593 | In every state that any schedule reaches, a table has at most two reads in flight |
| `TableLane.LaneComplete` | crates/etl/src/lib.rs:595-674 | Whatever read completes next, the table task ends with the prescribed prefix of the pending IDs, and what it hands back continues the grouping |
| `TableLane.LaneHandsBack` | crates/etl/src/lib.rs:522-674 | A completed read takes over the stored reservations at the front; a task that has enough rows hands back all others, one whose first batch is missing those behind it, one that finds a later batch missing none, and a running one none; the step counter is lowered by the number of handed-back reservations that had removed their step |
| `TableLane.LaneReserve` | crates/etl/src/lib.rs:522-560 | A reservation takes the next pending ID of the table and no ID twice |
| `TableLane.LaneWrite` | crates/etl/src/lib.rs:2018-2060 | Writing a read, or reporting an empty one as the end of the table, keeps the grouping |
| `Reader.SpanIsMinimal` | crates/etl/src/lib.rs:498-674 | The prescribed read is the shortest prefix of the pending IDs that reaches the row target, all of them if none does, cut at the first missing batch |
| `Reader.GroupsCover` | crates/etl/src/lib.rs:498-674 | Successive reads concatenate to exactly the batches before the first missing one |
| `WorkPlan.WorkState.ReserveNext` | crates/etl/src/lib.rs:360-388 | Takes the least ID after the cursor (the largest ID counts as after itself, since the cursor saturates) and within the boundary that still lists the table, removes just that unit, drops an emptied entry and reports it; nothing happens exactly if there is no such ID |
| `WorkPlan.WorkState.Restore` | crates/etl/src/lib.rs:562-593 | Hands reservations back one by one: the plan is the old one with those units added and no duplicates |
| `WorkPlan.WorkState.Build` | crates/etl/src/lib.rs:1643-1677 | The new plan lists a table under an ID exactly if the listing has it, minus the initialized first ID, without duplicates and without empty entries; finished tables are cleared |
| `WorkPlan.TakeEffect` | crates/etl/src/lib.rs:360-388 | Removing a unit leaves every other table's IDs and every other entry as they were, and no empty entry |
| `WorkPlan.GiveAllEffect` | crates/etl/src/lib.rs:562-593 | Handing back restores exactly the named units of one table and touches no other |
| `SegmentCounts.WorkIsConserved` | crates/etl/src/lib.rs:2134-2189 | At every step boundary of every schedule, processed units plus units left in the plan equal the units at the start, no plan entry is empty, and the logical step counter is not negative |
| `SegmentCounts.NeverSaturates` | crates/etl/src/lib.rs:562-593 | A table task hands back fewer units than it has counted as consumed, so the saturating subtraction never saturates |
| `SegmentCounts.MarkArrive` | crates/etl/src/lib.rs:562-593 | Every decrement of the logical step counter by a hand-back is covered by an increment by one of its own reservations |
| `SegmentProgress.StepDescends` | crates/etl/src/lib.rs:1890-2189 | Every step lowers a lexicographic measure although reservations are handed back |
| `SegmentProgress.SomeStep` | crates/etl/src/lib.rs:1890-2189 | A running segment always has an enabled step |
| `SegmentProgress.CanStop` | crates/etl/src/lib.rs:1890-2189 | From every state that can occur some schedule stops the segment |
| `SegmentProgress.RunPipeline` | crates/etl/src/lib.rs:1762-2189 | A scheduler that picks any enabled step terminates, always with the same outcome |
| `Reference.AdvanceKeepsProspect` | crates/etl/src/lib.rs:1883-1987 | Conservation over a segment of any budget: what a table has received plus what it is going to receive does not change |
| `Reference.RunDeliversExactly` | crates/etl/src/lib.rs:1602-1639 | From any plan and any number of segments with any budgets: once nothing is left, each table has received what it had plus the ascending list of its planned batches, cut before the first missing one |
| `Pipeline.InitializedRunDelivers` | crates/etl/src/lib.rs:1366-1677 | Exactly once from initialization on: for any budgets, once nothing is left each table has received every listed batch once and in ascending order, the initialized first one included, cut before the first missing one |
| `Reference.AdvanceKeys` | crates/etl/src/lib.rs:1883-1888 | A segment of budget L pauses if and only if L keys are left, and then removes exactly L of them; otherwise it leaves none |
| `Reference.PausesFloor` | crates/etl/src/lib.rs:1618-1639 | A plan of N keys pauses exactly floor(N / L) times before it completes |
| `Pipeline.Refines` | crates/etl/src/lib.rs:1762-2189 | The concrete segment leaves the reference's remaining work and pause, and equals the reference segment in finished tables and sink contents if and only if no read was void |
| `Pipeline.ETLPipeline.constructor` | crates/etl/src/lib.rs:1148-1186 | A new pipeline: not started, nothing planned, nothing written |
| `Pipeline.ETLPipeline.Initialize` | crates/etl/src/lib.rs:1366-1560 | Accepted only when not started; writes the first listed batch of every table, or stops if one is missing |
| `Pipeline.ETLPipeline.Start` | crates/etl/src/lib.rs:1572-1599 | Accepted only after initialization; plans everything but the first batches and runs without a budget |
| `Pipeline.ETLPipeline.Run` | crates/etl/src/lib.rs:1602-1616 | Accepted in every state; rebuilds the plan, skipping first batches only when initialized, and runs with the budget |
| `Pipeline.ETLPipeline.Continue` | crates/etl/src/lib.rs:1618-1639 | Accepted only when paused; keeps plan and sink, counts the checkpoint and runs with the current budget |
| `Pipeline.ETLPipeline.SetBatchBudget` | crates/etl/src/lib.rs:1210-1212 | Overrides the budget of the next segment and nothing else |
| `Pipeline.ETLPipeline.Wait` | crates/etl/src/lib.rs:1747-1760 | The stopped segment has left the reference's work and state, and has advanced the pipeline exactly as the reference does if and only if no read was void; a zero budget changed nothing |
| `Pipeline.ETLPipeline.Complete` | crates/etl/src/lib.rs:1366-1760 | Initialize, run with a budget, then continue with any positive budgets until completed: it succeeds exactly if every first batch is stored, it ends, and every table's sink then holds each listed batch once, ascending, up to the first missing one |
| `Pipeline.WriteFirsts` | crates/etl/src/lib.rs:1376-1560 | Adds the first batch of every table in any order, succeeding if and only if all are in storage |
| `Drivers.CheckpointOracle` | src/commands/checkpoint.rs:267-331 | The oracle driver's checkpoints are numbered 0, 1, 2, … in order; number i shows the work left and the sink after i+1 segments, the first with the base (or 1, or the interval) as its budget and the others with the interval; there is one for every pause and one for the completion, and each pause leaves as many steps less as the budgets so far pay for |
| `Drivers.BenchmarkRun` | src/commands/load/mod.rs:1107-1186 | The same for the benchmark driver, whose numbers come from the pipeline; a base that the plan cannot fill makes it a log of the run started over |
| `Drivers.SeededRun` | src/commands/run.rs:269-294 | Seeding the base and then resuming is such a log with the base as checkpoint 0; starting over is one of the full plan on top of the seeded sink |
| `Drivers.DriverLoop` | src/commands/load/mod.rs:1211-1310 | The pause/continue loop numbers its checkpoints consecutively from where it starts, one per stop, each with the state after its segment, and the last with no work left |
| `Drivers.LogIsRight` | src/commands/checkpoint.rs:279-304 | The recursive log used for comparing the drivers has these numbers and states, entry by entry |
| `Drivers.AgreeWhenAligned` | src/commands/checkpoint.rs:267-331 | Oracle and benchmark assign every checkpoint index the same consumed batches when the drivers are aligned |
| `Drivers.DriversAgreeIff` | src/commands/run.rs:269-294 | Exact condition: for every listing that initialization accepts and that lists each table's least ID first, the two logs are equal if and only if the drivers are aligned (no bootstrap; or a base of two or more steps that the plan can fill; or the degenerate cases where nothing or one step is at stake) |
| `Drivers.DifferOnShortBase` | src/commands/checkpoint.rs:270-277 | A base of fewer than two steps with an interval above one makes the two numberings differ |
| `Drivers.DifferOnReplay` | src/commands/run.rs:269-294 | A plan that ends before the base is seeded makes the benchmark write every batch a second time |
| `PartReader.ReadLogicalBatch` | crates/etl/src/lib.rs:390-482 | For any list of part IDs: an error exactly if a listed part is missing; if only the smallest ID is listed more than once, the batches of all parts concatenated in part-ID order, the sums of their row and byte counts, and the keys of the smallest ID; no parts means the unpartitioned file |
| `PartReader.AllPartsIff` | crates/etl/src/lib.rs:408-475 | Over sorted IDs, every order of completions merges all listed parts in order if and only if only the smallest ID is listed more than once |
| `PartReader.DuplicateIsLost` | crates/etl/src/lib.rs:440-445 | The shortest failing list: a later part listed twice completes twice before the first one, and one copy is lost |
| `PartReader.MergeParts` | crates/etl/src/lib.rs:408-475 | The bounded read loop returns the missing-part error exactly if a part is missing, and otherwise the concatenation, sums and first keys of the parts that some order of completions merges |
| `PartReader.MergedIs` | crates/etl/src/lib.rs:446-475 | Appending part by part is the concatenation of the stored parts, the sums over them and the keys of the first |
| `PartReader.TwoInFlight` | crates/etl/src/lib.rs:409-436 | At most two part reads are in flight in every state that any order of completions reaches |
| `Coalesce.CoalesceBatches` | crates/etl/src/lib.rs:274-348 | The loop computes the specified regrouping |
| `Coalesce.CoalescedIsCompact` | crates/etl/src/lib.rs:274-348 | Outputs concatenate to the inputs, each has 1 to target rows, and two neighbours together exceed the target |
| `Coalesce.CompactCount` | crates/etl/src/lib.rs:274-348 | Hence the number of outputs is bounded by the number of rows over the target |
| `Coalesce.CompactFixed` | crates/etl/src/lib.rs:274-348 | A list with these properties is left unchanged |
| `Coalesce.CoalesceIdempotent` | crates/etl/src/lib.rs:274-348 | Coalescing twice is coalescing once |
| `Replay.SplitByOp` | crates/etl/src/lib.rs:792-833 | The walk over the sorted rows cuts them into segments that concatenate to the rows, each of one `_op` text with the operation of that text, and neighbours of different text |
| `Replay.RunsAreMaximal` | crates/etl/src/lib.rs:792-833 | The specified segments are these maximal runs |
| `Replay.SegmentsAre` | crates/etl/src/lib.rs:760-855 | One insert of the whole batch exactly if the table is not mutating, there is no `_op` column or every row says "c"; otherwise the maximal runs of the sorted rows |
| `Replay.ChunkSizes` | crates/etl/src/lib.rs:920-930 | No chunk is larger than the insert batch size; without one the segment is written whole |
| `Replay.SortIsIdentity` | crates/etl/src/lib.rs:779-790 | Any sort by `_op_index` leaves rows as they are whose index never decreases and is shared by identical rows only |
| `Replay.SortFixedIff` | crates/etl/src/lib.rs:779-790 | And only such rows: every sort leaves a list as it is if and only if its index is of that kind |
| `Replay.SegmentMeaning` | crates/etl/src/lib.rs:920-996 | Chunks of a segment written in any order leave a key what the segment's rows, applied one by one, leave, if an update segment does not give the key two values |
| `Replay.UpdateExactIff` | crates/etl/src/lib.rs:920-996 | Exact condition for updates: every chunk size and order give a key what its rows give one by one, if and only if the key has no rows or the segment does not give it two values |
| `Replay.BatchMeaning` | crates/etl/src/lib.rs:841-855 | Fast path or sort and split, a batch means what its rows mean |
| `Replay.MeaningPreserved` | crates/etl/src/lib.rs:760-997 | A table's stream cut into any batches and chunks and written in any chunk order means what its rows mean |
| `Replay.SortIsPerBatchOnly` | crates/etl/src/lib.rs:779-790 | With indices out of order along the stream the target depends on where the row target cuts it: for every chunk size an inserted row stays if the two rows share a batch and is deleted if they do not |
| `Replay.DoubleUpdateRaces` | crates/etl/src/lib.rs:920-996 | Two updates of one key in a run: either value can be the one that stays |
| `Writer.StepKeeps` | crates/etl/src/lib.rs:920-996 | Every step of the writers keeps both permit bounds, the barrier between segments and the ledgers |
| `Writer.PermitsRespected` | crates/etl/src/lib.rs:920-996 | In every interleaving in-flight writes stay within the global and per-table caps, and all chunks of a segment are written before the next segment begins |
| `Writer.LogIsHistory` | crates/etl/src/lib.rs:928-993 | Along any interleaving, what the sink has received of a table are the chunks whose writes have finished, in the order in which they finished |
| `Writer.NeverStuck` | crates/etl/src/lib.rs:920-996 | Until everything is written some step is enabled: the two permit levels cannot deadlock |
| `Writer.RunLength` | crates/etl/src/lib.rs:920-996 | Every run of the writers from a state to a state has the same length, so every maximal run ends with everything written |
| `Writer.CanFinish` | crates/etl/src/lib.rs:920-996 | From every state that can occur some schedule writes everything |
| `Writer.LedgersMatch` | crates/etl/src/lib.rs:886-918 | From wherever the counters stand: at any moment the ingest counter has grown by the rows of the write log, and for a table that is done its net rows have grown by inserted minus deleted rows of that log, for every coalescing, segmentation and chunking |
| `Writer.LedgersCountRows` | crates/etl/src/lib.rs:886-918 | In source rows: a table that is done has had its net rows grow by its inserted minus its deleted rows, and its log has as many rows as its source, whatever the order of `_op_index` |
| `Writer.WritesMeanRows` | crates/etl/src/lib.rs:871-997 | Under every interleaving of all tables' chunk tasks, a table that is done holds what its rows, applied one by one, would have left |
| `DurationFormat.RoundTrip` | crates/duration-parse/src/lib.rs:473-531 | Parsing the printed text of any duration, the longest included, gives back exactly that duration |
| `DurationFormat.FormatInjective` | crates/duration-parse/src/lib.rs:473-531 | Different durations print differently |
| `DurationFormat.FormatDuration` | crates/duration-parse/src/lib.rs:473-531 | The printer's successive pushes produce the specified text |
| `DurationFormat.FieldsNanos` | crates/duration-parse/src/lib.rs:480-527 | The mixed-radix components weigh exactly the duration |
| `DurationFormat.Signs` | crates/duration-parse/src/lib.rs:97-126 | A plus sign in front of a printed duration changes nothing, a minus sign is refused |
| `DurationFormat.BareSeconds` | crates/duration-parse/src/lib.rs:374-406 | A number without a unit is that many seconds: every integer that fits u64 |
| `DurationFormat.BareInCompound` | crates/duration-parse/src/lib.rs:129-159 | The same in front of any printed duration: the seconds are added to it |
| `DurationFormat.UnitlessIsSeconds` | crates/duration-parse/src/lib.rs:374-406 | In any text, a number followed by no suffix of the unit table takes no suffix and is multiplied by one second |
| `DurationFormat.UnitTexts` | crates/duration-parse/src/lib.rs:374-406 | Every integer followed by each of the nine suffixes is worth that many of the unit |
| `DurationFormat.InfinityTexts` | crates/duration-parse/src/lib.rs:97-126 | "inf" and "infinity" in any mixture of cases, with an optional plus, are the longest duration; with a minus, or with nothing after the sign, the text is refused |
| `DurationFormat.WhiteSpaceIgnored` | crates/duration-parse/src/lib.rs:97-101 | White space before or after a text does not matter |
| `DurationLaws.ParseAccepts` | crates/duration-parse/src/lib.rs:97-159 | The whole parser accepts a text exactly if, between white space, after an optional plus and without a minus, it is an infinity literal (worth the longest duration) or a segment list that fits |
| `DurationLaws.ParseExact` | crates/duration-parse/src/lib.rs:97-159 | An accepted finite text is worth the sum over its segments of the decimal value times the unit, each rounded down to nanoseconds, capped at the longest duration, whenever no segment's exponent does harm in the sense of `DurationGrammar.SegmentExactIff` |
| `DurationLaws.CompoundAccepts` | crates/duration-parse/src/lib.rs:129-159 | The parser accepts exactly the non-empty lists of segments (greedy tokens) whose numbers fit |
| `DurationLaws.CompoundExact` | crates/duration-parse/src/lib.rs:129-159 | An accepted finite text is worth the sum over its segments of the decimal value times the unit, each rounded down to nanoseconds, capped at the longest duration, whenever no segment's exponent does harm in the sense of `DurationGrammar.SegmentExactIff` |
| `DurationLaws.SegmentsExact` | crates/duration-parse/src/lib.rs:129-159 | The same for the segment loop with any running total, with acceptance in both directions |
| `DurationLaws.FitsExponent` | crates/duration-parse/src/lib.rs:252-370 | A number with an exponent fits exactly if both digit strings are u64 numerals, the exponent reads at most 20 and the shift succeeds |
| `DurationLaws.NumberErrors` | crates/duration-parse/src/lib.rs:173-245 | Which number is refused with which error: an oversized fraction at its first digit, a missing number at position 0, everything else without a position |
| `DurationGrammar.SegmentExactIff` | crates/duration-parse/src/lib.rs:252-429 | Number parsing, exponent shift and multiplication together give a segment's exact value, if and only if its exponent neither saturates the integer nor wraps the digit count of a fraction that shows |
| `DurationExact.ShiftNanosIff` | crates/duration-parse/src/lib.rs:252-429 | The same for a number, an exponent and a unit, as a condition on them alone |
| `DurationExact.WrapShows` | crates/duration-parse/src/lib.rs:346-370 | A number where it fails: u32::MAX fraction digits and exponent -20 wrap to 19 digits, and the parser finds 1.8 seconds where the exact value is below a nanosecond |
| `DurationNumber.ShiftExactIff` | crates/duration-parse/src/lib.rs:252-370 | Shifting by an exponent preserves the rational value if and only if the count of fraction digits stays within u32 or the wrapped fraction is zero |
| `DurationNumber.ShiftOkIff` | crates/duration-parse/src/lib.rs:252-370 | A shift succeeds exactly if the exponent is between -20 and 20 and the digits fit: u128 if all become integer, otherwise u64 for each part |
| `DurationNumber.ShiftSaturates` | crates/duration-parse/src/lib.rs:324-334 | An integer that does not fit u64 after the shift becomes u64::MAX |
| `DurationNumber.MultiplyExact` | crates/duration-parse/src/lib.rs:408-429 | Multiplying by the unit rounds the exact product down; the fallback for denominators beyond u128 drops a zero term |
| `DurationNumber.ManyDigits` | crates/duration-parse/src/lib.rs:187-200 | More fraction digits than u32 can count do not change the product |
| `DurationText.ParseNumber` | crates/duration-parse/src/lib.rs:173-245 | The digit loops produce the specified number, remainder and errors |
| `DurationText.ApplyExponent` | crates/duration-parse/src/lib.rs:252-370 | Sign and digit scanning of the exponent produce the specified shift or error |
| `DurationText.ParseCompound` | crates/duration-parse/src/lib.rs:129-159 | The segment loop computes the specified sum or error |
| `DurationText.ParseDuration` | crates/duration-parse/src/lib.rs:97-126 | Trimming, sign and infinity handling around the compound parser |
| `DurationText.NanosToDurationCaps` | crates/duration-parse/src/lib.rs:431-440 | Conversion to a duration is exact up to the longest duration and capped there |
| `RateLimiter.RateLimiter.constructor` | crates/util/src/rate_limiter.rs:45-50 | A new limiter starts at now |
| `RateLimiter.RateLimiter.Reserve` | crates/util/src/rate_limiter.rs:55-69 | The wait and the new cursor are those of the timeline specification; zero units or no rate change nothing |
| `RateLimiter.RateBound` | crates/util/src/rate_limiter.rs:55-69 | Units reserved from i up to but not including j are at most rate times the time between their starts, with equality if and only if all later requests were backlogged, even with clock readings out of order |
| `RateLimiter.WindowBound` | crates/util/src/rate_limiter.rs:55-69 | In any window of time no more than its share of units is reserved: idle time buys no burst |
| `RateLimiter.NeverEarly` | crates/util/src/rate_limiter.rs:55-69 | No start precedes its caller's clock or the initial cursor |
| `RateLimiter.StartsRespect` | crates/util/src/rate_limiter.rs:55-69 | The starts are a timetable that respects rate, cursor and clocks |
| `RateLimiter.EarliestStarts` | crates/util/src/rate_limiter.rs:55-69 | They are the earliest such timetable for the same order of callers |
| `Rpc.NextLine` | crates/system-adapter-protocol/src/client.rs:305-354 | In every interleaving of calls, cancellations and server turns, the next line a waiting call reads is its own reply with the server's answer, or the reply to a strictly older, cancelled call not discarded before |
| `Rpc.RunIsSound` | crates/system-adapter-protocol/src/client.rs:290-354 | Every returned reply is the server's answer to that very call, and at most one line is discarded per cancelled call |
| `Rpc.NeverLost` | crates/system-adapter-protocol/src/client.rs:325-354 | A waiting call's request or reply is on the wire, and every move of server or client brings the reply nearer |
| `Rpc.StepKeeps` | crates/system-adapter-protocol/src/client.rs:290-354 | Every step keeps lines in ID order, each belonging to a cancelled call or, last, to the waiting one |
| `Rpc.ReadReply` | crates/system-adapter-protocol/src/client.rs:325-354 | The read loop returns the first line with the expected ID and discards exactly the lines before it |
| `Rpc.StdioClient.CallTyped` | crates/system-adapter-protocol/src/client.rs:290-303 | A call takes the next ID, never used again, and returns the first line that carries it |
| `Rpc.RunStdio` | crates/system-adapter-protocol/src/server.rs:161-184 | One reply per request line, in order |
| `Rpc.Handle` | crates/system-adapter-protocol/src/server.rs:187-234 | The reply echoes the request's ID (null if absent or unreadable); it is a success with a given result exactly if a known method with valid parameters reaches its handler and the handler returns that result; a failing handler, and each other cause, has exactly its error code |
| `Yaml.MergeResolves` | crates/yaml/src/de.rs:65-95 | Merge resolution key by key, on the document: the last own pair decides; otherwise the first merge pair that offers the key, where a hash offers what it converts to, an array what its first offering item offers, depth first, and a scalar nothing |
| `Yaml.KeyOrder` | crates/yaml/src/de.rs:65-95 | The keys of a converted hash are its own keys where they first occur, then the new keys of its merge values in document order; with the value of each key this fixes the mapping |
| `Yaml.OwnComesFirst` | crates/yaml/src/de.rs:81-92 | Merging only appends to the own entries |
| `Yaml.MergeGives` | crates/yaml/src/de.rs:65-116 | A hash that merges a one-key hash converts to that hash |
| `Yaml.RealTexts` | crates/yaml/src/de.rs:43-56 | A real scalar is the number its text parses to; of the other texts exactly the six special spellings, in any mixture of cases, are infinities and not-a-number, and the rest strings |
| `Yaml.ConversionIsNormal` | crates/yaml/src/de.rs:31-116 | A converted document has no merge key and no duplicate key at any depth |
| `Yaml.RoundTrip` | crates/yaml/src/ser.rs:32-81 | Writing a normal value and reading it again is the identity |
| `Yaml.ConvertedRoundTrip` | crates/yaml/src/ser.rs:32-81 | Every converted document survives the trip through YAML, without an integer that does not fit |
| `Yaml.RoundTripIff` | crates/yaml/src/ser.rs:32-81 | A value whose document the loader could produce comes back unchanged if and only if it is in normal form |
| `Yaml.WritesIff` | crates/yaml/src/ser.rs:32-81 | Writing fails exactly if there is an integer beyond i64 at some depth |
| `Yaml.PairsWritten` | crates/yaml/src/ser.rs:32-81 | A written hash binds every key once, to the value of its last entry |
| `Yaml.YamlToValue` | crates/yaml/src/de.rs:31-62 | The recursive conversion computes the specified value |
| `Yaml.HashToValue` | crates/yaml/src/de.rs:65-95 | The two passes over a hash compute own entries and merges |
| `Yaml.CollectMergeValues` | crates/yaml/src/de.rs:98-116 | Appends the mappings of a merge value, depth first |
| `Yaml.ValueToYaml` | crates/yaml/src/ser.rs:32-81 | The loops build the specified document, or fail on an integer beyond i64 anywhere inside |
| `OtelConverter.OtelToArrowConverter.constructor` | crates/otel-arrow/src/converter.rs:397-424 | All builders start empty |
| `OtelConverter.OtelToArrowConverter.ProcessPoint` | crates/otel-arrow/src/converter.rs:538-677 | A data point is refused exactly if a time, its temporality, its number or an attribute offset cannot be represented; otherwise one cell is appended to each of the fifteen columns; a refused point leaves exactly the cells before the one that could not be represented |
| `OtelConverter.OtelToArrowConverter.ProcessMetric` | crates/otel-arrow/src/converter.rs:478-536 | Points are appended in order up to the first refusal, which leaves what it leaves; an exponential histogram is refused |
| `OtelConverter.OtelToArrowConverter.Convert` | crates/otel-arrow/src/converter.rs:430-476 | On builders in any state: the result and the builders afterwards are those of the specified conversion. With reset builders it succeeds exactly if every data point is representable, the batch then reads back row by row as the data points, and the builders are reset, so the next call is independent |
| `OtelConverter.RefusedCleanIff` | crates/otel-arrow/src/converter.rs:538-677 | A refused item leaves the columns as they were if and only if it is refused before its first append; otherwise the times are one cell ahead of the last column |
| `OtelConverter.LeftBehindIff` | crates/otel-arrow/src/converter.rs:430-476 | A failed call on reset builders leaves exactly the rows before the refused item, if and only if that item is refused before its first append |
| `OtelConverter.NextCallIff` | crates/otel-arrow/src/converter.rs:430-476 | The next call on data it can represent succeeds if and only if the failed call's item was refused at once, and its batch then starts with the failed call's rows; otherwise it is refused |
| `OtelConverter.NextCallCleanIff` | crates/otel-arrow/src/converter.rs:430-476 | The next call gets its own rows and no others if and only if the failed call refused its very first item at once |
| `OtelConverter.StaleRowsAppear` | crates/otel-arrow/src/converter.rs:430-476 | At a concrete pair of trees: the second call returns two rows for one data point |
| `OtelConverter.PartialRowRefuses` | crates/otel-arrow/src/converter.rs:430-476 | At a concrete pair of trees: the second call, which would have succeeded on its own, is refused |
| `OtelConverter.PushAllFaithful` | crates/otel-arrow/src/converter.rs:538-677 | Columns filled from empty builders are aligned, their offsets are sound, and every row reads back as its data point |
| `OtelConverter.PushedRow` | crates/otel-arrow/src/converter.rs:538-677 | An appended row can be read back and leaves the others unchanged |
| `OtelConverter.BatchKinds` | crates/otel-arrow/src/converter.rs:538-677 | In every row exactly one of number and histogram is valid, as the metric type says |
| `OtelBatch.TreeRow` | crates/otel-arrow/src/converter.rs:430-677 | The batch has one row per data point, in the order of scopes, metrics and points, and every column of that row says what the tree says there |
| `OtelBatch.BatchFields` | crates/otel-arrow/src/converter.rs:538-804 | What the columns say, with the codes of the schema: times, names, type 1/2/3, temporality 1 for delta and 2 for cumulative, monotonicity of sums only, the integer or double cell of a number, count, sum, min, max, buckets and bounds of a histogram, and each attribute list in order with its type codes, the value in the column of its type and null in the others |
| `OtelBatch.ConvertedBlank` | crates/otel-arrow/src/converter.rs:679-721 | Flags and dropped-attribute counts are null and all structs and lists are valid in every row of a batch |
| `Otel.ListsRecovered` | crates/otel-arrow/src/converter.rs:326-393 | Offsets start at 0, never decrease, stay within the child arrays and i32, and slicing by them recovers each row's attributes |
| `Otel.AddAttributes` | crates/otel-arrow/src/converter.rs:723-804 | Appends one cell per attribute to all child arrays and closes the list, failing exactly if the offset exceeds i32 |

## Left out

- Error and cancellation exits of `run_pipeline`: reservations are deliberately not restored there, and the only promise is that the result is stopped; storage I/O errors and panics are not modelled.
- Pipeline.ETLPipeline.Complete: assumes that stored batches are not empty; what happens otherwise, segment by segment, is the if-and-only-if of `Pipeline.ETLPipeline.Wait`. The sinks of a table that does not list its least ID first are not described; the storage sorts the IDs.
- EndToEnd.WholeMeansRows: assumes that stored batches are not empty, that `_op_index` never decreases along a table's stream and is shared by identical rows only, and that no run of updates gives the key two values; `SegmentOutcome.IdealIff`, `Replay.SortFixedIff` and `Replay.UpdateExactIff` are the exact conditions piece by piece. The writers of a segment are modelled apart from its readers, with more interleavings than the source has: every table's writes may start at any time.
- Replay: an update overwrites the existing rows of its key, as the SQL sinks do; the MongoDB and DynamoDB sinks insert a missing row instead, which is not modelled.
- Drivers.CheckpointOracle: the interval is at least 1; a zero interval stalls as in `SegmentOutcome.ZeroBudgetStalls`. Stored batches are not empty.
- Drivers.BenchmarkRun: checkpoint-aware mode only; without an interval the run uses `start` and has a single final state. Validation queries, timeouts and shutdown are not modelled. Stored batches are not empty.
- EndToEnd.WholeLedgers: the clamping of negative net rows to zero on export is not modelled; a dataset declared without mutations is taken to have none.
- SegmentCounts.WorkIsConserved: the logical step counter is shown not to underflow, not to be exact; two tables that reserve the same step can make it over-count.
- RateLimiter.RateLimiter.Reserve: real arithmetic, without the rounding of doubles and of nanosecond durations.
- DurationText.ParseDuration: ASCII input; error texts are reduced to their kind and position.
- DurationLaws.ParseExact: segments whose exponent does harm are excluded; `DurationGrammar.SegmentExactIff` says that exactly those have another value.
- DurationLaws.CompoundExact: excludes the same segments.
- Rpc.NextLine: lines are atomic; cancellation in the middle of a line, a server that closes its output, and the HTTP transport are not modelled. Request IDs do not overflow.
- Yaml.RoundTrip: reading and printing of finite doubles is taken to be an inverse pair, and not-a-number has one bit pattern; text emission, the loader and the serde layers are not modelled.
- OtelConverter.OtelToArrowConverter.Convert: doubles are real numbers, so the loss of precision of large integers in histogram sums is not modelled; the arrow arrays are the sequences appended to the builders.
- Arrow internals (view-buffer compaction, concatenation, take), the `__created_at` column, key column names, partition columns, and the stripping of bookkeeping columns.
- S3 and local storage, archives, parquet, ADBC and Flight, telemetry, hardware probing, command-line arguments, progress logging, timing samples, and the Python and Go scripts.
