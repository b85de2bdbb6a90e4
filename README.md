# DMR-test counters: partitioner, shard store and snapshot, in Dafny

DMR-test is a small MPI program that shares a fixed set of `NUM_COUNTERS`
(50) counters, each capped at `MAX_COUNTER_VALUE` (20), among a pool of
workers (MPI ranks). The resize library (DMR) may grow or shrink the pool
while the counters are still being incremented.

- Each worker holds one contiguous shard.
- A step raises every counter of the shard that is below the cap by one.
- The worker then tells the resize engine whether to expand, shrink or stay.
- On a resize, every worker writes its shard to a staging file. Rank 0
  concatenates the staging files into one canonical text file of one
  integer per line.
- After the resize, every worker reads its new shard back from that file.

This project models these parts and proves properties about them.

- `faults.dfy` (`Faults`): every `MPI_Abort` of the core, except the
  write-open and allocation failures listed under "Left out", is modelled
  as a `Status.Abort` or `Result.Failure` carrying the reason.
- `partition.dfy` (`Partition`): `offset` and `dimension`.
  - `ShardStart` is a reference definition: the sum of the sizes of the
    lower ranks. `Slice`, `Shards` and `Flatten` describe the partition of
    a global sequence.
  - The lemmas prove that the shards tile `[0, n)`, that shard sizes are
    balanced, and that concatenating the shards gives the sequence back.
- `line_format.dfy` (`LineFormat`): the text of a snapshot line.
  - `printf("%d")` is modelled by `FormatInt` and `atoi` by `Atoi`.
  - The `"%s.%03d"` staging-file name is modelled by `Pad3` and
    `StagingPath`.
  - The lemmas prove that `atoi` reads back every value `%d` writes, and
    that distinct ranks get distinct staging files.
- `counter_store.dfy` (`CounterStore`): `init_counters` and
  `check_counters` as methods over an `array<int>`. The main-loop step and
  the suggestion rule are `Step`, proved against the function `Advance`.
  `RunWithoutResize` is the whole main loop of a worker whose membership
  never changes, with its termination measure.
- `snapshot.dfy` (`Snapshot`): the file system is the `files` field of the
  class `Storage`, a `map<string, seq<string>>` from path to lines.
  - `init_data` is `Storage.InitData`.
  - Phase 1 of `checkpoint` is `Storage.WriteStaging`; phase 2 is
    `Storage.MergeStaging`. The two barriers become the boundaries between
    sequential phases for the whole pool (`Storage.Checkpoint`).
  - These methods are proved against the functions `Stage`, `StageAll`,
    `Gather` and `CheckpointFiles`.
- `restore.dfy` (`Restore`): `restart` is split into the reallocation
  (`Reallocate`), the skip and read loops (`ReadShard`, `ReadInto`) and
  the whole call (`Restart`). These are proved against the reference
  reader `RestoreFrom`. The as-written variant `RestartAsWritten` and the
  counterexamples of the two findings are here too.
- `driver.dfy` (`Driver`): the start-up of a worker in `main` (`test.c`
  lines 53-61) and the lemmas that tie the parts together.
  - A checkpoint by any pool followed by a restore by any other pool gives
    every new worker its own slice of the global counters.
  - The worked scenario is one worker that grows to two.

`floor((double)n / size)` in `offset` and `dimension` is modelled as `n / size`.
The two agree for the positive operands that pass the validation.
The membership query of `restart` (`MPI_Comm_rank`, `MPI_Comm_size` after the resize) becomes the
parameters `newRank` and `newSize`. The worker's pool is a sequence of arrays indexed by rank.

## Model

| member | source | states |
|---|---|---|
| Partition.Dimension | src/test_functions.c:29-39 | never negative; 0 whenever `size <= 0`, `rank < 0`, `rank >= size` or `n <= 0` |
| Partition.Offset | src/test_functions.c:16-27 | never negative; 0 for the same invalid arguments |
| Partition.ShardSizesBalanced | src/test_functions.c:38 | a shard has `n / size + 1` items exactly when `rank < n % size`, `n / size` otherwise, and any two shard sizes differ by at most one |
| Partition.DimensionPositiveIff | src/test_functions.c:29-39 | a shard is non-empty exactly when the arguments are valid and `rank < n` |
| Partition.FirstShardStartsAtZero | src/test_functions.c:26 | rank 0 starts at index 0 |
| Partition.OffsetStep | src/test_functions.c:26 | rank `r+1` starts where rank `r` ends |
| Partition.LastShardEndsAtN | src/test_functions.c:26 | the last shard ends at `n` |
| Partition.OffsetIsShardStart | src/test_functions.c:26 | the closed form of `offset` equals the sum of the sizes of all lower ranks |
| Partition.SizesSumToN | src/test_functions.c:38 | the shard sizes of all ranks add up to `n` |
| Partition.ShardInRange | src/test_functions.c:16-39 | every shard lies inside `[0, n)` |
| Partition.ShardsOrdered | src/test_functions.c:16-39 | a lower rank's shard ends no later than a higher rank's starts: no overlap |
| Partition.Owner | src/test_functions.c:16-39 | every index of `[0, n)` is held by some valid rank: no gap |
| Partition.ShardsTile | src/test_functions.c:16-39 | a rank holds index `i` exactly when it is the owner of `i`: each index has exactly one holder |
| Partition.Slice | src/test_functions.c:16-39 | the part of a global sequence a rank holds has `dimension` items |
| Partition.FlattenShards | src/test_functions.c:16-39 | the shards of all ranks, concatenated in rank order, are the global sequence |
| Partition.ShardsOfFlatten | src/test_functions.c:16-39 | a pool whose rank r holds `dimension(r)` items is the partition of the concatenation of its shards |
| Partition.FiftyOverThreeRanks | src/test.h:68 | 50 counters over 3 ranks are shards of 17, 17 and 16 starting at 0, 17 and 34 |
| LineFormat.NatDigits | src/test_functions.c:192 | the `%d` text of a natural number is a non-empty string of digits, one digit long exactly below 10 |
| LineFormat.FormatInt | src/test_functions.c:56-192 | the `%d` text of `v` is non-empty, starts with `-` exactly when `v` is negative, and is otherwise made of digits |
| LineFormat.NatDigitsValue | src/test_functions.c:192 | the digits of `n` have value `n` |
| LineFormat.LeadingDigits | src/test_functions.c:162 | the run of digits `atoi` reads is a prefix of the text that stops at the first non-digit |
| LineFormat.SkipSpaces | src/test_functions.c:162 | what remains after the white space `atoi` skips is no longer than the text and does not start with white space |
| LineFormat.SkipSpacesSuffix | src/test_functions.c:162 | what `atoi` skips is a prefix of the text made only of white space, and the rest is the matching suffix |
| LineFormat.Atoi | src/test_functions.c:162 | text that does not start, after white space, with a digit or a sign reads as 0, and a negative value comes only from text whose first non-space character is `-` |
| LineFormat.AtoiOfDigits | src/test_functions.c:162 | `atoi` of the digits of `n` is `n` |
| LineFormat.AtoiFormatInt | src/test_functions.c:153-192 | `atoi` reads back every integer `%d` writes, negative ones included |
| LineFormat.Pad3 | src/test_functions.c:180 | the `%03d` text of a rank is at least 3 digits |
| LineFormat.Pad3Value | src/test_functions.c:180 | the padded digits of `n` have value `n` |
| LineFormat.Pad3Injective | src/test_functions.c:180 | distinct ranks get distinct padded numbers |
| LineFormat.Pad3Examples | src/test_functions.c:180 | 0, 7, 42 and 1234 are written `000`, `007`, `042` and `1234` |
| LineFormat.StagingPath | src/test_functions.c:180-214 | the staging file name of a rank is the canonical path, a `.`, then at least 3 more characters |
| LineFormat.StagingPathsDistinct | src/test_functions.c:180-214 | no staging file is the canonical file, and distinct ranks have distinct staging files |
| CounterStore.ZeroCounters | src/test_functions.c:80-83 | `k` counters, all 0 |
| CounterStore.InitCounters | src/test_functions.c:62-88 | aborts with an invalid count exactly when `numCounters <= 0`; otherwise a fresh array of exactly `numCounters` zeros |
| CounterStore.CheckCounters | src/test_functions.c:90-107 | 1 exactly when some of the first `numCounters` counters is below the cap; 0 for a null array, a non-positive count, or all counters at the cap |
| CounterStore.Advance | src/test.c:82-91 | a step keeps the length and maps every counter to itself plus one when below the cap, unchanged otherwise |
| CounterStore.AdvanceN | src/test.c:79-91 | `t` steps keep the shard's length |
| CounterStore.AdvanceBoundedAndMonotone | src/test.c:84-88 | a step keeps counters in `[0, MAX_COUNTER_VALUE]`, never lowers one, and raises a counter by exactly one exactly when it is below the cap |
| CounterStore.SaturatedIsFixpoint | src/test.c:79-91 | when no counter is below the cap, a step changes nothing |
| CounterStore.RemainingZeroIffDone | src/test.c:79 | the total distance to the cap is 0 exactly when `check_counters` would stop the loop |
| CounterStore.AdvanceReducesRemaining | src/test.c:79-91 | a step never increases the total distance to the cap, and strictly lowers it while some counter is below the cap |
| CounterStore.AdvanceNAt | src/test.c:79-91 | after `t` steps a counter is its start value plus `t`, stopping at the cap |
| CounterStore.MaxDeficitIsMax | src/test.c:79-91 | the largest distance to the cap bounds every counter's distance and is reached by some counter |
| CounterStore.StillRunningIff | src/test.c:79 | after `t` steps work is left exactly when `t` is below the largest distance to the cap |
| CounterStore.ZeroStartAfter | src/test.c:79-91 | from all zeros, after `t <= 20` steps every counter is `t` |
| CounterStore.ZeroStartRunsMaxSteps | src/test.c:79-91 | from a non-empty all-zero shard, the loop lasts exactly `MAX_COUNTER_VALUE` steps |
| CounterStore.SuggestionFor | src/test.c:101-113 | the suggestion is expand exactly when the first counter is 3, shrink exactly when it is 8, and stay exactly when it is neither |
| CounterStore.SuggestionScheduleFromZero | src/test.c:101-113 | from all zeros, the worker suggests expanding after exactly step 3 and shrinking after exactly step 8 |
| CounterStore.Step | src/test.c:82-113 | the array after the step is `Advance` of the array before it, and the suggestion is expand when the first counter is 3, shrink when it is 8, stay otherwise |
| CounterStore.RunWithoutResize | src/test.c:79-120 | the loop ends with no counter below the cap, after exactly as many steps as the largest distance to the cap; the array is the start after that many steps, and the suggestion after each step is logged |
| Snapshot.FormatLines | src/test_functions.c:190-193 | one line per counter |
| Snapshot.FormatLinesAppend | src/test_functions.c:190-228 | writing two runs of counters one after the other gives the two runs of lines |
| Snapshot.ZeroSnapshotIsZeroCounters | src/test_functions.c:53-57 | the zero file is the text of 50 zero counters |
| Snapshot.StageAllAt | src/test_functions.c:178-195 | after phase 1 of all ranks, rank r's staging file holds exactly rank r's counters, in order |
| Snapshot.StageAllElsewhere | src/test_functions.c:178-195 | phase 1 leaves every file that is not a staging file as it was |
| Snapshot.Gather | src/test_functions.c:211-230 | the merge of the staging files of ranks `0..size-1`: when it aborts, it names a rank in `[0, size)` whose staging file is missing |
| Snapshot.GatherCompletesIff | src/test_functions.c:211-230 | the merge completes exactly when the staging files of all ranks exist, and when it aborts, every lower rank's staging file exists, so the one named is the first missing |
| Snapshot.GatherStaged | src/test_functions.c:211-230 | with the staging files of ranks 0..k-1 present, the merge completes and its lines are theirs in ascending rank order |
| Snapshot.GatherStopsAtMissing | src/test_functions.c:215-221 | the merge aborts at the first missing staging file; the canonical file then keeps only the lines of the ranks before it |
| Snapshot.CheckpointWritesShardsInRankOrder | src/test_functions.c:174-236 | a checkpoint of all ranks completes, and the canonical file holds all shards' counters concatenated in rank order |
| Snapshot.CheckpointOfPartitionIsGlobal | src/test_functions.c:174-236 | when the ranks hold the partition of a global set, the canonical file is that set in global index order |
| Snapshot.PoolContents | src/test_functions.c:174 | the counters of a pool of arrays, rank by rank |
| Snapshot.Storage.constructor | src/test_functions.c:41 | a store holding the given files |
| Snapshot.Storage.InitData | src/test_functions.c:41-60 | on the first run rank 0 makes the canonical file exactly 50 lines of "0"; any other call leaves the file system unchanged |
| Snapshot.Storage.WriteStaging | src/test_functions.c:178-195 | phase 1: the rank's staging file is rewritten with its counters, one `%d` line each, in order; nothing else changes |
| Snapshot.Storage.MergeStaging | src/test_functions.c:200-232 | phase 2: ranks other than 0 change nothing; rank 0 replaces the canonical file with the merge of the staging files and returns the merge's status |
| Snapshot.Storage.AppendLines | src/test_functions.c:223-228 | the lines of one staging file are appended, in order, to the end of the canonical file; nothing else changes |
| Snapshot.Storage.Checkpoint | src/test_functions.c:174-236 | the two phases over the whole pool always complete and leave exactly the files of `CheckpointFiles` |
| Restore.Repair | src/test_functions.c:164-169 | a value read back lies in `[0, MAX_COUNTER_VALUE]`: kept when in range, 0 otherwise |
| Restore.ReadCounter | src/test_functions.c:162-169 | the counter a line restores to is always in range |
| Restore.RepairAll | src/test_functions.c:153-170 | each value is repaired on its own, every value of the result is in range, and a shard already in range comes back unchanged |
| Restore.IntendedSkip | src/test_functions.c:140 | for valid new rank and size the corrected skip is the start of the new shard over all 50 counters, and the shard fits in the file's 50 lines |
| Restore.SkipAsWritten | src/test_functions.c:140 | the skip as written is 0 for rank 0, and for valid arguments the shard it starts fits inside `numCounters` lines |
| Restore.RestoreShard | src/test_functions.c:109-172 | the restore of a rank's shard under a membership fails exactly for an invalid or oversized rank, a missing file, or a file too short for the shard; on success it has the shard's size and every value is in range |
| Restore.ReadFormatted | src/test_functions.c:162-192 | a line written by `%d` reads back as the repaired value |
| Restore.RestoreFrom | src/test_functions.c:124-170 | the reference reader fails exactly for a non-positive count, a missing file, or a file shorter than `skip + k` lines; on success it returns `k` counters, all in range |
| Restore.CorruptLineIsRepaired | src/test_functions.c:162-169 | whatever text replaces one line of the shard, the restore still succeeds, that counter is the repaired `atoi` value, and every other counter is unchanged |
| Restore.RestoreFormatted | src/test_functions.c:153-192 | reading back lines written by `%d` returns the written values, with out-of-range values repaired to 0 |
| Restore.Reallocate | src/test_functions.c:113-122 | on a membership change, a fresh zeroed shard of the new size, aborting when that size is not positive; otherwise the caller's shard and count |
| Restore.ReadShard | src/test_functions.c:124-171 | its status is the reference reader's, and on success the shard holds exactly what the reference reader returns |
| Restore.ReadInto | src/test_functions.c:153-170 | aborts exactly when the file ends before the shard is full; otherwise each counter is its line's repaired value |
| Restore.ReadOne | src/test_functions.c:162-169 | one line of the read loop gives the line's repaired `atoi` value, always in range |
| Restore.Restart | src/test_functions.c:109-172 | corrected `restart`: the count is the new membership's; the status and the returned shard's contents are the reference reader's for that membership; on a change the caller's old array is untouched and the shard is fresh |
| Restore.RestartAsWritten | src/test_functions.c:109-172 | `restart` as written: the skip comes from the old rank and size and the local count; on a membership change the caller's array is untouched although the count changes |
| Restore.SkipAsWrittenDiffers | src/test_functions.c:140 | rank 1 of 2 with 25 counters skips 13 lines where its shard starts at 25; rank 0 agrees for every size |
| Restore.SkipAsWrittenMisreads | src/test_functions.c:140-170 | with the as-written skip, rank 1 of 2 restores a 1 where the snapshot holds 2; with the intended skip it restores its slice exactly |
| Restore.StaleShardAfterShrink | src/test_functions.c:117-122 | a worker going from 2 ranks to 1 keeps a 25-slot array but is told to manage 50 counters |
| Driver.StartWorker | src/test.c:53-61 | a worker starts exactly when its shard size under the starting membership is positive, with that many zeros; otherwise it aborts with an invalid count |
| Driver.RepairSlice | src/test_functions.c:153-170 | repairing a shard is the shard of the repaired global set |
| Driver.RestoreAfterCheckpoint | src/test_functions.c:109-236 | after any pool checkpoints a global set, a worker of any new membership restores its own slice of it, repaired |
| Driver.ResizeRoundTrip | src/test_functions.c:109-236 | after a resize to any pool size up to 50, every new worker restores its slice of the repaired global set, and the new shards concatenated in rank order are the saved set with out-of-range values repaired to 0, so the set itself when all values are in range |
| Driver.SameSizeRoundTrip | src/test_functions.c:109-236 | a pool whose shards have the partition's sizes and in-range values checkpoints and restores every shard exactly |
| Driver.OversizedPoolAborts | src/test_functions.c:120-129 | a worker ranked 50 or higher has an empty shard, so its restore aborts |
| Driver.FirstRunRestoresZeros | src/test_functions.c:41-172 | after the zero file is written, every worker restores an all-zero shard of its own size |
| Driver.OneWorkerThenTwo | src/test.c:79-119 | one worker that checkpoints after 3 steps writes 50 lines of "3"; after growing to two workers, each restores 25 counters of value 3 |

## Left out
- The MPI runtime (`MPI_Init`, `MPI_Comm_rank`, `MPI_Comm_size`, `MPI_Barrier`, `MPI_Finalize`) and the DMR library (`DMR_AUTO`, `dmr_init`, `dmr_check`, `dmr_set_procs_next_*`, `dmr_get_world_comm`). They manage processes and run concurrently. Rank and size are parameters, the barriers are sequential phase boundaries, and `dmr.h` is not part of this model.
- The DMR-driven sequence that moves the whole pool from one membership to the next (which checkpoint is followed by which restarts). It is stated as the lemmas `Driver.RestoreAfterCheckpoint` and `Driver.ResizeRoundTrip` over the function models, not as a method over a pool of arrays.
- `MPI_Abort` is an `Abort` status or `Failure` result, not process termination.
- `compute()` only sleeps.
- `finalize` only frees the array.
- All `printf`/`fprintf` diagnostics and the counter dump at `src/test.c:94-99`.
- `floor` of a `double` quotient in `offset` and `dimension` is integer division (equal for the operands that pass validation).
- C stdio details: `fopen` modes, the 256-byte `fgets` buffer, the 512-byte path buffers, and `atoi` overflow (undefined in C; `Atoi` here is unbounded). Opening a file for writing never fails in the model; opening a missing file for reading does.
- The hard-coded `FILEPATH`/`FILENAME` (`src/test.h:28-30`): the path is a parameter.
- `malloc` failure in `init_counters` and the null-array test of `restart` (`src/test_functions.c:73-77,125`): allocation in Dafny cannot fail.
- Restore.Restart: requires `numCounters == counters.Length`. For the corrected caller, which keeps the shard `Restart` returns, the relation carries over, since `Restart` ensures `shard.Length == count` on success. The C caller as written does not keep it: after a membership change `src/test_functions.c:119-121` update `*num_counters` but leave the caller with the old, freed array, and `src/test.c:64,119` pass `&counters`.
- Restore.RestartAsWritten: carries the same requires, so it cannot model a second as-written `restart` after a membership change. In C that call reads and writes a freed array of the wrong size.
- The `MPI_Abort`s after a failed `fopen` for writing (`src/test_functions.c:50,186,207`) and after a failed `malloc` (`src/test_functions.c:76`) have no counterpart: opening a file for writing and allocating an array never fail in the model.
- `init_data` is modelled, but `main` in `src/test.c` never calls it, so the zero file of the first run exists only when some other code writes it.
- 32-bit `int` overflow: no value of the core comes near it (counters stay in `[0, 20]`, indices below 50).

## Findings

| source | as written | input that shows it | evidently intended | confidence | as-written member | corrected member |
|---|---|---|---|---|---|---|
| src/test_functions.c:140 | `restart` skips `offset(rank, size, *num_counters)` lines: the old rank and size and the local shard size | rank 1 of 2 holding 25 counters skips 13 lines instead of 25, and restores counters 13..37 of the snapshot | skip `offset(new_rank, new_size, NUM_COUNTERS)` lines: the start of the shard under the new membership over all counters | not executed | Restore.SkipAsWrittenMisreads | Restore.Restart |
| src/test_functions.c:119-121 | the array reallocated on a membership change is stored in the by-value parameter `counters`, so the caller keeps the freed old array while `*num_counters` is updated; `src/test.c:64,119` also pass `&counters` (an `int **`) where `restart` expects an `int *` | a worker going from rank 0 of 2 (25 counters) to rank 0 of 1 is told to manage 50 counters but keeps a 25-slot array | hand the new shard back to the caller (through an `int **` parameter or a return value) | not executed | Restore.StaleShardAfterShrink | Restore.Restart |

The corrected `restart` (`Restore.Restart`) is what the round-trip lemmas of `Driver`
build on: `Driver.ResizeRoundTrip` proves that with the intended skip
every new worker gets exactly its slice of the snapshot.
