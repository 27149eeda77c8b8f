# Verified model of a two-engine key-value store

A Dafny model of the storage engines of the repository and proofs that each of them is, over whole
runs with crashes, a plain map from keys to values. Two engines are modelled: the LSM engine
(memtables, write-ahead logs, levelled tables, manifest, background flush and compaction, readers)
and the Bitcask engine (append-only data files, an in-memory index, hints, in-place compaction).
Below them are the formats both rely on (log records, table files, bloom filters, manifest, hints)
and the network framing.

`dafny verify dfyconfig.toml` checks the whole project.

## How it fits together

- `Words`, `Keys`, `Entries`, `History`: word sizes, key order, sorted runs and their merge, and the
  specification: a history of writes and the plain map it stands for.
- `Levels`, `Compaction`, `CompactionChoice`, `Convergence`, `Tombstones`, `Picker`: the level set,
  picking and installing a compaction, that it changes no answer, what a pick is in keys, counts and
  bytes, that repeating it comes to rest, and which tombstones it leaves. `Picker` holds the source's
  loops, proved against the functions of `Compaction`.
- `Engine`: the LSM engine as a step system with thirty-four kinds of step. Every region the source
  runs under its lock is one step and every piece of file work done without it is another, so all
  interleavings of writer, background thread and readers are runs, and a crash can follow any step.
  `EngineInvariant` is what every reachable state satisfies; `EngineFacts`, `EngineWriter`,
  `EngineBackground` and `EngineRecovery` prove that each step keeps it; `EngineTheorems` and
  `EngineScan` draw the conclusions about whole runs. `EngineFiles` says that no file is left behind,
  `EngineReopen` exactly when a store opens again, `EngineIds` how far ids may go, and
  `EngineLockout` gives runs after which a store never opens.
- `ReadPath`, `MergeIterator`, `Merging`: lookups, cursors and the merging iterator as loops and
  objects.
- `Records`, `BitcaskFiles`, `BitcaskSpace`, `BitcaskMerge`, `BitcaskHints`, `BitcaskRuns`,
  `BitcaskTheorems`, `BitcaskOrder`, `BitcaskSizes`: what a Bitcask directory means, byte accounting,
  the merge, hints, every directory an operation passes through, runs that repeat crash, reopen, write and
  compact, which orders of deletion are safe, and how large files get.
  `Bitcask` is the engine object; its `trace` is the list of directories it has passed through,
  and each method's contract says that list grows by exactly the specified directories.
- `Bytes`, `RecordCodec`, `LogScan`, `Wal`, `Bloom`, `TableSizes`, `SstableCodec`, `Sstable`,
  `TableBuilder`, `ManifestCodec`, `HintCodec`, `Protocol`: the byte level. A table in `Engine` is a
  sorted run; `TableBuilder.BuildTable` and `Sstable.Lookup` are what justify that. A log in `Engine` is a list
  of writes; `LogScan` and `Wal` are what justify that, including the torn record a crash leaves.
  `ManifestCodec` encodes the very `Manifest` that `Engine` commits.

## Assumptions

- Directory operations reach the disk in program order, so a crash keeps a prefix of them. Both
  engines remove several files before one directory fsync (src/compaction.cpp:374-392,
  src/lsm.cpp:172-182), and the recovery theorems rest on the ascending order surviving.
- Every log append is on disk before its caller is told (`SyncMode::Always`), and I/O does not fail
  except by crashing.
- `l0_compaction_trigger` is at least 1, and memtables are not rotated while empty.
- The checksum and the key hash are arbitrary functions: every theorem holds for all of them, and
  none needs collisions to be rare.
- The LSM id counter does not wrap. The source's is 32 bits wide and unchecked (src/lsm.cpp:721,
  src/lsm_compaction.cpp:252). `EngineIds.NamesAreIds` shows that ids up to 2^32-2 are enough for
  recovery to find and accept every log and for no counter to wrap; `EngineIds.LastLogLocksOut`,
  `EngineIds.WrappedCounterRefused` and `EngineIds.WrappedLogIsLost` show what the ids after that do.
  Bitcask ids run out at 2^32-1 as in the source.
- A store is opened with a positive block size; zero is refused before the directory is looked at
  (src/lsm.cpp:42-44).
- File offsets and entry counts fit 64 bits.

## Where the comments and the code differ

- src/lsm_compaction.cpp:167-170 speaks of widening the range and collecting again; the code widens
  without collecting again. `Compaction.KeptIsClear` shows that collecting again is not needed.
- src/compaction.cpp:235-239 explains the liveness test by keys whose current value is in the active
  file. The active file is always empty when the merge runs, so that case does not arise; the model
  follows the code.
- include/kvstore/lsm.hpp:303-307 gives forced compaction as the way tombstones come to be dropped.
  One beside the range being pushed down is not read and can stay for good
  (`Tombstones.TombstoneLeft`); `Tombstones.RestAfterTurn` and `Tombstones.ForcedRestExactly` say
  exactly when none does.
- src/lsm.cpp:68-73 says that recovery always ends in the same shape. It can be refused by what the
  store itself wrote: a manifest is not read over 64 MiB (src/manifest.cpp:191) and is written at any
  length, a log with id 2^32-1 is turned away (src/lsm.cpp:131-133), and the logged writes may not fit
  one table (src/lsm.cpp:160-163). `EngineReopen.ReopensExactlyWhen` gives the exact condition, and
  `EngineLockout.LongKeyLocksOut`, `EngineIds.LastLogLocksOut` and `EngineLockout.TwoPutsLockOut`
  accepted writes that fail it. The writes stay on disk.
- src/bitcask.cpp:316-320 asks for every hint entry's record to lie inside the data file. The sum
  it compares is 64 bits wide and can overflow, so an entry near the end of that range passes.
  `HintCodec.OverflowIsAccepted` gives such an entry and `HintCodec.AcceptedInside` the exact
  condition.
- src/bitcask.cpp:300-307 checks the length of a hint entry in 64 bits and reads it after narrowing
  to 32. An entry over 4 GiB is then read as fewer bytes than its header and the hint is given up, so
  a merged file with so long a key has a hint that is never taken (`HintCodec.LongKeyHintRefused`).
  That is the only such case (`BitcaskHints.HintAccepted`), and recovery then scans the data file to
  the same end (`HintCodec.HintFileIsScan`).
- A record decodes with any of its seven unused flag bits set, so decoding is not one-to-one on
  bytes; `RecordCodec.EncodeDecoded` states exactly when it is.

## Model

| member | source | states |
|---|---|---|
| Keys.StrictTotalOrder | src/lsm_compaction.cpp:42-45 | byte-wise key order is irreflexive, transitive and connected, which every range test, binary search and merge below relies on |
| Entries.MergeCorrect | src/lsm_iterator.cpp:150-208 | the k-way merge of any newest-first stack of sorted runs is sorted and says about every key exactly what the stack says: the newest run that has the key wins |
| Entries.AdvanceShrinks | src/lsm_iterator.cpp:182-194 | advancing every source that sits on the emitted key strictly lowers the number of entries left, so the merge terminates |
| Entries.WinnerIsLeast | src/lsm_iterator.cpp:154-170 | the chosen head is the least key of all heads and, among equal keys, belongs to the newest source |
| Entries.WithoutTombstonesFind | src/lsm_compaction.cpp:285-301 | dropping tombstones from a sorted run changes the answer only for keys it last removed, from tombstone to silence |
| Levels.LookDisjoint | src/lsm.cpp:25-36 | in a level of disjoint tables a stored key lies in the range of the table that holds it, no other table holds it, and that table's cell is the level's answer |
| Compaction.PickIsSound | src/lsm_compaction.cpp:81-179 | every pick, forced, by L0 count or by level budget with the round-robin position, takes real tables of one level, every table of the next level that touches them, and drops tombstones exactly when no deeper table touches the widened range |
| CompactionChoice.PickRange | src/lsm_compaction.cpp:149-178 | said in keys: a pick's range runs from the least to the greatest key it reads, it reads exactly the tables of the next level whose range meets its inputs', and it drops tombstones if and only if every table of every deeper level ends before that range or begins after it |
| CompactionChoice.ForcedChoice | src/lsm_compaction.cpp:84-107 | a forced pick is made if and only if two levels hold tables, and takes the whole of the first that does |
| CompactionChoice.UnforcedChoice | src/lsm_compaction.cpp:108-147 | said in counts and bytes: all of L0 if and only if it holds at least the trigger's number of tables, failing that the next table in turn of the first level over its budget, and nothing if and only if there is none |
| CompactionChoice.TableChoice | src/lsm_compaction.cpp:132-147 | the table in turn is the first that begins past where the level's last compaction ended, and the first of all when none does |
| CompactionChoice.BudgetOfLevel | src/lsm_compaction.cpp:49-57 | the budget of a level is the base times a power of the multiplier, in 64 bits |
| CompactionChoice.BytesOfLevel | src/lsm_compaction.cpp:116-130 | the bytes of a level are the sum of its files' sizes, in 64 bits |
| Compaction.KeptIsClear | src/lsm_compaction.cpp:157-177 | widening the range once without collecting again is enough: a table of the output level that was not collected lies wholly to one side of every key read |
| Compaction.TargetDisjoint | src/lsm_compaction.cpp:343-361 | the output level, kept tables and outputs together, is sorted by min key with disjoint ranges |
| Compaction.OutputsSay | src/lsm_compaction.cpp:219-303 | however the merged stream is cut into output tables, together they say what the merge says |
| Compaction.DeeperSilent | src/lsm_compaction.cpp:59-79 | when tombstones may be dropped, no deeper level knows any key that was read |
| Compaction.InstallPreservesView | src/lsm_compaction.cpp:194-420 | installing any compaction changes no visible answer for any key, tombstones dropped or not |
| Compaction.InstallKeepsLevels | src/lsm_compaction.cpp:325-367 | after an install every level below L0 is again sorted and disjoint, and L0 is newest first |
| Compaction.InstallKeepsIds | src/lsm_compaction.cpp:343-361 | no id appears twice in the installed level set |
| Compaction.InstallTrims | src/lsm_compaction.cpp:362-367 | an installed level set never ends in an empty level |
| Picker.PickCompaction | src/lsm_compaction.cpp:81-179 | the picking loops return exactly the specified choice, which is sound work and drops tombstones if and only if no deeper table meets its range |
| Picker.ExpandWork | src/lsm_compaction.cpp:149-178 | range, overlaps, widened range and the tombstone decision, computed by the loops of the source, the last true if and only if no deeper table meets the range |
| Picker.MayDropTombstones | src/lsm_compaction.cpp:59-79 | true exactly when no table deeper than the output level touches the range |
| Picker.ForcedLevel | src/lsm_compaction.cpp:84-107 | a forced pick takes the first non-empty level with a non-empty one below it, and nothing when there is none |
| Picker.OverBudgetLevel | src/lsm_compaction.cpp:116-130 | the first level over its byte budget, never the last permitted one |
| Picker.NextTable | src/lsm_compaction.cpp:132-147 | the first table past the round-robin position, wrapping to the first of the level |
| Picker.BudgetOf | src/lsm_compaction.cpp:49-57 | the budget of a level with 64-bit wrap-around in the multiplication |
| Convergence.StepLightens | src/lsm_compaction.cpp:194-420 | every picked compaction strictly lowers the sum over entries of the levels still below them and writes no level past the depth bound |
| Convergence.LoopIsBounded | src/lsm.cpp:676-711 | from any level set in good order, however picks, output cuts and round-robin positions fall, the compaction loop has made at most as many turns as that set weighed |
| Convergence.LoopKeeps | src/lsm.cpp:676-711 | from any level set in good order, every level set the loop comes to is in good order and answers as the first one did |
| Convergence.ForcedStopsAtOneLevel | src/lsm_compaction.cpp:84-107 | forced picking finds nothing more to do only when no two levels hold tables |
| Convergence.ForcedLoopFlattens | src/lsm.cpp:676-711 | a forced loop with nothing left to pick has all its tables in at most one level, and no key's visible answer has changed |
| Tombstones.RestAfterTurn | src/lsm_compaction.cpp:194-420 | the turn that leaves tables in one level at most leaves a tombstone if and only if some table it does not read holds one; what it writes never does |
| Tombstones.ForcedRestExactly | src/lsm.cpp:676-711 | from any level set in good order, forced picks that have come to rest have left a tombstone if and only if some table of the deepest starting level holds one and lies clear of what, worked out from the start alone, arrives above it |
| Tombstones.TombstoneLeft | src/lsm_compaction.cpp:84-107 | for any two keys in order, a value above and a tombstone beside it below come to rest after one forced turn with the tombstone still there |
| History.LastIsPlainMap | src/lsm.cpp:456-545 | the last write to a key, tombstones read as absence, is the plain map of the history |
| History.ReplayIsLast | src/wal.cpp:44-77 | a memtable rebuilt from writes holds the last cell of each key |
| History.ListingFind | src/lsm.cpp:807-860 | the sorted listing of a memtable, which a flush writes out, says what the memtable says |
| EngineFacts.PushCovers | src/lsm.cpp:82-185 | re-applying a log suffix that overlaps what the tables already hold is idempotent: tables plus the rebuilt table hold the whole history |
| EngineFacts.OpenSucceeds | src/lsm.cpp:187-224 | a manifest whose tables are on disk opens if and only if its file is at most 64 MiB, and then to exactly the level set that was committed |
| EngineFacts.OpenedAgrees | src/lsm.cpp:195-219 | whatever a manifest says, if it opens then every table it names is below its counter, on disk, and has the number of entries, first key and last key it says |
| EngineFacts.AdoptedGood | src/lsm.cpp:258-296 | adopting a directory without a manifest yields a legal level set, newest table first |
| EngineWriter.AppendKeeps | src/lsm.cpp:385-454 | appending a write to the log keeps the invariant, with the write in flight but not yet visible |
| EngineWriter.InsertMemKeeps | src/lsm.cpp:385-454 | inserting it into the memtable keeps the invariant and makes it visible |
| EngineWriter.RotateBeginKeeps | src/lsm.cpp:713-751 | freezing the memtable, claiming its table id before the new log id, keeps the invariant |
| EngineWriter.RotateEndKeeps | src/lsm.cpp:713-751 | creating the replacement log keeps the invariant |
| EngineWriter.ProbeKeeps | src/lsm.cpp:465-496 | taking the memtables and the version under one lock gives a reader a consistent snapshot |
| EngineWriter.UnlinkKeeps | src/sstable.cpp:329-348 | a retired file is unlinked only when no version a reader holds names it, and unlinking keeps the invariant |
| EngineBackground.FlushCommitKeeps | src/lsm.cpp:807-860 | committing the manifest that names the flushed table, before readers are shown it, keeps the invariant |
| EngineBackground.FlushInstallKeeps | src/lsm.cpp:650-662 | publishing the flushed table and dropping the frozen memtable in one step keeps the invariant |
| EngineBackground.FlushRetireKeeps | src/lsm.cpp:658-673 | removing the flushed memtable's log afterwards keeps every write recoverable |
| EngineBackground.CompactWriteKeeps | src/lsm_compaction.cpp:285-303 | writing any next piece of the merge under a freshly claimed id keeps the invariant |
| EngineBackground.CompactCommitKeeps | src/lsm_compaction.cpp:363-369 | committing outputs for inputs with the lock released, with the id counter as loaded, keeps the invariant |
| EngineBackground.CompactSwapKeeps | src/lsm_compaction.cpp:377-387 | swapping the published level set keeps the invariant, whatever was written or frozen meanwhile |
| EngineBackground.CompactRetireKeeps | src/lsm_compaction.cpp:399-417 | marking the inputs obsolete keeps the invariant |
| EngineFiles.NothingLeaks | src/lsm_compaction.cpp:399-417 | in every running state of every run, each table file on disk is named by the current or the durable level set, is marked obsolete, or is one the background thread is working on or has yet to mark; half-written files are all its own |
| EngineFiles.IdleFilesGo | src/sstable.cpp:329-348 | with the background thread idle, every file outside the current version is marked and can be unlinked as soon as no reader's version names it, and no half-written file is left |
| EngineFiles.DirectoryComesClean | src/sstable.cpp:329-348 | with no reader left, unlinks bring the directory to exactly the files of the current version |
| EngineFacts.SwapMovesOn | src/lsm_compaction.cpp:381-387 | installing a compaction moves its level's round-robin position to the end of its range and no other level's |
| EngineRecovery.CrashKeeps | src/lsm.cpp:82-185 | wherever the process dies, recovery can rebuild from the disk it leaves |
| EngineRecovery.SweepOrphanKeeps | src/lsm.cpp:226-256 | deleting a table outside the manifest loses nothing |
| EngineRecovery.ReplayLogsKeeps | src/lsm.cpp:114-163 | replaying every log in ascending id order keeps the invariant and takes the id counter past every log; it is refused when a log has the last id or the writes do not fit one table |
| EngineFacts.PastLogsIsNext | src/lsm.cpp:130-135 | replay leaves the counter where it was or one past some log |
| EngineRecovery.RebuildCommitKeeps | src/lsm.cpp:153-170 | committing the rebuilt table keeps the invariant |
| EngineRecovery.RetireLogKeeps | src/lsm.cpp:172-182 | removing the replayed logs in ascending order keeps the rest a suffix of the history |
| EngineRecovery.OpenLogKeeps | src/lsm.cpp:184-185 | opening the new log under a fresh id makes the store ready with every write in its tables |
| EngineTheorems.NextKeeps | src/lsm.cpp:385-860 | all thirty-four steps of writer, background thread, readers, crash and recovery keep the invariant |
| EngineTheorems.RunInv | src/lsm.cpp:385-860 | the invariant holds in every state of every run from an empty directory |
| EngineTheorems.GetIsPlainMap | src/lsm.cpp:456-545 | in every state of every interleaving, get answers from the plain map of the writes that have become visible |
| EngineTheorems.ReaderSeesItsProbe | src/lsm.cpp:465-545 | a get that probed at one step and reads its tables at any later one answers from the plain map of the writes visible at the probe, and its files are all still on disk, whatever has been written, installed or retired in between |
| EngineTheorems.AcknowledgedWritesSurvive | src/lsm.cpp:385-454 | a write whose call returned is, in every later running state and after any number of crashes, at the position it took in what readers see |
| EngineTheorems.EveryWriteAccounted | src/lsm.cpp:385-454 | every write a store ever holds was there at the start, was acknowledged, was the one write in flight when some crash came, or is the one in flight now |
| EngineTheorems.EveryDiskStateRecovers | include/kvstore/manifest.hpp:19-30 | at every instant the disk alone holds every write: the tables recovery opens cover a prefix, the logs hold a suffix, and the two overlap or meet; the manifest's tables open if and only if its file is at most 64 MiB, without one they are those adopted, and recovery never finds damage |
| EngineTheorems.ShapeAndIds | include/kvstore/lsm.hpp:431-470 | in every reachable state, running, recovering or down, the level set recovery would open and the one the process holds have sorted disjoint deeper levels, L0 ids strictly descending and no id twice; a running counter is past every file and everything the manifest names |
| EngineIds.ClaimsAreFresh | src/lsm.cpp:713-751 | every id any step of any run claims, for a log, a table or a compaction output claimed outside the lock, or during recovery, is above every file on disk and every id ever recorded, and the counter is then past it |
| EngineIds.ListedExactly | include/kvstore/file_names.hpp:77-99 | a directory listing gives back every log under its own id if and only if every id is at least 1 and below 2^32 |
| EngineIds.NamesAreIds | src/lsm.cpp:713-751 | over every run in which every id claimed is at most 2^32-2, recovery finds every log under its own id and refuses none, no id is exhausted, and every committed counter is recorded as it is and is never 0 |
| EngineIds.RunReopens | src/lsm.cpp:82-185 | over every such run, with the manifest at hand within 64 MiB, a store that is down opens again if and only if the logged writes fit one table, and that is the only refusal |
| EngineIds.WrappedLogIsLost | src/lsm.cpp:713-751 | from every reachable state in which a rotation's log id wraps to 0, the next write is acknowledged and no listing will show the log that holds it |
| EngineIds.LastLogLocksOut | src/lsm.cpp:130-135 | from every reachable state in which a rotation's log takes id 2^32-1, the next write is acknowledged and after a crash no open succeeds |
| EngineIds.WrappedCounterRefused | src/lsm.cpp:187-199 | a flush that commits a counter wrapped to 0 writes a manifest that no open accepts |
| EngineTheorems.EmptyDirectory | src/lsm.cpp:40-80 | an empty directory is a legal starting state |
| EngineReopen.OnlyRecovery | src/lsm.cpp:40-80 | while the store is down only recovery, or another crash, can happen |
| EngineReopen.RecoveryProceeds | src/lsm.cpp:82-185 | recovery is never stuck: it goes on until the store runs or is refused |
| EngineReopen.RecoveryCloses | src/lsm.cpp:82-185 | every step of recovery comes strictly closer to its end |
| EngineReopen.RecoveryOutcome | src/lsm.cpp:82-185 | no step of any recovery loses a write or changes whether it will succeed |
| EngineReopen.RecoveryEnds | src/lsm.cpp:82-185 | from every reachable state recovery comes to an end, in a running store or a refusal |
| EngineReopen.ReopensExactlyWhen | src/lsm.cpp:82-185 | from every crash of every run some recovery ends in a running store if and only if the block size is positive, the manifest is absent or at most 64 MiB, no log and, without a manifest, no table has id 2^32-1, and the logged writes are none or fit one table with no block and no index over 4 GiB |
| EngineReopen.RecoveryRestoresEverything | src/lsm.cpp:82-185 | whatever recovery ends in a running store, from a crash anywhere, also inside an earlier recovery, that store is the plain map of every logged write |
| EngineLockout.ReplayedAdmitted | src/sstable.cpp:159-175 | the replayed writes of every reachable state pass the table builder's checks entry by entry, so their size is all that can be refused |
| EngineLockout.AcceptableIsLoggable | src/lsm.cpp:385-396 | a write is let through if and only if its log record has a key and fits |
| EngineLockout.OneTableSize | src/manifest.cpp:80-101 | a manifest of one table is 52 bytes and its two keys long, so one key of 33,554,407 bytes is the first that takes it over 64 MiB |
| EngineLockout.LongKeyLocksOut | src/manifest.cpp:188-193 | for every key of 33,554,407 bytes or more that can be flushed, a run from an empty directory acknowledges and shows the put, and after a crash no open succeeds whatever the block size |
| EngineLockout.TwoPutsLockOut | src/lsm.cpp:153-163 | a run acknowledges a one-byte key and a value of 4,294,967,273 bytes, and after a crash no open with a block size from 11 to 4,294,967,293 succeeds |
| EngineScan.ScanIsPlainMap | src/lsm.cpp:864-913 | a scan that probed at one step and is part-way through at any later one yields, in strictly increasing order, exactly the live keys of the plain map at the probe that are not below the first bound and are below the second, an empty bound being none |
| ReadPath.LowerBound | src/lsm.cpp:25-36 | std::lower_bound over increasing keys: everything before is below the target, everything from there on reaches it |
| ReadPath.FindInLevel | src/lsm.cpp:25-36 | a binary search of a level finds the only table that can hold the key |
| ReadPath.GetFromTables | src/lsm.cpp:498-545 | asking L0 newest first, then in each deeper level a single table, answers as the whole level set does |
| MergeIterator.OpenMem | src/lsm_iterator.cpp:12-35 | the cursor yields exactly the memtable's entries with keys not below the first bound and below the second |
| MergeIterator.OpenTable | src/lsm_iterator.cpp:39-122 | index search, then block search: the cursor yields exactly the table's entries with keys not below the first bound and below the second |
| MergeIterator.AdvanceGivesHead | src/lsm_iterator.cpp:132-146 | advancing a source yields its head and leaves the rest of its range, across block boundaries |
| MergeIterator.RestrictFind | src/lsm_iterator.cpp:115-122 | restricting a run to a range keeps its answer for keys not below the first bound and below the second, and silences the rest |
| Merging.MergingIterator.FindWinner | src/lsm_iterator.cpp:154-170 | the loop over sources finds the newest source with the least key |
| Merging.MergingIterator.AdvancePast | src/lsm_iterator.cpp:182-194 | every source on the emitted key is advanced, and no other |
| Merging.MergingIterator.FindNextLive | src/lsm_iterator.cpp:150-208 | each call yields the next row of the merge, skipping or emitting tombstones by mode, and is invalid only at the end |
| Merging.MergingIterator.Drain | src/lsm_iterator.cpp:150-208 | repeated calls yield exactly the merge of what the sources hold |
| Merging.Scan | src/lsm.cpp:864-913 | the rows returned are in key order and are exactly the live keys of the stack that are not below the first bound and are below the second |
| Merging.ScanRows | src/lsm_iterator.cpp:150-208 | the rows of a scan are sorted, live, and agree with the stack on every key not below the first bound and below the second, and with none other |
| Merging.WriteOutputs | src/lsm_compaction.cpp:219-303 | the output loop, fed by table sources over the stored blocks, cuts a table at the first entry that brings it to the target size, and whatever ids the tables get they are the outputs installing a compaction demands |
| BitcaskFiles.IndexIsContents | src/bitcask.cpp:186-222 | ascending replay rebuilds an index over exactly the live keys of the history, each pointing at the record that last put it |
| BitcaskSpace.ApplyKeeps | src/bitcask.cpp:186-206 | replaying one more record, put or tombstone, keeps every file's bytes equal to its live bytes plus its dead ones |
| BitcaskSpace.EveryByteCounted | src/bitcask.cpp:186-222 | each file's size is the bytes of its live records plus its dead-byte count |
| BitcaskSpace.SpaceIsConserved | src/bitcask.cpp:521-535 | bytes on disk are live bytes plus reclaimable bytes |
| BitcaskMerge.CopiedOnce | src/compaction.cpp:223-266 | a live key's record is copied to the merged file from where the index points and from nowhere else |
| BitcaskMerge.CopiedSize | src/compaction.cpp:223-266 | the merged file is exactly as long as the live bytes of its inputs |
| BitcaskMerge.PartwayContents | src/compaction.cpp:28-90 | the merged file under the lowest id, with any upper part of the inputs still beside it, replays to the map from before: nothing live is lost and nothing deleted comes back |
| BitcaskHints.CopiedDistinct | src/compaction.cpp:345-351 | no key is copied twice |
| BitcaskHints.AdoptedIsRebuilt | src/compaction.cpp:338-357 | after the staged pointers are applied and the inputs' dead counts erased, memory is exactly what replaying the compacted directory rebuilds, with nothing dead |
| BitcaskHints.HintReplaysTheFile | src/bitcask.cpp:332-342 | replaying a merged file's hint gives the same index and the same dead counts as scanning the file |
| BitcaskHints.HintAccepted | src/bitcask.cpp:285-330 | the hint of a merged file is acceptable beside it if and only if no key is within 28 bytes of 4 GiB |
| BitcaskRuns.HintsChangeNothing | src/bitcask.cpp:82-163 | recovery that takes hints where it can rebuilds what a full replay would |
| BitcaskRuns.ReopenKeeps | src/bitcask.cpp:82-222 | reopening sweeps temporaries and orphan hints and cuts the torn tail, and loses nothing |
| BitcaskRuns.RecoveryRestarts | src/bitcask.cpp:82-163 | recovery cut short in its own clean-up and started again ends in the same directory |
| BitcaskTheorems.CutShortIsNoMatter | src/bitcask.cpp:82-163 | however many recoveries in a row are cut short, the next one ends in the directory the first would have ended in |
| BitcaskRuns.MergingStands | src/compaction.cpp:159-393 | every directory a merge passes through, from the temporaries to the last deleted hint, is accepted by recovery and replays to the same map |
| BitcaskTheorems.WriteStands | src/bitcask.cpp:400-433 | cut at any byte, a put or remove has either not happened or happened entirely; a rotation alone changes nothing |
| BitcaskTheorems.CompactStands | src/compaction.cpp:159-393 | a compaction cut anywhere leaves the same map and an acceptable directory |
| BitcaskOrder.SafeIffOldestFirst | src/compaction.cpp:45-89 | for any number of inputs, any place for the output and any set of inputs deleted so far: every possible content replays to the same map if and only if no remaining input is older than a missing one; so the output goes over the lowest id and deletion runs upwards, and nothing else is safe |
| BitcaskOrder.OtherOrdersResurrect | src/compaction.cpp:84-89 | whichever older input is left while a newer one is gone, some content makes a removed key come back |
| BitcaskTheorems.BitcaskIsPlainMap | src/compaction.cpp:28-90 | after any run of puts, removes and compactions, each finished or cut short anywhere and reopened, with the reopening cut short any number of times itself, the store is the plain map of the writes that landed |
| BitcaskTheorems.RecoveryIsReplay | src/bitcask.cpp:82-163 | at every point of every run, recovery with hints equals a full replay, index and dead counts alike |
| BitcaskTheorems.CompactReclaims | src/compaction.cpp:349-357 | a completed compaction shrinks the disk by exactly the reclaimable bytes and leaves none |
| BitcaskSizes.WriteGoesWhereItFits | src/bitcask.cpp:377-395 | said in file sizes: a finished write's record is alone in a new file if and only if the active file was not empty and the two together exceed the limit |
| BitcaskSizes.FilesStayWithinLimit | src/bitcask.cpp:377-395 | after any run with crashes, a file larger than the limit holds a single record, unless it is the first and not the last and a compaction has written over it |
| BitcaskSizes.MergesUnlessAllLive | src/compaction.cpp:160-190 | a compaction with an empty active file leaves the directory alone if and only if there is no other file, or one with every byte live |
| BitcaskSizes.CompactionLeaves | src/compaction.cpp:159-190 | a finished compaction leaves at most two files, the last an empty active one, under the old id if it was empty before and the next id otherwise |
| Bitcask.Engine.Recover | src/bitcask.cpp:82-163 | refuses a directory exactly when a sealed file is damaged and no hint speaks for it; otherwise memory is the specified replay, and a healthy directory opens to its own map |
| Bitcask.Engine.Scan | src/bitcask.cpp:186-222 | the replay loop applies every record of a file in order |
| Bitcask.Engine.TakeHint | src/bitcask.cpp:332-342 | the hint loop applies every entry in order |
| Bitcask.Engine.Get | src/bitcask.cpp:435-481 | answers from the plain map of the directory; none of its corruption branches can be reached |
| Bitcask.Engine.Rotate | src/bitcask.cpp:349-375 | starts a new active file under the next id, or fails when ids run out and changes nothing |
| Bitcask.Engine.RotateIfNeeded | src/bitcask.cpp:377-395 | rotates if and only if the active file has something in it and the record would take it past the limit, or fails when ids run out |
| Bitcask.Engine.Append | src/bitcask.cpp:377-433 | the record goes alone into a file under the next id if the active file had something in it and would pass the limit, and onto the active file otherwise; memory and directory are what replay would give |
| Bitcask.Engine.Put | src/bitcask.cpp:400-433 | the map gains the key; empty keys and oversized records are refused and change nothing |
| Bitcask.Engine.Remove | src/bitcask.cpp:483-511 | the map loses the key, whether or not it was there |
| Bitcask.Engine.CopyLive | src/compaction.cpp:223-289 | the copy loop writes the live records, their hint and their new pointers |
| Bitcask.Engine.InstallMerged | src/compaction.cpp:300-369 | temporaries, old hint removed, output renamed over the lowest id, pointers applied, new hint: in that order |
| Bitcask.Engine.DeleteInputs | src/compaction.cpp:371-393 | deletes the inputs from the lowest id up, data before hint |
| Bitcask.Engine.Compact | src/compaction.cpp:159-393 | takes the directory through exactly the specified states, leaves the map unchanged and memory equal to a replay |
| Bitcask.Engine.TotalDiskSize | src/bitcask.cpp:521-527 | the sum over files |
| Bitcask.Engine.ReclaimableBytes | src/bitcask.cpp:529-535 | summing the dead-byte table gives the bytes on disk that are not live |
| Bytes.LeRoundTrip | src/encoding.hpp:21-47 | an integer written little-endian anywhere in a buffer reads back |
| Bytes.LeOfRead | src/encoding.hpp:21-47 | what was read writes back to the same bytes |
| Bytes.GetU64 | src/encoding.hpp:41-47 | the shift-and-or loop computes the little-endian value |
| Bytes.PutLe | src/encoding.hpp:21-32 | the shift loop writes the little-endian bytes and touches nothing else |
| RecordCodec.EncodeRecord | src/record.cpp:27-55 | filling the buffer field by field, checksum last, gives the specified record |
| RecordCodec.DecodeEncoded | src/record.cpp:27-113 | an encoded record decodes to itself, whatever follows it and whatever the checksum function |
| RecordCodec.CutNeverDecodes | src/record.cpp:57-113 | no strict prefix of a record decodes |
| RecordCodec.EncodeDecoded | src/record.cpp:57-113 | a decoded record encodes back to its bytes exactly when the seven flag bits decoding ignores are clear |
| LogScan.ScanRecords | src/log_scan.cpp:5-56 | the scan loop visits exactly the whole records from the front and returns where they end |
| LogScan.TornTailIsDropped | src/log_scan.cpp:5-56 | records followed by any strict prefix of another scan to exactly those records and their total length |
| LogScan.TruncateCleans | src/wal.cpp:68-74 | whatever bytes a log holds, cut to where the scan stopped it scans to the same records with nothing left over |
| LogScan.AppendSurvives | src/wal.cpp:33-77 | a record appended after that cut is found by the next scan, after exactly the records before it |
| LogScan.PointerReads | src/bitcask.cpp:454-467 | the bytes an index pointer names decode to the record it was made for |
| Wal.Memtable.Insert | src/memtable.cpp:24-43 | the running byte count stays the sum over entries, and grows by the new key's and value's lengths and 64 less what the old entry had |
| Wal.FootprintIsSum | src/memtable.cpp:10-12 | the footprint is the sum over the sorted entries of key length, value length and 64 |
| Wal.Memtable.Clear | src/memtable.cpp:50-53 | empties the table and its count |
| Wal.FootprintSet | src/memtable.cpp:24-43 | setting a key changes the total cost by the new entry less the old |
| Wal.ApplyAllIsReplay | src/wal.cpp:44-77 | replaying a log into an empty memtable leaves what its writes leave |
| Wal.CutLogReplays | src/wal.cpp:44-77 | a log cut anywhere inside the write in flight replays to exactly what the writes before it leave behind |
| Wal.Log.Append | src/wal.cpp:33-42 | on a clean log, a record that fits is readable after the records before it |
| Wal.Log.ReplayInto | src/wal.cpp:44-77 | applies every whole record in order, counts them, and truncates to a clean log with the same records |
| Bloom.BuildFilter | src/bloom.cpp:72-107 | a bit is set exactly when some added key probes it, the bit count fits 32 bits, and every added key is admitted |
| Bloom.MaybeContains | src/bloom.cpp:139-152 | true exactly when every probed bit is set, with 32-bit wrapping probes |
| Bloom.AllAdmitted | src/bloom.cpp:139-152 | no false negatives |
| Bloom.ProbeIs | src/bloom.cpp:14-47 | in closed form, probe i of a hash is its low half plus i times its high half, a fixed number standing in for zero, modulo 2^32 |
| Bloom.FilterRoundTrip | src/bloom.cpp:109-137 | a finished filter decodes to itself |
| Bloom.ProbesFor | src/bloom.cpp:51-63 | the whole number nearest to bits per key times ln 2, clamped to 1 through 30 |
| Bloom.FilterBytes | src/bloom.cpp:72-84 | the fewest whole bytes that hold the asked-for bits, at least 8, clamped so that the bit count fits 32 bits |
| SstableCodec.ParseBlock | src/sstable.cpp:46-83 | the cursor loop parses a block or reports corruption, as specified |
| SstableCodec.ParseBlockBytes | src/sstable.cpp:46-83 | a block parses to exactly the entries written to it |
| SstableCodec.LoadIndex | src/sstable.cpp:481-532 | the index loop accepts exactly the specified indexes: whole entries, blocks inside the data region, strictly rising keys, no trailing bytes |
| SstableCodec.ParseIndexBytes | src/sstable.cpp:481-532 | an index reads back as written |
| SstableCodec.FooterRoundTrip | src/sstable.cpp:85-129 | a footer decodes to itself |
| SstableCodec.FooterDecoded | src/sstable.cpp:103-129 | only an encoded footer decodes |
| SstableCodec.UnsealSealed | src/sstable.cpp:565-588 | a checksummed block yields its payload |
| SstableCodec.SealUnsealed | src/sstable.cpp:565-588 | only a payload with its own checksum after it is accepted |
| Sstable.LoadBuilt | src/sstable.cpp:361-442 | a finished table file opens, with the index, filter and key range it was built with |
| Sstable.BuiltServes | src/sstable.cpp:361-442 | every block of it reads back and its filter denies none of its keys |
| Sstable.Lookup | src/sstable.cpp:590-651 | on a table that serves a run the answer is the run's; on any table, corruption means the one block that could hold the key did not read, and absence means the key was ruled out beforehand or that block was read and does not hold it |
| Sstable.LoadedInOrder | src/sstable.cpp:361-540 | whatever bytes a file holds, if it opens then its index keys rise and every block it names lies inside the file |
| TableBuilder.Builder.Add | src/sstable.cpp:159-199 | refuses exactly the entries the source refuses; otherwise the entry joins the table, a block is cut as soon as it reaches the block size, and a block over 4 GiB is refused |
| TableBuilder.CutFacts | src/sstable.cpp:159-226 | for every run and block size the cut keeps every entry in order, leaves no block empty, and every block but the last reaches the block size with its last entry and not before |
| TableSizes.SmallThenHuge | src/sstable.cpp:201-208 | two entries that each pass the builder's checks are refused together when the first does not fill a block and both overflow one |
| TableBuilder.BlockLength | src/sstable.cpp:177-199 | the size reckoned for a block is the number of bytes written |
| TableBuilder.SealedIndexLength | src/sstable.cpp:252-266 | the size reckoned for the index is the number of bytes written |
| TableBuilder.Builder.FlushBlock | src/sstable.cpp:201-226 | writes the block with its checksum and indexes it by last key, or fails when it is too large |
| TableBuilder.Builder.Finish | src/sstable.cpp:228-292 | the finished file is the specified layout of the blocks, filter, index and footer; it fails only when already finished or something is too large |
| TableBuilder.BuildTable | src/lsm.cpp:807-860 | writing and opening a table succeeds only if the block size is positive, the run is in order and no block of its cut nor their index is over 4 GiB; if so, and offsets fit 64 bits, it does succeed and serves exactly that run |
| ManifestCodec.Encode | src/manifest.cpp:80-101 | the nested loops write the specified bytes |
| ManifestCodec.Decode | src/manifest.cpp:103-175 | the nested cursor loops accept and return exactly what is specified |
| ManifestCodec.DecodeEncoded | src/manifest.cpp:80-175 | every well-formed manifest reads back as itself |
| ManifestCodec.EncodeDecoded | src/manifest.cpp:103-175 | any bytes that decode are exactly the encoding of the result, which is well formed |
| ManifestCodec.EncodedDiffer | src/manifest.cpp:80-101 | different manifests have different files |
| ManifestCodec.EncodedLength | src/manifest.cpp:80-101 | the size the engine reckons a manifest by is the length of its file |
| ManifestCodec.CommittedReadsBack | src/manifest.cpp:177-209 | the manifest a flush or compaction commits for its level set reads back as committed if its file is at most 64 MiB and is refused otherwise, when the fields can hold its numbers |
| HintCodec.WriteHintEntry | src/hint.cpp:20-43 | filling the buffer field by field gives the specified entry |
| HintCodec.HintEntryThere | src/hint.cpp:20-82 | an entry reads back wherever it stands |
| HintCodec.HintFooterRoundTrip | src/hint.cpp:84-115 | a footer reads back |
| HintCodec.ReadEntries | src/bitcask.cpp:285-330 | the validation loop takes exactly the entries the specification takes, refusing a key whose entry would be over 4 GiB |
| HintCodec.HintRoundTrip | src/bitcask.cpp:241-330 | a finished hint file, beside a data file of any size, reads back as written if the hint is acceptable there and is refused otherwise |
| HintCodec.StaleHintRefused | src/bitcask.cpp:270-275 | a hint for a data file of another length is never taken |
| HintCodec.AcceptedInside | src/bitcask.cpp:311-320 | whatever bytes a hint file holds, an accepted entry is well formed, and its record lies inside the data file if and only if offset plus size does not overflow 64 bits |
| HintCodec.OverflowIsAccepted | src/bitcask.cpp:316-320 | an entry whose offset plus size overflows is accepted beside a data file of any size, although its record lies outside it |
| HintCodec.HintFileIsScan | src/bitcask.cpp:241-343 | from bytes to index: the hint file of a merged file is taken if and only if no key is within 28 bytes of 4 GiB, and then rebuilds what scanning the merged file's bytes does; scanning, which recovery does otherwise, always gives the records back |
| HintCodec.LongKeyHintRefused | src/bitcask.cpp:300-307 | a key of any of the last seven lengths that a put allows makes the hint of its merged file unreadable |
| Protocol.Frame | src/protocol.cpp:172-185 | a payload is refused exactly when it is over the cap; a frame is four bytes longer than its payload |
| Protocol.FrameReader.FillTo | src/protocol.cpp:187-226 | however it ends, no received byte is lost or reordered; it fills if and only if enough bytes come before the first failure or request to stop, and otherwise reports which of those, or the hang-up, came first and consumes it |
| Protocol.FrameReader.ReadFrame | src/protocol.cpp:228-291 | a frame is taken off the front of the stream if and only if all of it comes before the first failure or request to stop, and nothing else is; cancellation is reported exactly for a request to stop, an error exactly for a failure, each the first there is; a hang-up is clean exactly at a boundary |
| Protocol.FrameReader.ReadAll | src/protocol.cpp:228-291 | the messages that come out depend on the bytes alone, not on how they were cut into receives; what ended them is the first failure or request to stop |
| Protocol.SentParses | src/protocol.cpp:172-291 | frames sent back to back come out as the payloads sent, then a clean end |
| Protocol.CutParses | src/protocol.cpp:228-291 | a stream cut inside a frame gives the complete frames and then corruption, never a clean end |
| Protocol.BeRoundTrip | src/wire.hpp:35-54 | the big-endian length prefix reads back |

## Left out

- The LSM engine's object fields: `LsmStore` is modelled as values in a step system, because its
  methods run concurrently; update in place and aliasing of its vectors are not captured.
- Mutexes, condition variables and memory ordering: each locked region is one atomic step.
- Liveness of the background thread, its halt flag and the cap of 10000 compaction steps: the
  convergence results are about the uncapped loop.
- I/O error paths, short reads and sticky background errors. A memtable or a merge output too large
  to be written as a table leaves the background thread where it is; the source also refuses later
  writes, so the model has more runs there and not fewer.
- `SyncMode::Never`, under which a rotated log may lose its tail.
- Fail-point options: a crash may follow any step instead.
- Half-written temporaries: their contents are written as one step, since nothing reads them before
  they are renamed.
- File-name parsing and padding, directory scanning and the operating-system layer.
- Memory mapping: the same bytes as reading.
- Request and response payloads (src/protocol.cpp:73-157): each is decoded on its own from a frame
  already checked, and no state passes from one to the next.
- The server, the client and the locked store: they forward each call to an engine and keep no data.
- The in-memory store is a map guarded by a lock, which is what `History.PlainMap` already is.
- The benchmarks and the command-line tools.
- Bloom false-positive rate. `Bloom.ProbesFor` rounds over the reals, not over doubles.
- Tombstones.ForcedRestExactly: speaks of forced picks alone. The source tries an unforced pick before each forced one, and what that takes depends on the sizes of files the loop itself writes; `Tombstones.RestAfterTurn` holds of every loop.
- Bitcask.Engine.Recover: takes the files in ascending id order, which the source establishes by sorting the ids it finds.
