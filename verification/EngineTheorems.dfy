/** What every run of the engine guarantees. */
module EngineTheorems {
  import opened Keys
  import opened Entries
  import opened Levels
  import opened Compaction
  import opened History
  import opened Engine
  import opened EngineInvariant
  import opened EngineFacts
  import EngineWriter
  import EngineBackground
  import EngineRecovery
  import TableSizes

  // -- Runs -------------------------------------------------------------------------------------

  /** Where runs start: an unmanifested directory, new or from before manifests, whose tables by
      descending id cover a prefix of the writes and whose logs hold a suffix that meets it. */
  ghost predicate Init(s: State) {
    && s.phase.Down? && s.disk.manifest.None?
    && (forall i :: 0 <= i < |s.history| ==> Acceptable(s.history[i]))
    && FilesOk(s.disk.tables) && FilesOk(s.disk.temps) && Ascending(s.disk.logs)
    && s.aux.logs <= s.aux.tables <= |s.history|
    && LogWrites(s.disk.logs) == s.history[s.aux.logs..]
    && s.aux.durable == Adopted(s.disk.tables)
    && Covers(s.aux.durable, s.history[..s.aux.tables])
  }

  ghost predicate Execution(states: seq<State>, steps: seq<Step>) {
    && |states| == |steps| + 1
    && Init(states[0])
    && forall i :: 0 <= i < |steps| ==> Next(states[i], states[i + 1], steps[i])
  }

  lemma InitInv(s: State)
    requires Init(s)
    ensures Inv(s)
  {
    hide Covers, Adopted, GoodLevels;
    AdoptedGood(s.disk.tables);
  }

  /** An empty directory is a place to start, with nothing written. */
  lemma EmptyDirectory(s: State)
    requires s == State(Disk(map[], map[], [], None), Down, [], Aux([[]], 0, 0, 0, 0))
    ensures Init(s)
  {
    assert Adopted(map[]) == [[]] by {
      var none: map<nat, Table> := map[];
      assert none.Keys == {};
    }
    assert s.history[..0] == [];
    forall k ensures Visible(LookLevels([[]], k)) == Visible(Last([], k)) {
      assert Stack([[]]) == Runs([]) + Stack([]);
    }
  }

  lemma WriterKeeps(s: State, s': State, step: Step)
    requires Inv(s) && Next(s, s', step)
    requires step.DoAppend? || step.DoInsertMem? || step.DoRotateBegin? || step.DoRotateEnd?
          || step.DoProbe? || step.DoFinish? || step.DoUnlink?
    ensures Inv(s')
  {
    hide Inv, Append, InsertMem, RotateBegin, RotateEnd, Probe, Finish, Unlink;
    match step
    case DoAppend(w) => EngineWriter.AppendKeeps(s, s', w);
    case DoInsertMem => EngineWriter.InsertMemKeeps(s, s');
    case DoRotateBegin => EngineWriter.RotateBeginKeeps(s, s');
    case DoRotateEnd => EngineWriter.RotateEndKeeps(s, s');
    case DoProbe(r) => EngineWriter.ProbeKeeps(s, s', r);
    case DoFinish(r) => EngineWriter.FinishKeeps(s, s', r);
    case DoUnlink(id) => EngineWriter.UnlinkKeeps(s, s', id);
  }

  lemma BackgroundKeeps(s: State, s': State, step: Step)
    requires Inv(s) && Next(s, s', step)
    requires step.DoFlushBegin? || step.DoFlushWrite? || step.DoFlushRename? || step.DoFlushCommit?
        || step.DoFlushInstall?
          || step.DoFlushRetire? || step.DoCompactBegin? || step.DoCompactWrite? || step.DoCompactWritten?
             || step.DoCompactRename?
          || step.DoCompactLoad? || step.DoCompactCommit? || step.DoCompactSwap? || step.DoCompactRetire?
    ensures Inv(s')
  {
    hide Inv, FlushBegin, FlushWrite, FlushRename, FlushCommit, FlushInstall, FlushRetire, CompactBegin, CompactWrite,
         CompactWritten, CompactRename, CompactLoad, CompactCommit, CompactSwap, CompactRetire;
    match step
    case DoFlushBegin(size) => EngineBackground.FlushBeginKeeps(s, s', size);
    case DoFlushWrite(blockSize) => EngineBackground.FlushWriteKeeps(s, s', blockSize);
    case DoFlushRename => EngineBackground.FlushRenameKeeps(s, s');
    case DoFlushCommit => EngineBackground.FlushCommitKeeps(s, s');
    case DoFlushInstall => EngineBackground.FlushInstallKeeps(s, s');
    case DoFlushRetire => EngineBackground.FlushRetireKeeps(s, s');
    case DoCompactBegin(options, force) => EngineBackground.CompactBeginKeeps(s, s', options, force);
    case DoCompactWrite(n, size, blockSize) => EngineBackground.CompactWriteKeeps(s, s', n, size, blockSize);
    case DoCompactWritten => EngineBackground.CompactWrittenKeeps(s, s');
    case DoCompactRename => EngineBackground.CompactRenameKeeps(s, s');
    case DoCompactLoad => EngineBackground.CompactLoadKeeps(s, s');
    case DoCompactCommit => EngineBackground.CompactCommitKeeps(s, s');
    case DoCompactSwap => EngineBackground.CompactSwapKeeps(s, s');
    case DoCompactRetire => EngineBackground.CompactRetireKeeps(s, s');
  }

  lemma RecoveryKeeps(s: State, s': State, step: Step)
    requires Inv(s) && Next(s, s', step)
    requires step.DoCrash? || step.DoRecoverBegin? || step.DoSweepTemp? || step.DoOpenTables? || step.DoSweepOrphan?
          || step.DoOrphansSwept? || step.DoReplayLogs? || step.DoRebuildWrite? || step.DoRebuildRename?
             || step.DoRebuildCommit?
          || step.DoMigrate? || step.DoRetireLog? || step.DoOpenLog?
    ensures Inv(s')
  {
    hide Inv, Crash, RecoverBegin, SweepTemp, OpenTables, SweepOrphan, OrphansSwept, ReplayLogs, RebuildWrite,
         RebuildRename, RebuildCommit, Migrate, RetireLog, OpenLog;
    match step
    case DoCrash => EngineRecovery.CrashKeeps(s, s');
    case DoRecoverBegin => EngineRecovery.RecoverBeginKeeps(s, s');
    case DoSweepTemp(id) => EngineRecovery.SweepTempKeeps(s, s', id);
    case DoOpenTables => EngineRecovery.OpenTablesKeeps(s, s');
    case DoSweepOrphan(id) => EngineRecovery.SweepOrphanKeeps(s, s', id);
    case DoOrphansSwept => EngineRecovery.OrphansSweptKeeps(s, s');
    case DoReplayLogs(size, blockSize) => EngineRecovery.ReplayLogsKeeps(s, s', size, blockSize);
    case DoRebuildWrite => EngineRecovery.RebuildWriteKeeps(s, s');
    case DoRebuildRename => EngineRecovery.RebuildRenameKeeps(s, s');
    case DoRebuildCommit => EngineRecovery.RebuildCommitKeeps(s, s');
    case DoMigrate => EngineRecovery.MigrateKeeps(s, s');
    case DoRetireLog => EngineRecovery.RetireLogKeeps(s, s');
    case DoOpenLog => EngineRecovery.OpenLogKeeps(s, s');
  }

  lemma NextKeeps(s: State, s': State, step: Step)
    requires Inv(s) && Next(s, s', step)
    ensures Inv(s')
  {
    hide Inv, Next;
    match step
    case DoAppend(_) => WriterKeeps(s, s', step);
    case DoInsertMem => WriterKeeps(s, s', step);
    case DoRotateBegin => WriterKeeps(s, s', step);
    case DoRotateEnd => WriterKeeps(s, s', step);
    case DoProbe(_) => WriterKeeps(s, s', step);
    case DoFinish(_) => WriterKeeps(s, s', step);
    case DoUnlink(_) => WriterKeeps(s, s', step);
    case DoFlushBegin(_) => BackgroundKeeps(s, s', step);
    case DoFlushWrite(_) => BackgroundKeeps(s, s', step);
    case DoFlushRename => BackgroundKeeps(s, s', step);
    case DoFlushCommit => BackgroundKeeps(s, s', step);
    case DoFlushInstall => BackgroundKeeps(s, s', step);
    case DoFlushRetire => BackgroundKeeps(s, s', step);
    case DoCompactBegin(_, _) => BackgroundKeeps(s, s', step);
    case DoCompactWrite(_, _, _) => BackgroundKeeps(s, s', step);
    case DoCompactWritten => BackgroundKeeps(s, s', step);
    case DoCompactRename => BackgroundKeeps(s, s', step);
    case DoCompactLoad => BackgroundKeeps(s, s', step);
    case DoCompactCommit => BackgroundKeeps(s, s', step);
    case DoCompactSwap => BackgroundKeeps(s, s', step);
    case DoCompactRetire => BackgroundKeeps(s, s', step);
    case _ => RecoveryKeeps(s, s', step);
  }

  /** Every state of every run satisfies the invariant. */
  lemma {:induction false} RunInv(states: seq<State>, steps: seq<Step>, i: nat)
    requires Execution(states, steps) && i < |states|
    ensures Inv(states[i])
  {
    hide Inv, Next, Init;
    if i == 0 {
      InitInv(states[0]);
    } else {
      RunInv(states, steps, i - 1);
      assert Next(states[i - 1], states[i], steps[i - 1]);
      NextKeeps(states[i - 1], states[i], steps[i - 1]);
    }
  }

  // -- Reading ------------------------------------------------------------------------------------

  /** The table files a version names, as they are on disk now. */
  ghost function Reread(tables: map<nat, Table>, version: LevelSet): (r: LevelSet)
    ensures |r| == |version|
    ensures forall l :: 0 <= l < |version| ==> r[l] == RereadLevel(tables, version[l])
  {
    seq(|version|, l requires 0 <= l < |version| => RereadLevel(tables, version[l]))
  }

  ghost function RereadLevel(tables: map<nat, Table>, ts: seq<Table>): (r: seq<Table>)
    ensures |r| == |ts|
    ensures forall i :: 0 <= i < |ts| ==> r[i] == if ts[i].id in tables then tables[ts[i].id]
        else Table(ts[i].id, [], 0)
  {
    seq(|ts|, i requires 0 <= i < |ts| => if ts[i].id in tables then tables[ts[i].id] else Table(ts[i].id, [], 0))
  }

  lemma RereadSame(tables: map<nat, Table>, version: LevelSet)
    requires OnDisk(tables, version)
    ensures Reread(tables, version) == version
  {
    forall l | 0 <= l < |version| ensures RereadLevel(tables, version[l]) == version[l] {
      forall i | 0 <= i < |version[l]| ensures RereadLevel(tables, version[l])[i] == version[l][i] {
        assert Member(version, l, version[l][i]);
      }
    }
  }

  /** get, from the moment of its probe on: what the memtables said then, and failing that what the
      files its version names say at the end. */
  ghost function ReaderGet(d: Disk, r: Reader, k: Key): Option<Value> {
    Visible(Or(Get(r.mem, k), Or(ImmGet(r.imm, k), LookLevels(Reread(d.tables, r.version), k))))
  }

  /** A reader answers from the history it recorded, and every file it may still read is there. */
  lemma ReaderAnswers(states: seq<State>, steps: seq<Step>, j: nat, reader: nat, k: Key)
    requires Execution(states, steps) && j < |states|
    requires states[j].phase.Up? && reader in states[j].phase.live.readers
    ensures var r := states[j].phase.live.readers[reader];
            && OnDisk(states[j].disk.tables, r.version)
            && ReaderGet(states[j].disk, r, k) == Get(PlainMap(r.seen), k)
  {
    hide Execution, LookLevels, Last, PlainMap;
    RunInv(states, steps, j);
    var r := states[j].phase.live.readers[reader];
    assert ReaderOk(states[j].disk.tables, r);
    RereadSame(states[j].disk.tables, r.version);
    assert ReaderSays(r, k) == Visible(Last(r.seen, k));
    LastIsPlainMap(r.seen, k);
  }

  /** What a get that probes in this state and reads at once would return. */
  ghost function GetNow(s: State, k: Key): Option<Value>
    requires s.phase.Up?
  {
    var p := s.phase.live;
    if k == [] then None
    else Visible(Or(Get(p.mem, k), Or(ImmGet(if p.imm.Some? then Some(p.imm.value.cells) else None, k),
                                      LookLevels(Reread(s.disk.tables, p.current), k))))
  }

  lemma InvGet(s: State, k: Key)
    requires Inv(s) && s.phase.Up?
    ensures GetNow(s, k) == Get(PlainMap(SeenNow(s)), k)
  {
    hide LookLevels, Last, PlainMap, Replay, Covers, Segments;
    LastIsPlainMap(SeenNow(s), k);
    RereadSame(s.disk.tables, s.phase.live.current);
    EngineWriter.ProbeSnapshot(s.phase.live, s.history, SeenNow(s), s.aux, k);
    if k == [] {
      NoEmptyKey(SeenNow(s));
    }
  }

  /** In every interleaving of writes, rotations, flushes, compactions, crashes and recoveries, get is
      lookup in the plain map of the history. */
  lemma GetIsPlainMap(states: seq<State>, steps: seq<Step>, i: nat, k: Key)
    requires Execution(states, steps) && i < |states| && states[i].phase.Up?
    ensures GetNow(states[i], k) == Get(PlainMap(SeenNow(states[i])), k)
  {
    hide Execution, Inv, GetNow, PlainMap, SeenNow;
    RunInv(states, steps, i);
    InvGet(states[i], k);
  }

  /** From its probe at step i on, the reader has neither finished nor died by state j. */
  ghost predicate Reading(steps: seq<Step>, i: nat, j: nat, reader: nat) {
    && i < j <= |steps| && steps[i] == DoProbe(reader)
    && forall q :: i < q < j ==> !steps[q].DoCrash? && steps[q] != DoFinish(reader)
  }

  /** No step but its own finish or a crash touches what a reader took. */
  lemma ReaderStays(s: State, s': State, step: Step, reader: nat)
    requires Next(s, s', step) && s.phase.Up? && reader in s.phase.live.readers
    requires !step.DoCrash? && step != DoFinish(reader)
    ensures s'.phase.Up? && reader in s'.phase.live.readers
        && s'.phase.live.readers[reader] == s.phase.live.readers[reader]
  {
    hide AppendLog, WriteTemp, RenameTemp, CommitManifest, RemoveLog, CreateLog, Install, PushL0, Pick, Surviving,
         Listing, SetPointer, Retired, NamesTable, SeenNow, OpenLevels, Openable, Orphan, Replay, LogWrites,
         PastLogs, Adopted, LevelsOk, TablesOk, Replayed,
         Acceptable, TableSizes.Buildable, LastTableTaken;
  }

  lemma ReaderStarts(s: State, s': State, reader: nat)
    requires Next(s, s', DoProbe(reader))
    ensures s.phase.Up? && s'.phase.Up? && reader in s'.phase.live.readers
        && s'.phase.live.readers[reader].seen == SeenNow(s)
  {
    hide SeenNow;
  }

  lemma {:induction false} ReaderHolds(states: seq<State>, steps: seq<Step>, i: nat, j: nat, reader: nat)
    requires Execution(states, steps) && Reading(steps, i, j, reader)
    ensures states[i].phase.Up? && states[j].phase.Up? && reader in states[j].phase.live.readers
    ensures states[j].phase.live.readers[reader].seen == SeenNow(states[i])
  {
    hide Init, SeenNow, Next;
    if j > i + 1 {
      assert Reading(steps, i, j - 1, reader);
      ReaderHolds(states, steps, i, j - 1, reader);
      assert Next(states[j - 1], states[j], steps[j - 1]);
      ReaderStays(states[j - 1], states[j], steps[j - 1], reader);
    } else {
      assert Next(states[i], states[i + 1], steps[i]);
      ReaderStarts(states[i], states[i + 1], reader);
    }
  }

  /**
   * A get that probed at step i and reads its tables at any later time answers as one that had done
   * everything at the probe: from the plain map of the writes visible then, whatever has been
   * written, flushed, compacted or retired since. Every file its version names is still on disk.
   */
  lemma ReaderSeesItsProbe(states: seq<State>, steps: seq<Step>, i: nat, j: nat, reader: nat, k: Key)
    requires Execution(states, steps) && Reading(steps, i, j, reader)
    ensures states[i].phase.Up? && states[j].phase.Up? && reader in states[j].phase.live.readers
    ensures var r := states[j].phase.live.readers[reader];
            && OnDisk(states[j].disk.tables, r.version)
            && ReaderGet(states[j].disk, r, k) == Get(PlainMap(SeenNow(states[i])), k)
            && ReaderGet(states[j].disk, r, k) == GetNow(states[i], k)
  {
    hide Next, Init, ReaderGet, GetNow, PlainMap, SeenNow;
    ReaderHolds(states, steps, i, j, reader);
    ReaderAnswers(states, steps, j, reader, k);
    GetIsPlainMap(states, steps, i, k);
  }

  lemma {:induction false} NoEmptyKey(h: seq<Write>)
    requires forall i :: 0 <= i < |h| ==> h[i].key != []
    ensures Last(h, []) == None
  {
    if h != [] {
      NoEmptyKey(h[..|h| - 1]);
    }
  }

  // -- Durability -------------------------------------------------------------------------------------

  /** How many writes are settled: all but one in a log and not yet in the memtable. */
  function Settled(s: State): nat {
    if s.phase.Up? && s.phase.live.writer.Appended? && s.history != [] then |s.history| - 1 else |s.history|
  }

  lemma StepKeepsHistory(s: State, s': State, step: Step)
    requires Next(s, s', step)
    ensures s.history <= s'.history && Settled(s) <= Settled(s')
  {
    hide AppendLog, WriteTemp, RenameTemp, CommitManifest, RemoveLog, CreateLog, Install, PushL0, Pick, Surviving,
         Listing, SetPointer, Retired, NamesTable, SeenNow, OpenLevels, Openable, Orphan, Replay, LogWrites,
         PastLogs, Adopted, LevelsOk, TablesOk,
         Acceptable, TableSizes.Buildable, LastTableTaken;
  }

  lemma {:induction false} HistoryGrows(states: seq<State>, steps: seq<Step>, i: nat, j: nat)
    requires Execution(states, steps) && i <= j < |states|
    ensures states[i].history <= states[j].history && Settled(states[i]) <= Settled(states[j])
    decreases j - i
  {
    hide Next, Init, Settled;
    if i < j {
      HistoryGrows(states, steps, i, j - 1);
      assert Next(states[j - 1], states[j], steps[j - 1]);
      StepKeepsHistory(states[j - 1], states[j], steps[j - 1]);
    }
  }

  lemma InFlightIsLast(s: State)
    requires Inv(s) && s.phase.Up? && s.phase.live.writer.Appended?
    ensures s.history != [] && s.history[|s.history| - 1] == s.phase.live.writer.w
  {
    hide DiskInv, Segments, FrozenInv, LevelsInv, CounterInv, TableIdInv, FlushInv, OutputsOnDisk, OutputIds,
         WorkInv, LoadedInv, RetiringInv, DurableInv, ReadersInv, ObsoleteInv, Replay, LogsBelow;
  }

  /** A write whose caller was told, at step i, is what readers see in its place in every later running state,
      crashes or no. */
  lemma AcknowledgedWritesSurvive(states: seq<State>, steps: seq<Step>, i: nat, j: nat)
    requires Execution(states, steps) && i < j < |states| && steps[i].DoInsertMem? && states[j].phase.Up?
    ensures states[i].phase.Up? && states[i].phase.live.writer.Appended? && states[i].history != []
    ensures var p := |states[i].history| - 1;
            p < |SeenNow(states[j])| && SeenNow(states[j])[p] == states[i].phase.live.writer.w
  {
    hide Init, Inv;
    assert Next(states[i], states[i + 1], steps[i]);
    RunInv(states, steps, i);
    InFlightIsLast(states[i]);
    HistoryGrows(states, steps, i, j);
    HistoryGrows(states, steps, i + 1, j);
    assert Settled(states[i + 1]) == |states[i].history| && Settled(states[j]) == |SeenNow(states[j])|;
  }

  /** Write p is in flight: in its log, its caller not yet told. */
  ghost predicate InFlight(s: State, p: nat) {
    s.phase.Up? && s.phase.live.writer.Appended? && |s.history| == p + 1
  }

  /** Before state j, write p was acknowledged, or was in flight when a crash came. */
  ghost predicate Accounted(states: seq<State>, steps: seq<Step>, j: nat, p: nat)
    requires j <= |steps| < |states|
  {
    exists q :: 0 <= q < j && InFlight(states[q], p) && (steps[q].DoInsertMem? || steps[q].DoCrash?)
  }

  lemma StepAccounts(s: State, s': State, step: Step, p: nat)
    requires Next(s, s', step) && p < |s'.history|
    ensures p < |s.history| || InFlight(s', p)
    ensures InFlight(s, p) ==> InFlight(s', p) || step.DoInsertMem? || step.DoCrash?
  {
    hide AppendLog, WriteTemp, RenameTemp, CommitManifest, RemoveLog, CreateLog, Install, PushL0, Pick, Surviving,
         Listing, SetPointer, Retired, NamesTable, SeenNow, OpenLevels, Openable, Orphan, Replay, LogWrites,
         PastLogs, Adopted, LevelsOk, TablesOk, Replayed,
         Acceptable, TableSizes.Buildable, LastTableTaken;
  }

  /**
   * Nothing else ever gets in: every write a store holds was there at the start, was acknowledged,
   * was the one write in flight at some crash, or is the one in flight now.
   */
  lemma {:induction false} EveryWriteAccounted(states: seq<State>, steps: seq<Step>, j: nat, p: nat)
    requires Execution(states, steps) && j < |states| && p < |states[j].history|
    ensures p < |states[0].history| || InFlight(states[j], p) || Accounted(states, steps, j, p)
  {
    hide Next, Init, InFlight;
    if j > 0 && p >= |states[0].history| {
      assert Next(states[j - 1], states[j], steps[j - 1]);
      StepAccounts(states[j - 1], states[j], steps[j - 1], p);
      if p < |states[j - 1].history| {
        EveryWriteAccounted(states, steps, j - 1, p);
        if InFlight(states[j - 1], p) {
          assert InFlight(states[j], p) || Accounted(states, steps, j, p);
        } else {
          var q :| 0 <= q < j - 1 && InFlight(states[q], p) && (steps[q].DoInsertMem? || steps[q].DoCrash?);
          assert Accounted(states, steps, j, p);
        }
      }
    }
  }

  /**
   * The disk alone, at any instant, holds every write: the tables a recovery opens cover a prefix, the
   * logs are a suffix, and the two overlap or meet. The tables open exactly when the manifest can be
   * read, and recovery never finds damage.
   */
  lemma EveryDiskStateRecovers(states: seq<State>, steps: seq<Step>, i: nat)
    requires Execution(states, steps) && i < |states|
    ensures states[i].phase != Refused(Damaged)
    ensures states[i].disk.manifest.Some? ==>
      var m := states[i].disk.manifest.value;
      && (Openable(states[i].disk, m) <==> ManifestSize(m) <= MaxManifestSize)
      && (Openable(states[i].disk, m) ==> OpenLevels(states[i].disk, m) == states[i].aux.durable)
    ensures states[i].disk.manifest.None? ==> states[i].aux.durable == Adopted(states[i].disk.tables)
    ensures exists from: nat, covered: nat ::
      (from <= covered <= |states[i].history| &&
       LogWrites(states[i].disk.logs) == states[i].history[from..] &&
       Covers(states[i].aux.durable, states[i].history[..covered]))
  {
    hide Execution, Covers, GoodLevels, LogWrites, ManifestSize, Openable;
    RunInv(states, steps, i);
    var s := states[i];
    if s.disk.manifest.Some? {
      OpenSucceeds(s.disk, s.disk.manifest.value, s.aux.durable);
    }
    assert s.aux.logs <= s.aux.tables <= |s.history| && LogWrites(s.disk.logs) == s.history[s.aux.logs..]
      && Covers(s.aux.durable, s.history[..s.aux.tables]);
  }

  // -- Shape and ids -------------------------------------------------------------------------------------

  /** The level set a process holds, running or recovering. */
  function HeldLevels(phase: Phase): Option<LevelSet> {
    match phase
    case SweepingOrphans(levels, _) => Some(levels)
    case Replaying(levels, _, _) => Some(levels)
    case Rebuilding(_, levels, _, _) => Some(levels)
    case Migrating(levels, _) => Some(levels)
    case RetiringLogs(levels, _, _) => Some(levels)
    case Up(live) => Some(live.levels)
    case _ => None
  }

  ghost predicate WellShaped(levels: LevelSet) {
    LevelsOk(levels) && NewestFirst(At(levels, 0)) && UniqueIds(levels)
  }

  /**
   * In every reachable state the level set a recovery would open, and the one the process holds in
   * whatever phase it is, have their deeper levels sorted and disjoint, L0 newest id first and no id
   * twice; and a running process's counter is past every file and everything the manifest names.
   */
  lemma ShapeAndIds(states: seq<State>, steps: seq<Step>, i: nat)
    requires Execution(states, steps) && i < |states|
    ensures WellShaped(states[i].aux.durable)
    ensures HeldLevels(states[i].phase).Some? ==> WellShaped(HeldLevels(states[i].phase).value)
    ensures states[i].phase.Up? ==>
      var s, p := states[i], states[i].phase.live;
      && FilesBelow(s.disk.tables, p.nextId) && FilesBelow(s.disk.temps, p.nextId) && LogsBelow(s.disk.logs, p.nextId)
      && IdsBelow(s.aux.durable, p.nextId)
      && s.disk.manifest.Some? && s.disk.manifest.value.nextId <= p.nextId
  {
    hide Execution, Covers, LogWrites, Replay, LevelsOk, UniqueIds, NewestFirst, Segments;
    RunInv(states, steps, i);
  }
}
