/** Opening a store again: recovery always comes to an end, and it ends in a running store exactly when
    three things that can be read off the disk allow it. */
module EngineReopen {
  import opened Keys
  import opened Entries
  import opened Levels
  import opened Compaction
  import opened History
  import opened Engine
  import opened EngineInvariant
  import opened EngineFacts
  import opened EngineTheorems
  import TableSizes

  // -- Recovery finishes -------------------------------------------------------------------------------------

  /** Where a recovery is, so that each of its steps comes closer to the end. */
  ghost function Rank(s: State): (r: (nat, nat)) {
    match s.phase
    case Down => (9, 0)
    case SweepingTemps => (8, |s.disk.temps|)
    case SweepingOrphans(_, _) => (7, |s.disk.tables|)
    case Replaying(_, _, _) => (6, 0)
    case Rebuilding(Writing, _, _, _) => (5, 0)
    case Rebuilding(Renaming, _, _, _) => (4, 0)
    case Rebuilding(Committing, _, _, _) => (3, 0)
    case Migrating(_, _) => (3, 0)
    case RetiringLogs(_, _, ids) => (2, |ids|)
    case Up(_) => (1, 0)
    case Refused(_) => (0, 0)
  }

  predicate Closer(a: (nat, nat), b: (nat, nat)) {
    a.0 < b.0 || (a.0 == b.0 && a.1 < b.1)
  }

  predicate RecoveryStep(step: Step) {
    step.DoRecoverBegin? || step.DoSweepTemp? || step.DoOpenTables? || step.DoSweepOrphan? || step.DoOrphansSwept?
    || step.DoReplayLogs? || step.DoRebuildWrite? || step.DoRebuildRename? || step.DoRebuildCommit?
    || step.DoMigrate? || step.DoRetireLog? || step.DoOpenLog?
  }

  /** Options are fixed when a store is opened; recovery uses one of them. */
  predicate AtBlockSize(step: Step, blockSize: nat) {
    step.DoReplayLogs? ==> step.blockSize == blockSize
  }

  /** While the store is down only a crash or a step of recovery can happen. */
  lemma OnlyRecovery(s: State, s': State, step: Step)
    requires !s.phase.Up? && Next(s, s', step)
    ensures step.DoCrash? || RecoveryStep(step)
  {
    hide RecoverBegin, SweepTemp, OpenTables, SweepOrphan, OrphansSwept, ReplayLogs, RebuildWrite, RebuildRename,
         RebuildCommit, Migrate, RetireLog, OpenLog, Crash;
  }

  lemma FewerFiles(files: map<nat, Table>, id: nat)
    requires id in files
    ensures |files - {id}| < |files|
  {
    assert (files - {id}).Keys == files.Keys - {id};
  }

  lemma SweepCloses(s: State, s': State, step: Step)
    requires (step.DoSweepTemp? && SweepTemp(s, s', step.id)) || (step.DoSweepOrphan? && SweepOrphan(s, s', step.id))
    ensures Closer(Rank(s'), Rank(s)) && s'.history == s.history && !s'.phase.Up?
  {
    if step.DoSweepTemp? {
      FewerFiles(s.disk.temps, step.id);
    } else {
      FewerFiles(s.disk.tables, step.id);
    }
  }

  lemma RebuildCloses(s: State, s': State, step: Step)
    requires (step.DoRebuildWrite? && RebuildWrite(s, s')) || (step.DoRebuildRename? && RebuildRename(s, s'))
          || (step.DoRebuildCommit? && RebuildCommit(s, s')) || (step.DoMigrate? && Migrate(s, s'))
    ensures Closer(Rank(s'), Rank(s)) && s'.history == s.history && !s'.phase.Up?
  {
  }

  lemma OpenCloses(s: State, s': State, step: Step)
    requires (step.DoRecoverBegin? && RecoverBegin(s, s')) || (step.DoOpenTables? && OpenTables(s, s'))
          || (step.DoOrphansSwept? && OrphansSwept(s, s'))
             || (step.DoReplayLogs? && ReplayLogs(s, s', step.size, step.blockSize))
    ensures Closer(Rank(s'), Rank(s)) && s'.history == s.history && !s'.phase.Up?
  {
    hide OpenLevels, Openable, Orphan, Replay, LogWrites, PastLogs, LastLogTaken, LastTableTaken, TableSizes.Buildable;
  }

  lemma RetireCloses(s: State, s': State, step: Step)
    requires (step.DoRetireLog? && RetireLog(s, s')) || (step.DoOpenLog? && OpenLog(s, s'))
    ensures Closer(Rank(s'), Rank(s)) && s'.history == s.history
    ensures s'.phase.Up? ==> SeenNow(s') == s'.history
  {
  }

  /** Each step of recovery brings it closer to the end, and none touches the history. */
  lemma RecoveryCloses(s: State, s': State, step: Step)
    requires RecoveryStep(step) && Next(s, s', step)
    ensures Closer(Rank(s'), Rank(s)) && s'.history == s.history
    ensures s'.phase.Up? ==> SeenNow(s') == s'.history
  {
    hide Rank, Closer, RecoverBegin, SweepTemp, OpenTables, SweepOrphan, OrphansSwept, ReplayLogs, RebuildWrite,
         RebuildRename, RebuildCommit, Migrate, RetireLog, OpenLog, SeenNow, Append, InsertMem, RotateBegin,
         RotateEnd, FlushBegin, FlushWrite, FlushRename, FlushCommit, FlushInstall, FlushRetire, CompactBegin,
         CompactWrite, CompactWritten, CompactRename, CompactLoad, CompactCommit, CompactSwap, CompactRetire, Probe,
         Finish, Unlink, Crash;
    if step.DoSweepTemp? || step.DoSweepOrphan? {
      SweepCloses(s, s', step);
    } else if step.DoRebuildWrite? || step.DoRebuildRename? || step.DoRebuildCommit? || step.DoMigrate? {
      RebuildCloses(s, s', step);
    } else if step.DoRetireLog? || step.DoOpenLog? {
      RetireCloses(s, s', step);
    } else {
      OpenCloses(s, s', step);
    }
  }

  /** Recovery is never stuck: it goes on until the store runs or has been refused. */
  lemma RecoveryProceeds(s: State, blockSize: nat) returns (s': State, step: Step)
    requires Inv(s) && !s.phase.Up? && !s.phase.Refused? && (s.phase.Replaying? ==> blockSize > 0)
    ensures RecoveryStep(step) && AtBlockSize(step, blockSize) && Next(s, s', step)
  {
    hide DiskInv, Next, RecoveryStep, AtBlockSize, GoodLevels, Covers, OnDisk, PushL0, Listing, Replay, LogWrites;
    match s.phase
    case Down =>
      s', step := BeginProceeds(s, blockSize);
    case SweepingTemps =>
      s', step := SweepProceeds(s, blockSize);
    case SweepingOrphans(_, _) =>
      s', step := OrphansProceed(s, blockSize);
    case Replaying(_, _, _) =>
      s', step := ReplayProceeds(s, blockSize);
    case Rebuilding(_, _, _, _) =>
      s', step := RebuildProceeds(s, blockSize);
    case Migrating(_, _) =>
      s', step := MigrateProceeds(s, blockSize);
    case RetiringLogs(_, _, _) =>
      s', step := RetireProceeds(s, blockSize);
  }

  lemma BeginProceeds(s: State, blockSize: nat) returns (s': State, step: Step)
    requires s.phase.Down?
    ensures RecoveryStep(step) && AtBlockSize(step, blockSize) && Next(s, s', step)
  {
    step, s' := DoRecoverBegin, s.(phase := SweepingTemps);
  }

  lemma OrphansProceed(s: State, blockSize: nat) returns (s': State, step: Step)
    requires s.phase.SweepingOrphans?
    ensures RecoveryStep(step) && AtBlockSize(step, blockSize) && Next(s, s', step)
  {
    if id :| Orphan(s.disk, s.phase.levels, id) {
      step, s' := DoSweepOrphan(id), s.(disk := RemoveTable(s.disk, id));
    } else {
      step, s' := DoOrphansSwept, s.(phase := Replaying(s.phase.levels, s.phase.nextId, true));
    }
  }

  lemma MigrateProceeds(s: State, blockSize: nat) returns (s': State, step: Step)
    requires s.phase.Migrating?
    ensures RecoveryStep(step) && AtBlockSize(step, blockSize) && Next(s, s', step)
  {
    step, s' := DoMigrate, s.(disk := CommitManifest(s.disk, s.phase.levels, s.phase.nextId),
      phase := RetiringLogs(s.phase.levels, s.phase.nextId, LogIds(s.disk.logs)),
          aux := s.aux.(durable := s.phase.levels));
  }

  lemma SweepProceeds(s: State, blockSize: nat) returns (s': State, step: Step)
    requires s.phase.SweepingTemps?
    ensures RecoveryStep(step) && AtBlockSize(step, blockSize) && Next(s, s', step)
  {
    if s.disk.temps == map[] {
      step := DoOpenTables;
      match s.disk.manifest
      case None =>
        if LastTableTaken(s.disk.tables) {
          s' := s.(phase := Refused(IdsExhausted));
        } else {
          s' := s.(phase := Replaying(Adopted(s.disk.tables), PastIds(s.disk.tables.Keys), false));
        }
      case Some(m) =>
        if Openable(s.disk, m) {
          s' := s.(phase := SweepingOrphans(OpenLevels(s.disk, m), m.nextId));
        } else {
          s' := s.(phase := Refused(if Readable(m) then Damaged else ManifestTooLarge));
        }
    } else {
      var id :| id in s.disk.temps;
      step, s' := DoSweepTemp(id), s.(disk := s.disk.(temps := s.disk.temps - {id}));
    }
  }

  lemma ReplayProceeds(s: State, blockSize: nat) returns (s': State, step: Step)
    requires s.phase.Replaying? && blockSize > 0
    ensures RecoveryStep(step) && AtBlockSize(step, blockSize) && Next(s, s', step)
  {
    hide Replayed;
    step := DoReplayLogs(0, blockSize);
    s' := s.(phase := Replayed(s.disk.logs, s.phase.levels, s.phase.nextId, s.phase.hadManifest, 0, blockSize));
  }

  lemma RebuildProceeds(s: State, blockSize: nat) returns (s': State, step: Step)
    requires s.phase.Rebuilding? && (s.phase.stage.Renaming? ==> s.phase.table.id in s.disk.temps)
    ensures RecoveryStep(step) && AtBlockSize(step, blockSize) && Next(s, s', step)
  {
    match s.phase.stage
    case Writing =>
      step, s' := DoRebuildWrite, s.(disk := WriteTemp(s.disk, s.phase.table), phase := s.phase.(stage := Renaming));
    case Renaming =>
      var disk := RenameTemp(s.disk, s.phase.table.id);
      step, s' := DoRebuildRename, s.(disk := disk, phase := s.phase.(stage := Committing),
        aux := if s.disk.manifest.None? then s.aux.(durable := Adopted(disk.tables), tables := |s.history|) else s.aux);
    case Committing =>
      var built := PushL0(s.phase.levels, s.phase.table);
      step, s' := DoRebuildCommit, s.(disk := CommitManifest(s.disk, built, s.phase.nextId),
        phase := RetiringLogs(built, s.phase.nextId, LogIds(s.disk.logs)),
            aux := s.aux.(durable := built, tables := |s.history|));
  }

  lemma RetireProceeds(s: State, blockSize: nat) returns (s': State, step: Step)
    requires s.phase.RetiringLogs?
    ensures RecoveryStep(step) && AtBlockSize(step, blockSize) && Next(s, s', step)
  {
    if s.phase.ids != [] {
      step, s' := DoRetireLog, s.(disk := RemoveLog(s.disk, s.phase.ids[0]), phase := s.phase.(ids := s.phase.ids[1..]),
        aux := if s.disk.logs != [] then s.aux.(logs := s.aux.logs + |s.disk.logs[0].writes|) else s.aux);
    } else {
      var n := |s.history|;
      step, s' := DoOpenLog, s.(disk := CreateLog(s.disk, s.phase.nextId),
        phase := Up(Process(map[], s.phase.nextId, None, s.phase.levels, s.phase.levels, s.phase.nextId + 1, [],
                            Ready, Idle, map[], {})),
        aux := s.aux.(levels := n, mem := n));
    }
  }

  // -- When it ends in a running store --------------------------------------------------------------------

  /** What one table of all the logged writes would take can be written. */
  ghost predicate ReplayFits(logs: seq<Log>, blockSize: nat) {
    LogWrites(logs) == [] || !TableSizes.TooLarge(TableSizes.Cut(Listing(Replay(LogWrites(logs))), blockSize))
  }

  /** What opening a directory asks of it. */
  ghost predicate Recoverable(d: Disk, blockSize: nat) {
    && blockSize > 0
    && (match d.manifest
        case None => !LastTableTaken(d.tables)
        case Some(m) => ManifestSize(m) <= MaxManifestSize)
    && !LastLogTaken(d.logs)
    && ReplayFits(d.logs, blockSize)
  }

  /** What is still to be asked, from wherever recovery has got to. */
  ghost predicate Willing(s: State, blockSize: nat) {
    match s.phase
    case Down => Recoverable(s.disk, blockSize)
    case SweepingTemps => Recoverable(s.disk, blockSize)
    case SweepingOrphans(_, _) => blockSize > 0 && !LastLogTaken(s.disk.logs) && ReplayFits(s.disk.logs, blockSize)
    case Replaying(_, _, _) => blockSize > 0 && !LastLogTaken(s.disk.logs) && ReplayFits(s.disk.logs, blockSize)
    case Refused(_) => false
    case _ => true
  }

  lemma OpenWilling(s: State, s': State, blockSize: nat)
    requires Inv(s) && OpenTables(s, s')
    ensures Willing(s, blockSize) <==> Willing(s', blockSize)
  {
    hide ReplayFits, LastLogTaken, LastTableTaken, PhaseInv, GoodLevels, Covers, LogWrites, TableOk, Openable,
         OnDisk, IdsBelow, Metas, Adopted, ManifestSize;
    if s.disk.manifest.Some? {
      OpenSucceeds(s.disk, s.disk.manifest.value, s.aux.durable);
    }
  }

  lemma ReplayWilling(s: State, s': State, size: nat, blockSize: nat)
    requires ReplayLogs(s, s', size, blockSize)
    ensures Willing(s, blockSize) <==> Willing(s', blockSize)
  {
    hide LastLogTaken, LogWrites, Listing, PastLogs, TableSizes.TooLarge, TableSizes.Cut, Replay;
    ReplayEmpty(LogWrites(s.disk.logs));
  }

  /** No step of recovery changes whether it will succeed. */
  lemma StepWilling(s: State, s': State, step: Step, blockSize: nat)
    requires Inv(s) && RecoveryStep(step) && AtBlockSize(step, blockSize) && Next(s, s', step)
    ensures Willing(s, blockSize) <==> Willing(s', blockSize)
  {
    hide Inv, OpenTables, ReplayLogs, LastLogTaken, LastTableTaken, ReplayFits, ManifestSize, Orphan, Adopted,
         PushL0, Append, InsertMem, RotateBegin, RotateEnd, FlushBegin, FlushWrite, FlushRename, FlushCommit,
         FlushInstall, FlushRetire, CompactBegin, CompactWrite, CompactWritten, CompactRename, CompactLoad,
         CompactCommit, CompactSwap, CompactRetire, Probe, Finish, Unlink, Crash;
    if step.DoOpenTables? {
      OpenWilling(s, s', blockSize);
    } else if step.DoReplayLogs? {
      ReplayWilling(s, s', step.size, blockSize);
    }
  }

  /** A recovery without a crash in it. */
  ghost predicate Recovery(states: seq<State>, steps: seq<Step>, blockSize: nat) {
    && |states| == |steps| + 1
    && forall i :: 0 <= i < |steps| ==>
         RecoveryStep(steps[i]) && AtBlockSize(steps[i], blockSize) && Next(states[i], states[i + 1], steps[i])
  }

  /** However recovery goes, it keeps every write, and where it can end was settled at the start. */
  lemma {:induction false} RecoveryOutcome(states: seq<State>, steps: seq<Step>, blockSize: nat, n: nat)
    requires Recovery(states, steps, blockSize) && Inv(states[0]) && n <= |steps|
    ensures Inv(states[n]) && states[n].history == states[0].history
    ensures Willing(states[0], blockSize) <==> Willing(states[n], blockSize)
  {
    hide Inv, Next, Willing, RecoveryStep, AtBlockSize, Rank, Closer;
    if n > 0 {
      RecoveryOutcome(states, steps, blockSize, n - 1);
      var s, s', step := states[n - 1], states[n], steps[n - 1];
      assert RecoveryStep(step) && AtBlockSize(step, blockSize) && Next(s, s', step);
      StepWilling(s, s', step, blockSize);
      RecoveryCloses(s, s', step);
      NextKeeps(s, s', step);
    }
  }

  lemma Prepend(s: State, step: Step, states: seq<State>, steps: seq<Step>, blockSize: nat)
    requires Recovery(states, steps, blockSize)
    requires RecoveryStep(step) && AtBlockSize(step, blockSize) && Next(s, states[0], step)
    ensures Recovery([s] + states, [step] + steps, blockSize)
  {
    hide Next, RecoveryStep, AtBlockSize;
  }

  /** Recovery runs to an end, whatever the directory. */
  lemma {:induction false} RecoveryEnds(s: State, blockSize: nat) returns (states: seq<State>, steps: seq<Step>)
    requires Inv(s) && blockSize > 0
    ensures Recovery(states, steps, blockSize) && states[0] == s
    ensures states[|steps|].phase.Up? || states[|steps|].phase.Refused?
    decreases Rank(s).0, Rank(s).1
  {
    hide Inv, Next, RecoveryStep, AtBlockSize;
    if s.phase.Up? || s.phase.Refused? {
      states, steps := [s], [];
    } else {
      var s', step := RecoveryProceeds(s, blockSize);
      RecoveryCloses(s, s', step);
      NextKeeps(s, s', step);
      var rest, more := RecoveryEnds(s', blockSize);
      Prepend(s, step, rest, more, blockSize);
      states, steps := [s] + rest, [step] + more;
    }
  }

  ghost predicate Reopens(s: State, blockSize: nat) {
    exists states: seq<State>, steps: seq<Step> :: Recovery(states, steps, blockSize) && states[0] == s
        && states[|steps|].phase.Up?
  }

  /**
   * From a crash at any step of any run, including one inside an earlier recovery, recovery ends in a
   * running store exactly when the manifest, if there is one, can be read, an id is left, and the logged
   * writes fit one table.
   */
  lemma ReopensExactlyWhen(s: State, blockSize: nat)
    requires Inv(s) && s.phase.Down?
    ensures Reopens(s, blockSize) <==> Recoverable(s.disk, blockSize)
  {
    hide Inv, Next, RecoveryStep, AtBlockSize, Recoverable;
    if Reopens(s, blockSize) {
      var states: seq<State>, steps: seq<Step> :| Recovery(states, steps, blockSize) && states[0] == s
          && states[|steps|].phase.Up?;
      RecoveryOutcome(states, steps, blockSize, |steps|);
    }
    if Recoverable(s.disk, blockSize) {
      PositiveBlocks(s.disk, blockSize);
      var states, steps := RecoveryEnds(s, blockSize);
      RecoveryOutcome(states, steps, blockSize, |steps|);
    }
  }

  lemma PositiveBlocks(d: Disk, blockSize: nat)
    requires Recoverable(d, blockSize)
    ensures blockSize > 0
  {
  }

  /** And the store it opens is the plain map of every write that had reached a log. */
  lemma RecoveryRestoresEverything(states: seq<State>, steps: seq<Step>, blockSize: nat, k: Key)
    requires Recovery(states, steps, blockSize) && Inv(states[0]) && !states[0].phase.Up? && states[|steps|].phase.Up?
    ensures GetNow(states[|steps|], k) == Get(PlainMap(states[0].history), k)
  {
    hide Inv, Next, GetNow, PlainMap, Willing, AtBlockSize;
    var n := |steps|;
    RecoveryOutcome(states, steps, blockSize, n);
    RecoveryOutcome(states, steps, blockSize, n - 1);
    assert RecoveryStep(steps[n - 1]) && Next(states[n - 1], states[n], steps[n - 1]);
    RecoveryCloses(states[n - 1], states[n], steps[n - 1]);
    InvGet(states[n], k);
  }
}
