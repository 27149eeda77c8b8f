/** No table file is left behind: whatever is on disk is in use, or marked to go as soon as no reader needs it. */
module EngineFiles {
  import opened Keys
  import opened Entries
  import opened Levels
  import opened Compaction
  import opened History
  import opened Engine
  import opened EngineInvariant
  import opened EngineFacts
  import opened EngineTheorems
  import TableSizes

  /** Files the background thread has put on disk and not yet shown to anyone, or taken away and not yet marked. */
  ghost function InHand(bg: Background): set<nat> {
    match bg
    case Flushing(Committing, table, _, _) => {table.id}
    case Installing(_, outs, renamed) => if renamed <= |outs| then Ids(outs[..renamed]) else {}
    case CompactCommitting(_, outs, _) => Ids(outs)
    case CompactRetiring(work) => Retired(work)
    case _ => {}
  }

  /** Half-written files, by whom they are being written. */
  ghost function HalfWritten(bg: Background): set<nat> {
    match bg
    case Flushing(Renaming, table, _, _) => {table.id}
    case Merging(_, _, outs) => Ids(outs)
    case Installing(_, outs, renamed) => if renamed <= |outs| then Ids(outs[renamed..]) else {}
    case _ => {}
  }

  ghost predicate Held(p: Process, durable: LevelSet, id: nat) {
    NamesTable(p.levels, id) || NamesTable(durable, id) || id in p.obsolete || id in InHand(p.bg)
  }

  ghost predicate AllHeld(tables: map<nat, Table>, p: Process, durable: LevelSet) {
    forall id :: id in tables ==> Held(p, durable, id)
  }

  /** A flush adds a table and takes none away. */
  ghost predicate Grows(p: Process) {
    p.bg.FlushCommitted? ==> forall id :: NamesTable(p.levels, id) ==> NamesTable(p.bg.built, id)
  }

  ghost predicate AllNamed(tables: map<nat, Table>, levels: LevelSet) {
    forall id :: id in tables ==> NamesTable(levels, id)
  }

  ghost predicate Tidy(s: State) {
    match s.phase
    case Replaying(levels, _, _) => AllNamed(s.disk.tables, levels)
    case Rebuilding(stage, levels, _, table) =>
      forall id :: id in s.disk.tables ==> NamesTable(levels, id) || (stage.Committing? && id == table.id)
    case Migrating(levels, _) => AllNamed(s.disk.tables, levels)
    case RetiringLogs(levels, _, _) => AllNamed(s.disk.tables, levels)
    case Up(p) => AllHeld(s.disk.tables, p, s.aux.durable) && s.disk.temps.Keys <= HalfWritten(p.bg) && Grows(p)
    case _ => true
  }

  // -- What naming a table survives ----------------------------------------------------------------

  lemma PushNames(levels: LevelSet, t: Table)
    ensures forall id :: NamesTable(PushL0(levels, t), id) <==> NamesTable(levels, id) || id == t.id
  {
    forall id ensures NamesTable(PushL0(levels, t), id) <==> NamesTable(levels, id) || id == t.id {
      forall l, u ensures Member(PushL0(levels, t), l, u) <==> (l == 0 && u == t) || Member(levels, l, u) {
        PushMember(levels, t, l, u);
      }
      assert Member(PushL0(levels, t), 0, t);
    }
  }

  lemma InstallNames(levels: LevelSet, work: Work, outs: seq<Table>)
    requires WorkOk(levels, work) && UniqueIds(levels) && TablesOk(outs)
    ensures forall id :: NamesTable(levels, id) ==> NamesTable(Install(levels, work, outs), id) || id in Retired(work)
    ensures forall id :: id in Ids(outs) ==> NamesTable(Install(levels, work, outs), id)
  {
    var next := Install(levels, work, outs);
    forall id | NamesTable(levels, id) ensures NamesTable(next, id) || id in Retired(work) {
      var l, t :| Member(levels, l, t) && t.id == id;
      InstallMember(levels, work, outs, l, t);
    }
    forall id | id in Ids(outs) ensures NamesTable(next, id) {
      var t :| t in outs && t.id == id;
      InstallMember(levels, work, outs, work.level + 1, t);
      assert Member(next, work.level + 1, t);
    }
  }

  lemma AdoptedNames(tables: map<nat, Table>)
    requires FilesOk(tables)
    ensures AllNamed(tables, Adopted(tables))
  {
    DescendingFacts(tables, tables.Keys);
    forall id | id in tables ensures NamesTable(Adopted(tables), id) {
      assert tables[id] in Descending(tables, tables.Keys);
      assert Member(Adopted(tables), 0, tables[id]);
    }
  }

  lemma NotOrphans(d: Disk, levels: LevelSet)
    requires forall id :: !Orphan(d, levels, id)
    ensures AllNamed(d.tables, levels)
  {
    forall id | id in d.tables ensures NamesTable(levels, id) {
      assert !Orphan(d, levels, id);
      var l, i :| 0 <= l < |levels| && 0 <= i < |levels[l]| && levels[l][i].id == id;
      assert Member(levels, l, levels[l][i]);
    }
  }

  // -- Every step keeps it --------------------------------------------------------------------------------

  lemma WriterTidy(s: State, s': State, step: Step)
    requires Tidy(s) && Next(s, s', step)
    requires step.DoAppend? || step.DoInsertMem? || step.DoRotateBegin? || step.DoRotateEnd? || step.DoProbe?
        || step.DoFinish?
          || step.DoUnlink?
    ensures Tidy(s')
  {
    hide NamesTable, AppendedLogs, Acceptable, SeenNow, Retired, Ids;
  }

  lemma FlushBeginTidy(s: State, s': State, step: Step)
    requires Inv(s) && Tidy(s) && Next(s, s', step) && (step.DoFlushBegin? || step.DoFlushWrite? || step.DoFlushRename?)
    ensures Tidy(s')
  {
    hide NamesTable, Listing, TableSizes.Buildable, DiskInv, PhaseInv;
    if step.DoFlushWrite? {
      assert s.disk.temps.Keys == {};
    } else if step.DoFlushRename? {
      var id := s.phase.live.bg.table.id;
      assert s.disk.temps.Keys <= {id};
      assert (s.disk.temps - {id}).Keys == {};
    }
  }

  lemma FlushCommitTidy(s: State, s': State)
    requires Inv(s) && Tidy(s) && FlushCommit(s, s')
    ensures Tidy(s')
  {
    hide NamesTable, DiskInv, CutsInv, Segments, FrozenInv, CounterInv, TableIdInv, OutputsOnDisk, OutputIds,
         WorkInv, LoadedInv, RetiringInv, ReadersInv, ObsoleteInv, Replay, LogsBelow, PushL0, Metas, GoodLevels,
         Covers, OnDisk;
    PushNames(s.phase.live.levels, s.phase.live.bg.table);
  }

  lemma FlushInstallTidy(s: State, s': State, step: Step)
    requires Inv(s) && Tidy(s) && Next(s, s', step) && (step.DoFlushInstall? || step.DoFlushRetire?)
    ensures Tidy(s')
  {
    hide NamesTable, DiskInv, CutsInv, Segments, FrozenInv, CounterInv, TableIdInv, OutputsOnDisk, OutputIds,
         WorkInv, LoadedInv, RetiringInv, ReadersInv, ObsoleteInv, Replay, LogsBelow, PushL0, Metas, GoodLevels,
         Covers, OnDisk, WithoutLog;
  }

  lemma MergeTidy(s: State, s': State, step: Step)
    requires Inv(s) && Tidy(s) && Next(s, s', step)
    requires step.DoCompactBegin? || step.DoCompactWrite? || step.DoCompactWritten?
    ensures Tidy(s')
  {
    hide NamesTable, DiskInv, PhaseInv, Pick, Surviving, LevelsOk, TableSizes.Buildable, Retired;
    if step.DoCompactWrite? {
      var outs, more := s.phase.live.bg.outs, s'.phase.live.bg.outs;
      MoreIds(outs, more[|outs|]);
    } else if step.DoCompactWritten? {
      var outs := s.phase.live.bg.outs;
      assert outs[0..] == outs && outs[..0] == [];
    }
  }

  lemma MoreIds(outs: seq<Table>, t: Table)
    ensures Ids(outs + [t]) == Ids(outs) + {t.id}
  {
    forall id ensures id in Ids(outs + [t]) <==> id in Ids(outs) + {t.id} {
      assert t in outs + [t];
    }
  }

  lemma SplitIds(outs: seq<Table>, n: nat)
    requires n < |outs|
    ensures Ids(outs[..n + 1]) == Ids(outs[..n]) + {outs[n].id}
    ensures Ids(outs[n..]) == {outs[n].id} + Ids(outs[n + 1..])
  {
    assert outs[..n + 1] == outs[..n] + [outs[n]];
    MoreIds(outs[..n], outs[n]);
    assert outs[n..] == [outs[n]] + outs[n + 1..];
    forall id ensures id in Ids(outs[n..]) <==> id in {outs[n].id} + Ids(outs[n + 1..]) {
      assert outs[n] in outs[n..];
    }
  }

  lemma RenameTidy(s: State, s': State, step: Step)
    requires Inv(s) && Tidy(s) && Next(s, s', step) && (step.DoCompactRename? || step.DoCompactLoad?)
    ensures Tidy(s')
  {
    hide NamesTable, DiskInv, PhaseInv, Ids, Retired;
    var outs, n := s.phase.live.bg.outs, s.phase.live.bg.renamed;
    if step.DoCompactRename? {
      SplitIds(outs, n);
      assert (s.disk.temps - {outs[n].id}).Keys == s.disk.temps.Keys - {outs[n].id};
    } else {
      assert outs[..|outs|] == outs && outs[|outs|..] == [];
      assert Ids([]) == {} by {
        NoIds();
      }
    }
  }

  lemma NoIds()
    ensures Ids([]) == {}
  {
  }

  lemma CompactCommitTidy(s: State, s': State)
    requires Inv(s) && Tidy(s) && CompactCommit(s, s')
    ensures Tidy(s')
  {
    hide NamesTable, DiskInv, CutsInv, Segments, FrozenInv, CounterInv, TableIdInv, OutputsOnDisk, OutputIds,
         FlushInv, LoadedInv, RetiringInv, ReadersInv, ObsoleteInv, Replay, LogsBelow, Install, Metas, Covers,
         OnDisk, WorkOk, OutputsOf, Ids, Retired, LevelsOk, TablesOk, UniqueIds;
    InstallNames(s.phase.live.levels, s.phase.live.bg.work, s.phase.live.bg.outs);
  }

  lemma CompactSwapTidy(s: State, s': State)
    requires Inv(s) && Tidy(s) && CompactSwap(s, s')
    ensures Tidy(s')
  {
    hide NamesTable, DiskInv, CutsInv, Segments, FrozenInv, CounterInv, TableIdInv, OutputsOnDisk, OutputIds,
         FlushInv, LoadedInv, RetiringInv, ReadersInv, ObsoleteInv, Replay, LogsBelow, Install, Metas, Covers,
         OnDisk, WorkOk, OutputsOf, Ids, Retired, LevelsOk, TablesOk, UniqueIds, SetPointer;
    InstallNames(s.phase.live.levels, s.phase.live.bg.work, s.phase.live.bg.outs);
  }

  lemma CompactRetireTidy(s: State, s': State)
    requires Tidy(s) && CompactRetire(s, s')
    ensures Tidy(s')
  {
    hide NamesTable, Ids, Retired;
  }

  lemma OpeningTidy(s: State, s': State, step: Step)
    requires Inv(s) && Tidy(s) && Next(s, s', step)
    requires step.DoCrash? || step.DoRecoverBegin? || step.DoSweepTemp? || step.DoOpenTables? || step.DoSweepOrphan?
          || step.DoOrphansSwept? || step.DoReplayLogs?
    ensures Tidy(s')
  {
    hide NamesTable, PhaseInv, GoodLevels, Covers, LogWrites, DurableIs, Adopted, Orphan, Openable, OpenLevels,
         Readable, LastTableTaken, PastIds, Replay, Listing, PastLogs, LastLogTaken, TableSizes.Buildable, TableOk;
    if step.DoOpenTables? {
      AdoptedNames(s.disk.tables);
    } else if step.DoOrphansSwept? {
      NotOrphans(s.disk, s.phase.levels);
    }
  }

  lemma RebuildTidy(s: State, s': State, step: Step)
    requires Inv(s) && Tidy(s) && Next(s, s', step)
    requires step.DoRebuildWrite? || step.DoRebuildRename? || step.DoRebuildCommit? || step.DoMigrate?
        || step.DoRetireLog?
    ensures Tidy(s')
  {
    hide NamesTable, Inv, Adopted, PushL0, WithoutLog, Metas;
    if step.DoRebuildCommit? {
      PushNames(s.phase.levels, s.phase.table);
    }
  }

  lemma OpenLogTidy(s: State, s': State)
    requires Inv(s) && Tidy(s) && OpenLog(s, s')
    ensures Tidy(s')
  {
    hide NamesTable, DiskInv, FilesBelow, LogsBelow, Ids, Retired;
  }

  lemma BackgroundTidy(s: State, s': State, step: Step)
    requires Inv(s) && Tidy(s) && Next(s, s', step)
    requires step.DoFlushBegin? || step.DoFlushWrite? || step.DoFlushRename? || step.DoFlushCommit?
        || step.DoFlushInstall?
          || step.DoFlushRetire? || step.DoCompactBegin? || step.DoCompactWrite? || step.DoCompactWritten?
          || step.DoCompactRename? || step.DoCompactLoad? || step.DoCompactCommit? || step.DoCompactSwap?
          || step.DoCompactRetire?
    ensures Tidy(s')
  {
    hide Inv, Tidy, FlushBegin, FlushWrite, FlushRename, FlushCommit, FlushInstall, FlushRetire, CompactBegin,
         CompactWrite, CompactWritten, CompactRename, CompactLoad, CompactCommit, CompactSwap, CompactRetire;
    match step
    case DoFlushCommit => FlushCommitTidy(s, s');
    case DoFlushInstall => FlushInstallTidy(s, s', step);
    case DoFlushRetire => FlushInstallTidy(s, s', step);
    case DoCompactBegin(_, _) => MergeTidy(s, s', step);
    case DoCompactWrite(_, _, _) => MergeTidy(s, s', step);
    case DoCompactWritten => MergeTidy(s, s', step);
    case DoCompactRename => RenameTidy(s, s', step);
    case DoCompactLoad => RenameTidy(s, s', step);
    case DoCompactCommit => CompactCommitTidy(s, s');
    case DoCompactSwap => CompactSwapTidy(s, s');
    case DoCompactRetire => CompactRetireTidy(s, s');
    case _ => FlushBeginTidy(s, s', step);
  }

  lemma NextTidy(s: State, s': State, step: Step)
    requires Inv(s) && Tidy(s) && Next(s, s', step)
    ensures Tidy(s')
  {
    hide Inv, Tidy, RecoverBegin, SweepTemp, OpenTables, SweepOrphan, OrphansSwept, ReplayLogs, RebuildWrite,
         RebuildRename, RebuildCommit, Migrate, RetireLog, OpenLog, Crash, Append, InsertMem, RotateBegin, RotateEnd,
         Probe, Finish, Unlink, FlushBegin, FlushWrite, FlushRename, FlushCommit, FlushInstall, FlushRetire,
         CompactBegin, CompactWrite, CompactWritten, CompactRename, CompactLoad, CompactCommit, CompactSwap,
         CompactRetire;
    match step
    case DoAppend(_) => WriterTidy(s, s', step);
    case DoInsertMem => WriterTidy(s, s', step);
    case DoRotateBegin => WriterTidy(s, s', step);
    case DoRotateEnd => WriterTidy(s, s', step);
    case DoProbe(_) => WriterTidy(s, s', step);
    case DoFinish(_) => WriterTidy(s, s', step);
    case DoUnlink(_) => WriterTidy(s, s', step);
    case DoCrash => OpeningTidy(s, s', step);
    case DoRecoverBegin => OpeningTidy(s, s', step);
    case DoSweepTemp(_) => OpeningTidy(s, s', step);
    case DoOpenTables => OpeningTidy(s, s', step);
    case DoSweepOrphan(_) => OpeningTidy(s, s', step);
    case DoOrphansSwept => OpeningTidy(s, s', step);
    case DoReplayLogs(_, _) => OpeningTidy(s, s', step);
    case DoRebuildWrite => RebuildTidy(s, s', step);
    case DoRebuildRename => RebuildTidy(s, s', step);
    case DoRebuildCommit => RebuildTidy(s, s', step);
    case DoMigrate => RebuildTidy(s, s', step);
    case DoRetireLog => RebuildTidy(s, s', step);
    case DoOpenLog => OpenLogTidy(s, s');
    case _ => BackgroundTidy(s, s', step);
  }

  // -- Over whole runs ------------------------------------------------------------------------------------

  lemma {:induction false} RunTidy(states: seq<State>, steps: seq<Step>, i: nat)
    requires Execution(states, steps) && i < |states|
    ensures Tidy(states[i])
  {
    hide Next, Inv;
    if i > 0 {
      hide Init, Tidy;
      RunTidy(states, steps, i - 1);
      RunInv(states, steps, i - 1);
      assert Next(states[i - 1], states[i], steps[i - 1]);
      NextTidy(states[i - 1], states[i], steps[i - 1]);
    }
  }

  /**
   * In every running state of every run, a table file is named by the version readers are given or by the level set a
   * recovery would open, is marked to go, or is in the hands of the background thread; and a half-written one is the
   * background thread's.
   */
  lemma NothingLeaks(states: seq<State>, steps: seq<Step>, i: nat, id: nat)
    requires Execution(states, steps) && i < |states| && states[i].phase.Up?
    ensures var s, p := states[i], states[i].phase.live;
            && (id in s.disk.tables ==>
                  NamesTable(p.current, id) || NamesTable(s.aux.durable, id) || id in p.obsolete || id in InHand(p.bg))
            && (id in s.disk.temps ==> id in HalfWritten(p.bg))
  {
    hide Execution, DiskInv, NamesTable;
    RunTidy(states, steps, i);
    RunInv(states, steps, i);
  }

  ghost predicate Unread(p: Process, id: nat) {
    forall r :: r in p.readers ==> !NamesTable(p.readers[r].version, id)
  }

  /** With the background thread idle, every file but those of the current version is marked, and can be removed as
      soon as no reader's version names it. */
  lemma IdleFilesGo(states: seq<State>, steps: seq<Step>, i: nat, id: nat)
    requires Execution(states, steps) && i < |states| && states[i].phase.Up? && states[i].phase.live.bg.Idle?
    ensures states[i].disk.temps == map[]
    ensures var s, p := states[i], states[i].phase.live;
            id in s.disk.tables && !NamesTable(p.current, id) ==>
              && id in p.obsolete
              && (Unread(p, id) ==>
                    exists s' :: Next(s, s', DoUnlink(id)) && s'.disk.tables == s.disk.tables - {id})
  {
    hide Execution, NamesTable, Inv, Tidy;
    RunTidy(states, steps, i);
    RunInv(states, steps, i);
    IdleHeld(states[i], id);
    var s, live := states[i], states[i].phase.live;
    if id in s.disk.tables && !NamesTable(live.current, id) && Unread(live, id) {
      var s' := s.(disk := RemoveTable(s.disk, id), phase := Up(live.(obsolete := live.obsolete - {id})));
      assert Next(s, s', DoUnlink(id));
    }
  }

  lemma IdleHeld(s: State, id: nat)
    requires Inv(s) && Tidy(s) && s.phase.Up? && s.phase.live.bg.Idle?
    ensures s.disk.temps == map[]
    ensures id in s.disk.tables && !NamesTable(s.phase.live.current, id) ==> id in s.phase.live.obsolete
  {
    hide DiskInv, NamesTable, CutsInv, Segments, FrozenInv, CounterInv, TableIdInv, OutputsOnDisk, OutputIds,
         FlushInv, LoadedInv, RetiringInv, ReadersInv, ObsoleteInv, Replay, LogsBelow, Covers, OnDisk, WorkInv,
         GoodLevels;
    assert s.disk.temps.Keys == {};
  }

  /** And so, with no reader left, some unlinks bring the directory down to exactly the current version's files. */
  lemma {:induction false} DirectoryComesClean(s: State) returns (states: seq<State>, steps: seq<Step>)
    requires Inv(s) && Tidy(s) && s.phase.Up? && s.phase.live.bg.Idle? && s.phase.live.readers == map[]
    ensures |states| == |steps| + 1 && states[0] == s
    ensures forall i :: 0 <= i < |steps| ==> steps[i].DoUnlink? && Next(states[i], states[i + 1], steps[i])
    ensures var end := states[|steps|];
            && end.phase.Up? && end.phase.live.current == s.phase.live.current
            && forall id :: id in end.disk.tables <==> NamesTable(s.phase.live.current, id)
    decreases |s.disk.tables|
  {
    hide Inv, Tidy, NamesTable;
    if id :| id in s.disk.tables && !NamesTable(s.phase.live.current, id) {
      IdleHeld(s, id);
      var live := s.phase.live;
      var s' := s.(disk := RemoveTable(s.disk, id), phase := Up(live.(obsolete := live.obsolete - {id})));
      assert Next(s, s', DoUnlink(id));
      NextKeeps(s, s', DoUnlink(id));
      NextTidy(s, s', DoUnlink(id));
      assert (s.disk.tables - {id}).Keys == s.disk.tables.Keys - {id};
      var rest, more := DirectoryComesClean(s');
      states, steps := [s] + rest, [DoUnlink(id)] + more;
    } else {
      CurrentOnDisk(s);
      states, steps := [s], [];
    }
  }

  lemma CurrentOnDisk(s: State)
    requires Inv(s) && s.phase.Up?
    ensures forall id :: NamesTable(s.phase.live.current, id) ==> id in s.disk.tables
  {
    hide DiskInv, CutsInv, Segments, FrozenInv, CounterInv, TableIdInv, OutputsOnDisk, OutputIds, FlushInv, LoadedInv,
         RetiringInv, ReadersInv, ObsoleteInv, Replay, LogsBelow, Covers, WorkInv, GoodLevels, DurableInv;
  }
}
