/** A crash at any step, and every step of recovery, keep the invariant. */
module EngineRecovery {
  import opened Keys
  import opened Entries
  import opened Levels
  import opened Compaction
  import opened History
  import opened Engine
  import opened EngineInvariant
  import opened EngineFacts
  import TableSizes

  lemma CrashKeeps(s: State, s': State)
    requires Inv(s) && Crash(s, s')
    ensures Inv(s')
  {
    hide DiskInv;
  }

  lemma RecoverBeginKeeps(s: State, s': State)
    requires Inv(s) && RecoverBegin(s, s')
    ensures Inv(s')
  {
    hide DiskInv;
  }

  lemma SweepTempKeeps(s: State, s': State, id: nat)
    requires Inv(s) && SweepTemp(s, s', id)
    ensures Inv(s')
  {
    hide GoodLevels, Covers, LogWrites, DurableIs, TableOk;
  }

  /** The tables a crashed process left behind open, unless the manifest is too long or no id is left. */
  lemma OpenTablesKeeps(s: State, s': State)
    requires Inv(s) && OpenTables(s, s')
    ensures Inv(s')
  {
    hide GoodLevels, Covers, LogWrites, TableOk, Openable, OnDisk, IdsBelow, Metas, Adopted, Readable, LastTableTaken;
    match s.disk.manifest
    case None =>
    case Some(m) =>
      OpenSucceeds(s.disk, m, s.aux.durable);
  }

  lemma SweepOrphanKeeps(s: State, s': State, id: nat)
    requires Inv(s) && SweepOrphan(s, s', id)
    ensures Inv(s')
  {
    hide GoodLevels, Covers, LogWrites, TableOk, OnDisk, IdsBelow, Metas, Adopted, NamesTable, Orphan;
    OrphanUnnamed(s.disk, s.aux.durable, id);
    RemoveOnDisk(s.disk.tables, s.aux.durable, id);
  }

  lemma OrphanUnnamed(d: Disk, levels: LevelSet, id: nat)
    requires Orphan(d, levels, id)
    ensures !NamesTable(levels, id)
  {
    forall l: nat, t | Member(levels, l, t) ensures t.id != id {
      var i :| 0 <= i < |levels[l]| && levels[l][i] == t;
    }
  }

  lemma NoOrphans(d: Disk, levels: LevelSet, n: nat)
    requires IdsBelow(levels, n) && forall id :: !Orphan(d, levels, id)
    ensures FilesBelow(d.tables, n)
  {
    forall id | id in d.tables ensures id < n {
      assert !Orphan(d, levels, id);
      var l, i :| 0 <= l < |levels| && 0 <= i < |levels[l]| && levels[l][i].id == id;
      assert Member(levels, l, levels[l][i]);
    }
  }

  lemma OrphansSweptKeeps(s: State, s': State)
    requires Inv(s) && OrphansSwept(s, s')
    ensures Inv(s')
  {
    hide GoodLevels, Covers, LogWrites, TableOk, OnDisk, IdsBelow, Metas, Adopted, NamesTable, Orphan;
    NoOrphans(s.disk, s.aux.durable, s.phase.nextId);
  }

  lemma ReplayLogsKeeps(s: State, s': State, size: nat, blockSize: nat)
    requires Inv(s) && ReplayLogs(s, s', size, blockSize)
    ensures Inv(s')
  {
    hide Covers, LogWrites, TableOk, OnDisk, IdsBelow, Metas, Adopted, GoodLevels, Replay, Listing, PastLogs, Ascending,
         LastLogTaken, TableSizes.Buildable;
    var next := PastLogs(s.phase.nextId, s.disk.logs);
    PastLogsFacts(s.phase.nextId, s.disk.logs);
    var writes := LogWrites(s.disk.logs);
    ReplayEmpty(writes);
    if writes != [] {
      ListingIsTable(Replay(writes), next, size);
    }
  }

  lemma RebuildWriteKeeps(s: State, s': State)
    requires Inv(s) && RebuildWrite(s, s')
    ensures Inv(s')
  {
    hide Covers, LogWrites, TableOk, OnDisk, IdsBelow, Metas, Adopted, GoodLevels, Replay, Listing, Ascending;
    assert s'.disk.temps == map[s.phase.table.id := s.phase.table];
  }

  /** What the replayed table makes of the tables it is pushed onto. */
  lemma RebuiltLevels(d: Disk, levels: LevelSet, t: Table, h: seq<Write>, aux: Aux)
    requires DiskInv(d, h, aux) && levels == aux.durable && TableOk(t)
    requires FilesBelow(d.tables, t.id) && t.run == Listing(Replay(LogWrites(d.logs)))
    ensures var built := PushL0(levels, t);
            GoodLevels(built) && OnDisk(d.tables[t.id := t], built) && Covers(built, h)
  {
    hide Covers, LogWrites, Replay, Listing, Metas, TableOk, Adopted;
    if d.manifest.None? {
      AdoptedGood(d.tables);
    }
    forall l, u | Member(levels, l, u) ensures u.id < t.id {
    }
    forall i | 0 <= i < |At(levels, 0)| ensures levels[0][i].id < t.id {
      assert Member(levels, 0, levels[0][i]);
    }
    PushGood(levels, t);
    NewFileOnDisk(d.tables, levels, t);
    PushOnDisk(d.tables[t.id := t], levels, t);
    assert h[aux.logs..|h|] == h[aux.logs..] && h[..|h|] == h;
    PushCovers(levels, t, h, aux.logs, aux.tables, |h|);
  }

  lemma RebuildRenameKeeps(s: State, s': State)
    requires Inv(s) && RebuildRename(s, s')
    ensures Inv(s')
  {
    hide Covers, LogWrites, TableOk, OnDisk, IdsBelow, Metas, Adopted, GoodLevels, Replay, Listing, Ascending, PushL0;
    var t := s.phase.table;
    RebuiltLevels(s.disk, s.phase.levels, t, s.history, s.aux);
    StaysOnDisk(s.disk, s.aux.durable, t);
    AdoptedPush(s.disk.tables, t);
    assert s'.disk.tables == s.disk.tables[t.id := t];
    assert s'.disk.temps == map[];
    assert s.history[..|s.history|] == s.history;
  }

  lemma StaysOnDisk(d: Disk, levels: LevelSet, t: Table)
    requires FilesBelow(d.tables, t.id)
    ensures OnDisk(d.tables, levels) ==> OnDisk(d.tables[t.id := t], levels)
  {
  }

  lemma OnDiskBelow(tables: map<nat, Table>, levels: LevelSet, n: nat)
    requires OnDisk(tables, levels) && FilesBelow(tables, n)
    ensures IdsBelow(levels, n)
  {
  }

  lemma RebuildCommitKeeps(s: State, s': State)
    requires Inv(s) && RebuildCommit(s, s')
    ensures Inv(s')
  {
    hide Covers, LogWrites, TableOk, OnDisk, IdsBelow, Metas, Adopted, GoodLevels, Replay, Listing, Ascending,
         PushL0, FilesBelow;
    OnDiskBelow(s.disk.tables, PushL0(s.phase.levels, s.phase.table), s.phase.nextId);
    assert s.history[..|s.history|] == s.history;
  }

  lemma MigrateKeeps(s: State, s': State)
    requires Inv(s) && Migrate(s, s')
    ensures Inv(s')
  {
    hide Covers, LogWrites, TableOk, OnDisk, IdsBelow, Metas, Adopted, GoodLevels, Replay, Listing, Ascending,
         FilesBelow;
    AdoptedGood(s.disk.tables);
    OnDiskBelow(s.disk.tables, s.phase.levels, s.phase.nextId);
  }

  lemma RetireLogKeeps(s: State, s': State)
    requires Inv(s) && RetireLog(s, s')
    ensures Inv(s')
  {
    hide Covers, LogWrites, TableOk, OnDisk, IdsBelow, Metas, Adopted, GoodLevels, WithoutLog, FilesBelow, FilesOk,
         DurableIs;
    var logs, h := s.disk.logs, s.history;
    WithoutFirst(logs);
    LogsTail(logs, h, s.aux.logs);
    assert s'.phase.ids == LogIds(logs[1..]);
  }

  /** Losing the lowest log moves the start of the surviving suffix, and nothing else. */
  lemma LogsTail(logs: seq<Log>, h: seq<Write>, a: nat)
    requires logs != [] && a <= |h| && LogWrites(logs) == h[a..]
    ensures a + |logs[0].writes| <= |h| && LogWrites(logs[1..]) == h[a + |logs[0].writes|..]
  {
    assert LogWrites(logs) == logs[0].writes + LogWrites(logs[1..]);
    assert |h[a..]| == |logs[0].writes| + |LogWrites(logs[1..])|;
    assert LogWrites(logs[1..]) == h[a..][|logs[0].writes|..];
  }

  lemma NoLogs(logs: seq<Log>)
    requires LogIds(logs) == []
    ensures logs == []
  {
    assert |LogIds(logs)| == |logs|;
  }

  lemma FirstSegment(id: nat, h: seq<Write>)
    ensures Segments(None, None, Ready, id, h, |h|, |h|, |h|) == [Log(id, [])]
  {
    assert h[|h|..] == [];
  }

  lemma OpenLogKeeps(s: State, s': State)
    requires Inv(s) && OpenLog(s, s')
    ensures Inv(s')
  {
    var h, n := s.history, |s.history|;
    NoLogs(s.disk.logs);
    assert s.aux.logs == n && h[n..] == [] && h[..n] == h;
    hide Covers, TableOk, OnDisk, Metas, Adopted, GoodLevels, FilesBelow, FilesOk, NamesTable, FreshIds, ReaderOk,
         Replay, LogWrites, Segments, DurableIs;
    ReplayEmpty([]);
    assert s'.disk.logs == [Log(s.phase.nextId, [])];
    OneLogWrites(Log(s.phase.nextId, []));
    FirstSegment(s.phase.nextId, h);
    OpenedFresh(s.disk.tables, s.disk.manifest, s.phase.levels, s.phase.nextId);
  }

  lemma OpenedFresh(tables: map<nat, Table>, manifest: Option<Manifest>, levels: LevelSet, nextId: nat)
    requires FilesBelow(tables, nextId)
    ensures FilesBelow(tables, nextId + 1) && FilesBelow(map[], nextId + 1) && FreshIds(levels, [])
  {
  }
}
