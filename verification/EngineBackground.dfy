/** The background thread's steps keep the invariant: flush, then compaction. */
module EngineBackground {
  import opened Keys
  import opened Entries
  import opened Levels
  import opened Compaction
  import opened History
  import opened Engine
  import opened EngineInvariant
  import opened EngineFacts
  import TableSizes

  // -- Flush ------------------------------------------------------------------------------------

  lemma FlushBeginKeeps(s: State, s': State, size: nat)
    requires Inv(s) && FlushBegin(s, s', size)
    ensures Inv(s')
  {
    hide GoodLevels, Covers, DurableIs, LogWrites, Replay, NamesTable, FreshIds, Ascending, ReadersInv, Listing,
         FilesOk, LevelsInv, CounterInv, RotatingInv, TableIdInv, FrozenInv;
  }

  lemma FlushWriteKeeps(s: State, s': State, blockSize: nat)
    requires Inv(s) && FlushWrite(s, s', blockSize)
    ensures Inv(s')
  {
    hide GoodLevels, Covers, DurableIs, LogWrites, Replay, NamesTable, FreshIds, Ascending, ReadersInv, Listing,
         TableOk, LevelsInv, RotatingInv, ObsoleteInv, TableSizes.Buildable;
    var p := s.phase.live;
    ListingIsTable(p.imm.value.cells, p.bg.table.id, p.bg.table.size);
  }

  lemma FlushRenameKeeps(s: State, s': State)
    requires Inv(s) && FlushRename(s, s')
    ensures Inv(s')
  {
    hide GoodLevels, Covers, LogWrites, Replay, NamesTable, FreshIds, Ascending, ReadersInv, Listing, TableOk,
         OnDisk, RotatingInv, ObsoleteInv, FrozenInv;
    var p := s.phase.live;
    NewFileOnDisk(s.disk.tables, p.levels, p.bg.table);
    NewFileReaders(s.disk.tables, p.readers, p.bg.table);
  }

  lemma FlushCommitKeeps(s: State, s': State)
    requires Inv(s) && FlushCommit(s, s')
    ensures Inv(s')
  {
    hide GoodLevels, Covers, LogWrites, Replay, FreshIds, Ascending, ReadersInv, Listing, TableOk, Metas,
         OnDisk, RotatingInv, Segments, PushL0;
    var p, h := s.phase.live, s.history;
    FlushedLevels(s.disk.tables, p.levels, p.imm.value, p.bg.table, p.nextId);
    assert h[s.aux.levels..s.aux.mem] == h[s.aux.levels..s.aux.mem];
    PushCovers(p.levels, p.bg.table, h, s.aux.levels, s.aux.levels, s.aux.mem);
    FlushedObsolete(p.obsolete, p.levels, p.bg.table);
  }

  lemma FlushedLevels(tables: map<nat, Table>, levels: LevelSet, imm: Frozen, t: Table, nextId: nat)
    requires GoodLevels(levels) && OnDisk(tables, levels) && FilesOk(tables) && FilesBelow(tables, nextId)
    requires t.id == imm.tableId && t.id in tables && tables[t.id] == t
    requires forall i :: 0 <= i < |At(levels, 0)| ==> levels[0][i].id < imm.tableId
    requires !NamesTable(levels, t.id)
    ensures GoodLevels(PushL0(levels, t)) && OnDisk(tables, PushL0(levels, t)) && IdsBelow(PushL0(levels, t), nextId)
  {
    PushGood(levels, t);
    PushOnDisk(tables, levels, t);
    forall l, u | Member(PushL0(levels, t), l, u) ensures u.id < nextId {
    }
  }

  lemma FlushedObsolete(obsolete: set<nat>, levels: LevelSet, t: Table)
    requires forall id :: id in obsolete ==> !NamesTable(levels, id) && id != t.id
    ensures forall id :: id in obsolete ==> !NamesTable(PushL0(levels, t), id)
  {
    forall id | id in obsolete ensures !NamesTable(PushL0(levels, t), id) {
      forall l, u | Member(PushL0(levels, t), l, u) ensures u.id != id {
        PushMember(levels, t, l, u);
        assert Member(levels, l, u) ==> NamesTable(levels, u.id);
      }
    }
  }

  lemma FlushInstallLogs(imm: Frozen, writer: Writer, logId: nat, h: seq<Write>, a: nat, b: nat, c: nat)
    requires a == b <= c <= |h|
    ensures Segments(None, Some(imm), writer, logId, h, a, b, c)
        == Segments(Some(imm.logId), None, writer, logId, h, a, c, c)
  {
  }

  lemma FlushInstallKeeps(s: State, s': State)
    requires Inv(s) && FlushInstall(s, s')
    ensures Inv(s')
  {
    hide GoodLevels, Covers, LogWrites, Replay, FreshIds, Ascending, ReadersInv, Listing, TableOk, Metas,
         OnDisk, RotatingInv, Segments, NamesTable, Unreferenced;
    var p, a := s.phase.live, s.aux;
    assert OnDisk(s.disk.tables, s.aux.durable);
    FlushInstallLogs(p.imm.value, p.writer, p.logId, s.history, a.logs, a.levels, a.mem);
    WithoutImm(p.obsolete, p.levels, p.bg.built, p.imm, p.nextId);
    NoOutputs(p.bg.built);
  }

  lemma WithoutImm(obsolete: set<nat>, levels: LevelSet, built: LevelSet, imm: Option<Frozen>, nextId: nat)
    requires Unreferenced(obsolete, levels, imm, nextId) && forall id :: id in obsolete ==> !NamesTable(built, id)
    ensures Unreferenced(obsolete, built, None, nextId)
  {
  }

  lemma FlushRetireKeeps(s: State, s': State)
    requires Inv(s) && FlushRetire(s, s')
    ensures Inv(s')
  {
    hide GoodLevels, Covers, Replay, FreshIds, ReadersInv, Listing, TableOk, Metas, LogWrites, WithoutLog,
         OnDisk, NamesTable, Unreferenced, FrozenInv, CounterInv, LevelsInv;
    var p, a, h, logs := s.phase.live, s.aux, s.history, s.disk.logs;
    WithoutFirst(logs);
    assert s'.disk.logs == logs[1..];
    FirstLogGone(logs, h, a.logs, a.levels);
    assert logs[1..] == Segments(None, p.imm, p.writer, p.logId, h, a.levels, a.levels, a.mem);
  }

  lemma FirstLogGone(logs: seq<Log>, h: seq<Write>, a: nat, b: nat)
    requires logs != [] && a <= b <= |h| && LogWrites(logs) == h[a..] && logs[0].writes == h[a..b]
    ensures LogWrites(logs[1..]) == h[b..]
  {
    assert h[a..] == h[a..b] + h[b..];
    assert LogWrites(logs) == logs[0].writes + LogWrites(logs[1..]);
    assert (h[a..b] + h[b..])[b - a..] == h[b..];
    assert (logs[0].writes + LogWrites(logs[1..]))[b - a..] == LogWrites(logs[1..]);
  }

  // -- Compaction -----------------------------------------------------------------------------------

  lemma CompactBeginKeeps(s: State, s': State, options: Options, force: bool)
    requires Inv(s) && CompactBegin(s, s', options, force)
    ensures Inv(s')
  {
    hide Covers, Replay, ReadersInv, Metas, LogWrites, OnDisk, FrozenInv, CounterInv, Pick, WorkOk,
         Surviving, Unreferenced, TableIdInv, LevelsOk, Segments, UniqueIds, NewestFirst;
    var p := s.phase.live;
    PickIsSound(p.levels, p.pointers, options, force);
    assert Concat([]) + s'.phase.live.bg.rest == s'.phase.live.bg.rest;
  }

  /** One more output under the next id disturbs nothing that ids were measured against. */
  lemma OutputClaimed(d: Disk, p: Process, aux: Aux, out: Table)
    requires out.id == p.nextId && FilesBelow(d.tables, p.nextId) && FilesBelow(d.temps, p.nextId)
    requires OnDisk(d.tables, p.levels) && LogsBelow(d.logs, p.nextId)
    requires TableIdInv(d.tables, p.levels, p.imm, false, p.nextId)
    requires OutputsOnDisk(d.tables, d.temps, Outputs(p.bg), 0) && OutputIds(p.levels, Outputs(p.bg), p.imm, p.nextId)
    requires ObsoleteInv(p.obsolete, p.levels, aux.durable, Outputs(p.bg), p.imm, p.nextId)
    ensures FilesBelow(d.tables, p.nextId + 1) && FilesBelow(d.temps[out.id := out], p.nextId + 1)
    ensures LogsBelow(d.logs, p.nextId + 1)
    ensures TableIdInv(d.tables, p.levels, p.imm, false, p.nextId + 1)
    ensures OutputsOnDisk(d.tables, d.temps[out.id := out], Outputs(p.bg) + [out], 0)
    ensures OutputIds(p.levels, Outputs(p.bg) + [out], p.imm, p.nextId + 1)
    ensures ObsoleteInv(p.obsolete, p.levels, aux.durable, Outputs(p.bg) + [out], p.imm, p.nextId + 1)
  {
    hide NamesTable, FreshIds, OnDisk, Outputs;
    FreshOutput(d.tables, p.levels, Outputs(p.bg), out);
  }

  lemma CompactWriteKeeps(s: State, s': State, n: nat, size: nat, blockSize: nat)
    requires Inv(s) && CompactWrite(s, s', n, size, blockSize)
    ensures Inv(s')
  {
    hide Covers, Replay, ReadersInv, Metas, LogWrites, OnDisk, FrozenInv, WorkOk, GoodLevels, DurableIs, CutsInv,
         Surviving, Segments, Concat, TableOk, WrittenSoFar, LogsBelow, Ascending, FilesBelow,
         TableIdInv, OutputsOnDisk, OutputIds, ObsoleteInv, TableSizes.Buildable;
    var p := s.phase.live;
    var out := Table(p.nextId, p.bg.rest[..n], size);
    assert CutsInv(RetiringLog(p.bg), p.imm, p.writer, s.history, s.aux);
    NextPiece(p.levels, p.bg.work, p.bg.outs, p.bg.rest, n, out);
    OutputClaimed(s.disk, p, s.aux, out);
  }

  lemma {:induction false} ConcatPush(outs: seq<Table>, t: Table)
    ensures Concat(outs + [t]) == Concat(outs) + t.run
  {
    if outs == [] {
      assert outs + [t] == [t] && [t][1..] == [];
    } else {
      assert (outs + [t])[1..] == outs[1..] + [t];
      ConcatPush(outs[1..], t);
    }
  }

  lemma NextPiece(levels: LevelSet, work: Work, outs: seq<Table>, rest: Run, n: nat, out: Table)
    requires WorkOk(levels, work) && WrittenSoFar(work, outs, rest) && 0 < n <= |rest| && out.run == rest[..n]
    ensures WrittenSoFar(work, outs + [out], rest[n..])
    ensures TableOk(out)
  {
    hide Concat, Surviving, WorkOk;
    ConcatPush(outs, out);
    assert rest == rest[..n] + rest[n..];
    assert Concat(outs) + rest == (Concat(outs) + rest[..n]) + rest[n..];
    SurvivingSorted(levels, work);
    SortedParts(Concat(outs), rest);
    SortedParts(rest[..n], rest[n..]);
  }

  lemma SurvivingSorted(levels: LevelSet, work: Work)
    requires WorkOk(levels, work)
    ensures Sorted(Surviving(work))
  {
    SurvivingFacts(work, []);
  }

  lemma FreshOutput(tables: map<nat, Table>, levels: LevelSet, outs: seq<Table>, out: Table)
    requires FreshIds(levels, outs) && OnDisk(tables, levels) && FilesBelow(tables, out.id)
    requires forall i :: 0 <= i < |outs| ==> outs[i].id < out.id
    ensures FreshIds(levels, outs + [out])
  {
  }

  lemma CompactWrittenKeeps(s: State, s': State)
    requires Inv(s) && CompactWritten(s, s')
    ensures Inv(s')
  {
    hide Covers, Replay, ReadersInv, Metas, LogWrites, OnDisk, FrozenInv, WorkOk, LevelsInv, DurableIs, CounterInv,
         Surviving, NamesTable, Segments, Concat, FreshIds, Unreferenced, TableIdInv;
    var p := s.phase.live;
    assert Concat(p.bg.outs) + [] == Concat(p.bg.outs);
  }

  lemma CompactRenameKeeps(s: State, s': State)
    requires Inv(s) && CompactRename(s, s')
    ensures Inv(s')
  {
    hide Covers, Replay, ReadersInv, Metas, LogWrites, OnDisk, FrozenInv, WorkOk, GoodLevels,
         OutputsOf, NamesTable, Segments, Unreferenced, TableOk;
    var p := s.phase.live;
    var out := p.bg.outs[p.bg.renamed];
    NewFileOnDisk(s.disk.tables, p.levels, out);
    NewFileReaders(s.disk.tables, p.readers, out);
  }

  lemma CompactLoadKeeps(s: State, s': State)
    requires Inv(s) && CompactLoad(s, s')
    ensures Inv(s')
  {
    hide Covers, Replay, ReadersInv, Metas, LogWrites, FrozenInv, WorkOk, GoodLevels,
         OutputsOf, NamesTable, Segments, Unreferenced, TableOk, FreshIds;
    var p := s.phase.live;
    forall l, t | Member(p.levels, l, t) ensures t.id < p.nextId {
    }
  }

  // -- Committing a compaction --------------------------------------------------------------------------

  lemma InstalledOnDisk(tables: map<nat, Table>, levels: LevelSet, work: Work, outs: seq<Table>, n: nat)
    requires LevelsOk(levels) && WorkOk(levels, work) && UniqueIds(levels) && TablesOk(outs) && OnDisk(tables, levels)
    requires forall i :: 0 <= i < |outs| ==> outs[i].id in tables && tables[outs[i].id] == outs[i] && outs[i].id < n
    requires IdsBelow(levels, n)
    ensures OnDisk(tables, Install(levels, work, outs)) && IdsBelow(Install(levels, work, outs), n)
  {
    hide WorkOk, UniqueIds, Install;
    forall l, t | Member(Install(levels, work, outs), l, t) ensures t.id in tables && tables[t.id] == t && t.id < n {
      InstallMember(levels, work, outs, l, t);
      if t in outs {
        var i :| 0 <= i < |outs| && outs[i] == t;
      }
    }
  }

  lemma InstalledGood(levels: LevelSet, work: Work, outs: seq<Table>)
    requires GoodLevels(levels) && WorkOk(levels, work) && OutputsOf(work, outs) && FreshIds(levels, outs)
    ensures TablesOk(outs) && GoodLevels(Install(levels, work, outs))
  {
    hide WorkOk, UniqueIds, Install, OutputsOf, LevelsOk, NewestFirst, FreshIds;
    InstallKeepsLevels(levels, work, outs);
    InstallKeepsIds(levels, work, outs);
  }

  lemma InstalledCovers(levels: LevelSet, work: Work, outs: seq<Table>, h: seq<Write>)
    requires LevelsOk(levels) && WorkOk(levels, work) && UniqueIds(levels) && OutputsOf(work, outs) && TablesOk(outs)
        && Covers(levels, h)
    ensures Covers(Install(levels, work, outs), h)
  {
    hide WorkOk, UniqueIds, Install, OutputsOf, LookLevels, Last;
    forall k ensures Visible(LookLevels(Install(levels, work, outs), k)) == Visible(Last(h, k)) {
      InstallPreservesView(levels, work, outs, k);
    }
  }

  /** No table of an installed level set has an id that neither the old one nor the outputs have. */
  lemma InstalledNames(levels: LevelSet, work: Work, outs: seq<Table>, id: nat)
    requires LevelsOk(levels) && WorkOk(levels, work) && UniqueIds(levels) && TablesOk(outs)
    requires !NamesTable(levels, id) && forall i :: 0 <= i < |outs| ==> outs[i].id != id
    ensures !NamesTable(Install(levels, work, outs), id)
  {
    hide WorkOk, UniqueIds, Install;
    forall l, t | Member(Install(levels, work, outs), l, t) ensures t.id != id {
      InstallMember(levels, work, outs, l, t);
      assert Member(levels, l, t) ==> NamesTable(levels, t.id);
    }
  }

  lemma CompactCommitKeeps(s: State, s': State)
    requires Inv(s) && CompactCommit(s, s')
    ensures Inv(s')
  {
    hide Covers, Replay, ReadersInv, Metas, LogWrites, FrozenInv, WorkOk, UniqueIds, NewestFirst, LevelsOk, OnDisk,
         IdsBelow, OutputsOf, NamesTable, Segments, TableOk, Install, FreshIds;
    var p, bg := s.phase.live, s.phase.live.bg;
    InstalledGood(p.levels, bg.work, bg.outs);
    InstalledOnDisk(s.disk.tables, p.levels, bg.work, bg.outs, bg.nextId);
    InstalledCovers(p.levels, bg.work, bg.outs, s.history[..s.aux.tables]);
    forall id | id in p.obsolete ensures !NamesTable(s'.aux.durable, id) {
      InstalledNames(p.levels, bg.work, bg.outs, id);
    }
  }

  /** The tables a compaction read are named by nothing once it is installed. */
  lemma RetiredUnnamed(levels: LevelSet, work: Work, outs: seq<Table>, id: nat)
    requires LevelsOk(levels) && WorkOk(levels, work) && UniqueIds(levels) && TablesOk(outs) && FreshIds(levels, outs)
        && id in Retired(work)
    ensures NamesTable(levels, id) && !NamesTable(Install(levels, work, outs), id)
  {
    hide WorkOk, Install;
    var u :| Reads(work, u) && u.id == id;
    ReadTables(levels, work, u);
    var m := if u in work.inputs then work.level else work.level + 1;
    assert Member(levels, m, u);
    forall l, t | Member(Install(levels, work, outs), l, t) ensures t.id != id {
      InstallMember(levels, work, outs, l, t);
    }
  }

  lemma NamesBelow(tables: map<nat, Table>, levels: LevelSet, id: nat, n: nat)
    requires OnDisk(tables, levels) && FilesBelow(tables, n) && NamesTable(levels, id)
    ensures id < n
  {
  }

  lemma InstalledL0(levels: LevelSet, work: Work, outs: seq<Table>, n: nat)
    requires LevelsOk(levels) && WorkOk(levels, work) && UniqueIds(levels) && TablesOk(outs)
    requires forall i :: 0 <= i < |At(levels, 0)| ==> levels[0][i].id < n
    ensures forall i :: 0 <= i < |At(Install(levels, work, outs), 0)| ==> Install(levels, work, outs)[0][i].id < n
  {
    hide WorkOk, Install;
    var next := Install(levels, work, outs);
    forall i | 0 <= i < |At(next, 0)| ensures next[0][i].id < n {
      assert Member(next, 0, next[0][i]);
      InstallMember(levels, work, outs, 0, next[0][i]);
    }
  }

  lemma CompactSwapKeeps(s: State, s': State)
    requires Inv(s) && CompactSwap(s, s')
    ensures Inv(s')
  {
    hide Covers, Replay, ReadersInv, Metas, LogWrites, FrozenInv, WorkOk, UniqueIds, NewestFirst, LevelsOk, OnDisk,
         IdsBelow, OutputsOf, NamesTable, Segments, TableOk, Install, FreshIds, Retired;
    var p, bg := s.phase.live, s.phase.live.bg;
    var next := Install(p.levels, bg.work, bg.outs);
    if p.imm.Some? {
      InstalledL0(p.levels, bg.work, bg.outs, p.imm.value.tableId);
      InstalledNames(p.levels, bg.work, bg.outs, p.imm.value.tableId);
    }
    assert FreshIds(next, []) by {
      NoOutputs(next);
    }
    forall id | id in Retired(bg.work)
      ensures id < p.nextId && !NamesTable(next, id) && (p.imm.Some? ==> p.imm.value.tableId != id)
    {
      RetiredUnnamed(p.levels, bg.work, bg.outs, id);
      NamesBelow(s.disk.tables, p.levels, id, p.nextId);
    }
  }

  lemma NoOutputs(levels: LevelSet)
    ensures FreshIds(levels, [])
  {
  }

  lemma CompactRetireKeeps(s: State, s': State)
    requires Inv(s) && CompactRetire(s, s')
    ensures Inv(s')
  {
    hide Covers, Replay, ReadersInv, Metas, LogWrites, FrozenInv, GoodLevels, OnDisk, IdsBelow, CounterInv,
         NamesTable, Segments, TableOk, FreshIds, Retired, TableIdInv;
  }
}
