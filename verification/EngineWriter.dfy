/** The writer's and the readers' steps keep the invariant. */
module EngineWriter {
  import opened Keys
  import opened Entries
  import opened Levels
  import opened Compaction
  import opened History
  import opened Engine
  import opened EngineInvariant
  import opened EngineFacts

  /** More history after the cut changes nothing before it. */
  lemma SamePrefix(h: seq<Write>, w: Write, n: nat)
    requires n <= |h|
    ensures (h + [w])[..n] == h[..n] && (h + [w])[n..] == h[n..] + [w]
  {
  }

  lemma AppendLogs(logs: seq<Log>, p: Process, h: seq<Write>, aux: Aux, w: Write)
    requires CutsInv(RetiringLog(p.bg), p.imm, p.writer, h, aux) && p.writer.Ready?
    requires Ascending(logs) && logs == Segments(RetiringLog(p.bg), p.imm, p.writer, p.logId, h, aux.logs, aux.levels,
        aux.mem)
    ensures var logs' := AppendedLogs(logs, p.logId, w);
            && logs' == Segments(RetiringLog(p.bg), p.imm, Appended(w), p.logId, h + [w], aux.logs, aux.levels, aux.mem)
            && Ascending(logs') && LogWrites(logs') == LogWrites(logs) + [w]
            && forall n :: LogsBelow(logs, n) ==> LogsBelow(logs', n)
  {
    hide LogWrites, AppendedLogs;
    assert logs != [] && logs[|logs| - 1] == Log(p.logId, h[aux.mem..]);
    AppendsToLast(logs, w);
    SamePrefix(h, w, aux.mem);
    assert (h + [w])[aux.logs..aux.levels] == h[aux.logs..aux.levels];
    assert (h + [w])[aux.levels..aux.mem] == h[aux.levels..aux.mem];
  }

  lemma AppendKeeps(s: State, s': State, w: Write)
    requires Inv(s) && Append(s, s', w)
    ensures Inv(s')
  {
    hide Segments, FrozenInv, LevelsInv, TableIdInv, FlushInv, OutputsOnDisk, OutputIds, WorkInv, LoadedInv,
         RetiringInv, ReadersInv, ObsoleteInv, GoodLevels, Covers, DurableIs, AppendedLogs, LogWrites, FilesOk,
         Ascending, LogsBelow;
    AppendLogs(s.disk.logs, s.phase.live, s.history, s.aux, w);
    SamePrefix(s.history, w, s.aux.logs);
    SamePrefix(s.history, w, s.aux.tables);
    SamePrefix(s.history, w, s.aux.levels);
    assert s'.history[s.aux.levels..s.aux.mem] == s.history[s.aux.levels..s.aux.mem];
    assert s'.history[s.aux.mem..|s'.history| - 1] == s.history[s.aux.mem..];
  }

  lemma InsertMemory(retiring: Option<nat>, imm: Option<Frozen>, writer: Writer, logId: nat, h: seq<Write>, aux: Aux,
      mem: Cells)
    requires writer.Appended? && CutsInv(retiring, imm, writer, h, aux) && mem == Replay(InMemory(writer, h, aux.mem))
    ensures CutsInv(retiring, imm, Ready, h, aux)
    ensures mem[writer.w.key := writer.w.cell] == Replay(InMemory(Ready, h, aux.mem))
    ensures Segments(retiring, imm, Ready, logId, h, aux.logs, aux.levels, aux.mem)
         == Segments(retiring, imm, writer, logId, h, aux.logs, aux.levels, aux.mem)
  {
    hide Replay;
    var m := aux.mem;
    assert h[m..] == h[m..|h| - 1] + [h[|h| - 1]];
    ReplayAppend(h[m..|h| - 1], h[|h| - 1]);
  }

  lemma InsertMemKeeps(s: State, s': State)
    requires Inv(s) && InsertMem(s, s')
    ensures Inv(s')
  {
    hide DiskInv, CutsInv, Segments, Replay, InMemory, FrozenInv, LevelsInv, TableIdInv, FlushInv, OutputsOnDisk,
         OutputIds, WorkInv, LoadedInv, RetiringInv, ReadersInv, ObsoleteInv, CounterInv, DurableInv, LogsBelow;
    assert CutsInv(RetiringLog(s.phase.live.bg), s.phase.live.imm, s.phase.live.writer, s.history, s.aux);
    var p := s.phase.live;
    InsertMemory(RetiringLog(p.bg), p.imm, p.writer, p.logId, s.history, s.aux, p.mem);
  }

  lemma L0Below(tables: map<nat, Table>, levels: LevelSet, n: nat)
    requires OnDisk(tables, levels) && FilesBelow(tables, n)
    ensures forall i :: 0 <= i < |At(levels, 0)| ==> levels[0][i].id < n
    ensures !NamesTable(levels, n)
  {
    forall i | 0 <= i < |At(levels, 0)| ensures levels[0][i].id < n {
      assert Member(levels, 0, levels[0][i]);
    }
  }

  lemma RotateLogs(retiring: Option<nat>, writer: Writer, logId: nat, h: seq<Write>, aux: Aux, imm: Frozen, next: nat)
    requires CutsInv(retiring, None, writer, h, aux) && writer.Ready? && imm.logId == logId
    ensures Segments(retiring, None, writer, logId, h, aux.logs, aux.levels, aux.mem) ==
      Segments(retiring, Some(imm), Rotating(next), logId, h, aux.logs, aux.levels, |h|)
  {
    assert h[aux.mem..|h|] == h[aux.mem..];
  }

  lemma RotateMemory(retiring: Option<nat>, writer: Writer, logId: nat, h: seq<Write>, aux: Aux, mem: Cells,
      imm: Frozen, next: nat)
    requires writer.Ready? && CutsInv(retiring, None, writer, h, aux) && mem == Replay(InMemory(writer, h, aux.mem))
        && mem != map[]
    requires imm.logId == logId && imm.cells == mem
    ensures CutsInv(retiring, Some(imm), Rotating(next), h, aux.(mem := |h|))
    ensures map[] == Replay(InMemory(Rotating(next), h, |h|)) && FrozenInv(Some(imm), h[aux.levels..|h|])
    ensures Segments(retiring, None, writer, logId, h, aux.logs, aux.levels, aux.mem) ==
      Segments(retiring, Some(imm), Rotating(next), logId, h, aux.logs, aux.levels, |h|)
  {
    hide Replay;
    assert h[|h|..] == [] && h[aux.mem..|h|] == h[aux.mem..];
    ReplayEmpty([]);
    RotateLogs(retiring, writer, logId, h, aux, imm, next);
  }

  /** Claiming two ids disturbs nothing that ids were measured against. */
  lemma RotateIds(d: Disk, p: Process, aux: Aux, imm: Frozen)
    requires p.imm.None? && imm.tableId == p.nextId && FilesBelow(d.tables, p.nextId)
    requires OnDisk(d.tables, p.levels) && OutputIds(p.levels, Outputs(p.bg), None, p.nextId)
    requires ObsoleteInv(p.obsolete, p.levels, aux.durable, Outputs(p.bg), None, p.nextId)
    requires RetiringInv(p.levels, None, p.bg, p.nextId)
    ensures TableIdInv(d.tables, p.levels, Some(imm), TableNamed(p.bg), p.nextId + 2)
    ensures OutputIds(p.levels, Outputs(p.bg), Some(imm), p.nextId + 2)
    ensures ObsoleteInv(p.obsolete, p.levels, aux.durable, Outputs(p.bg), Some(imm), p.nextId + 2)
    ensures RetiringInv(p.levels, Some(imm), p.bg, p.nextId + 2)
  {
    hide NamesTable, FreshIds;
    L0Below(d.tables, p.levels, p.nextId);
  }

  lemma RotateBeginKeeps(s: State, s': State)
    requires Inv(s) && RotateBegin(s, s')
    ensures Inv(s')
  {
    hide CutsInv, Segments, Replay, InMemory, FrozenInv, GoodLevels, Covers, DurableIs, OutputsOnDisk, OutputIds,
         TableIdInv, RetiringInv, ObsoleteInv, WorkInv, ReadersInv, LogWrites, Ascending, FilesOk, TableNamed,
         Outputs, Renamed;
    assert CutsInv(RetiringLog(s.phase.live.bg), s.phase.live.imm, s.phase.live.writer, s.history, s.aux);
    var p, imm := s.phase.live, s'.phase.live.imm.value;
    RotateMemory(RetiringLog(p.bg), p.writer, p.logId, s.history, s.aux, p.mem, imm, p.nextId + 1);
    RotateIds(s.disk, p, s.aux, imm);
  }

  lemma RotateEndKeeps(s: State, s': State)
    requires Inv(s) && RotateEnd(s, s')
    ensures Inv(s')
  {
    hide FrozenInv, LevelsInv, TableIdInv, OutputIds, WorkInv, LoadedInv, RetiringInv,
         ReadersInv, ObsoleteInv, GoodLevels, Covers, LogWrites;
    var h := s.history;
    assert h[s.aux.mem..] == [];
    var added := Log(s.phase.live.writer.logId, []);
    LogWritesConcat(s.disk.logs, [added]);
    OneLogWrites(added);
  }

  /** What a reader takes under the lock is the map at that moment. */
  lemma ProbeSnapshot(p: Process, h: seq<Write>, seen: seq<Write>, aux: Aux, k: Key)
    requires CutsInv(RetiringLog(p.bg), p.imm, p.writer, h, aux) && p.mem == Replay(InMemory(p.writer, h, aux.mem))
    requires FrozenInv(p.imm, h[aux.levels..aux.mem]) && Covers(p.levels, h[..aux.levels]) && p.current == p.levels
    requires seen == if p.writer.Appended? then h[..|h| - 1] else h
    ensures var imm := if p.imm.Some? then Some(p.imm.value.cells) else None;
            ReaderSays(Reader(p.mem, imm, p.current, seen), k) == Visible(Last(seen, k))
  {
    hide Last, Replay;
    assert seen[aux.mem..] == InMemory(p.writer, h, aux.mem);
    assert seen[..aux.levels] == h[..aux.levels] && seen[aux.levels..aux.mem] == h[aux.levels..aux.mem];
    ReplayIsLast(seen[aux.mem..], k);
    ReplayIsLast(seen[aux.levels..aux.mem], k);
    assert seen[..|seen|] == seen && seen[aux.mem..|seen|] == seen[aux.mem..];
    LastSplit(seen, aux.mem, |seen|, k);
    LastSplit(seen, aux.levels, aux.mem, k);
    if p.imm.None? {
      assert seen[aux.levels..aux.mem] == [];
      LastEmpty([], k);
    }
  }

  lemma ProbeKeeps(s: State, s': State, reader: nat)
    requires Inv(s) && Probe(s, s', reader)
    ensures Inv(s')
  {
    hide Segments, TableIdInv, FlushInv, OutputsOnDisk, OutputIds, WorkInv, LoadedInv, RetiringInv,
         ObsoleteInv, LogWrites, CounterInv, Last, LookLevels, UniqueIds, NewestFirst;
    var r := s'.phase.live.readers[reader];
    forall k ensures ReaderSays(r, k) == Visible(Last(r.seen, k)) {
      ProbeSnapshot(s.phase.live, s.history, SeenNow(s), s.aux, k);
    }
    assert ReaderOk(s.disk.tables, r);
  }

  lemma FinishKeeps(s: State, s': State, reader: nat)
    requires Inv(s) && Finish(s, s', reader)
    ensures Inv(s')
  {
    hide Segments, FrozenInv, LevelsInv, TableIdInv, FlushInv, OutputsOnDisk, OutputIds, WorkInv, LoadedInv,
         RetiringInv, ObsoleteInv, GoodLevels, Covers, LogWrites, FilesOk, ReaderOk, CounterInv;
  }

  lemma UnlinkReaders(tables: map<nat, Table>, readers: map<nat, Reader>, id: nat)
    requires ReadersInv(tables, readers)
    requires forall r :: r in readers ==> !NamesTable(readers[r].version, id)
    ensures ReadersInv(tables - {id}, readers)
  {
    forall r | r in readers ensures ReaderOk(tables - {id}, readers[r]) {
      RemoveOnDisk(tables, readers[r].version, id);
    }
  }

  lemma UnlinkKeeps(s: State, s': State, id: nat)
    requires Inv(s) && Unlink(s, s', id)
    ensures Inv(s')
  {
    hide Segments, FrozenInv, OutputIds, WorkInv, LoadedInv, RetiringInv, GoodLevels, Covers, LogWrites, NamesTable,
         OnDisk, LevelsOk, ReaderOk, ReadersInv, Ascending, DurableInv, CutsInv, Metas, Listing;
    var p := s.phase.live;
    RemoveOnDisk(s.disk.tables, p.levels, id);
    RemoveOnDisk(s.disk.tables, s.aux.durable, id);
    UnlinkReaders(s.disk.tables, p.readers, id);
  }
}
