/** File ids of the LSM engine: fresh at every claim, and what becomes of them past 32 bits. */
module EngineIds {
  import opened Words
  import opened Keys
  import opened Entries
  import opened Levels
  import opened Compaction
  import opened History
  import opened Engine
  import opened EngineInvariant
  import opened EngineFacts
  import opened EngineTheorems
  import opened EngineReopen
  import TableSizes

  // -- Freshness ----------------------------------------------------------------------------------

  /** The ids a step takes from the counter. */
  ghost function Claimed(s: State, step: Step): set<nat> {
    match step
    case DoRotateBegin => if s.phase.Up? then {s.phase.live.nextId, s.phase.live.nextId + 1} else {}
    case DoCompactWrite(_, _, _) => if s.phase.Up? then {s.phase.live.nextId} else {}
    case DoReplayLogs(_, blockSize) =>
      if s.phase.Replaying? && Willing(s, blockSize) && Replay(LogWrites(s.disk.logs)) != map[]
      then {PastLogs(s.phase.nextId, s.disk.logs)} else {}
    case DoOpenLog => if s.phase.RetiringLogs? then {s.phase.nextId} else {}
    case _ => {}
  }

  /** The counter, in the phases that have one. */
  function Counter(phase: Phase): nat {
    match phase
    case SweepingOrphans(_, nextId) => nextId
    case Replaying(_, nextId, _) => nextId
    case Rebuilding(_, _, nextId, _) => nextId
    case Migrating(_, nextId) => nextId
    case RetiringLogs(_, nextId, _) => nextId
    case Up(live) => live.nextId
    case _ => 0
  }

  /** Above every table, half-written table and log on disk, and every id the manifest names or has given out. */
  ghost predicate Unused(s: State, id: nat) {
    && FilesBelow(s.disk.tables, id) && FilesBelow(s.disk.temps, id) && LogsBelow(s.disk.logs, id)
    && IdsBelow(s.aux.durable, id)
    && (s.disk.manifest.Some? ==> s.disk.manifest.value.nextId <= id)
  }

  lemma DurableBelow(s: State, n: nat)
    requires Inv(s) && FilesBelow(s.disk.tables, n)
    ensures IdsBelow(s.aux.durable, n)
  {
    hide PhaseInv, Covers, GoodLevels, LogWrites, FilesOk, Metas;
    if s.disk.manifest.None? {
      AdoptedGood(s.disk.tables);
    }
    forall l, t | Member(s.aux.durable, l, t) ensures t.id < n {
      assert t.id in s.disk.tables;
    }
  }

  lemma UpUnused(s: State)
    requires Inv(s) && s.phase.Up?
    ensures Unused(s, s.phase.live.nextId) && Unused(s, s.phase.live.nextId + 1)
  {
    hide DiskInv, Covers, Segments, Replay, OutputsOnDisk, OutputIds, WorkInv, ReadersInv, ObsoleteInv, TableIdInv,
         FlushInv, FrozenInv, LevelsInv, DurableInv, LoadedInv, RetiringInv;
    DurableBelow(s, s.phase.live.nextId);
  }

  lemma RecoveringUnused(s: State)
    requires Inv(s) && (s.phase.Replaying? || s.phase.RetiringLogs?)
    ensures Unused(s, if s.phase.Replaying? then PastLogs(s.phase.nextId, s.disk.logs) else s.phase.nextId)
  {
    hide DiskInv, PastLogs;
    if s.phase.Replaying? {
      PastLogsFacts(s.phase.nextId, s.disk.logs);
      DurableBelow(s, PastLogs(s.phase.nextId, s.disk.logs));
    } else {
      DurableBelow(s, s.phase.nextId);
    }
  }

  /**
   * Every id claimed anywhere, by the writer, by a compaction outside the lock or by recovery, is
   * above every file on disk and every id ever recorded, and the counter then passes it.
   */
  lemma ClaimsAreFresh(states: seq<State>, steps: seq<Step>, i: nat, id: nat)
    requires Execution(states, steps) && i < |steps| && id in Claimed(states[i], steps[i])
    ensures Unused(states[i], id) && id < Counter(states[i + 1].phase)
  {
    hide Init, Inv, Unused, PastLogs, Replay, LogWrites, Listing, WriteTemp, CreateLog;
    RunInv(states, steps, i);
    assert Next(states[i], states[i + 1], steps[i]);
    ReplayEmpty(LogWrites(states[i].disk.logs));
    if states[i].phase.Up? {
      UpUnused(states[i]);
    } else {
      RecoveringUnused(states[i]);
    }
  }

  // -- Thirty-two bits --------------------------------------------------------------------------------

  /** The counter is 32 bits wide and its increments are not checked. */
  function NameOf(id: nat): nat {
    id % Word32
  }

  /** The logs a recovery finds: 0 is not a name it recognises. */
  function Listed(logs: seq<Log>): seq<Log> {
    if logs == [] then []
    else if NameOf(logs[0].id) == 0 then Listed(logs[1..])
    else [Log(NameOf(logs[0].id), logs[0].writes)] + Listed(logs[1..])
  }

  /** What is written of a manifest's counter. */
  function Recorded(m: Manifest): Manifest {
    m.(nextId := NameOf(m.nextId))
  }

  lemma {:induction false} ListedShorter(logs: seq<Log>)
    ensures |Listed(logs)| <= |logs|
  {
    if logs != [] {
      ListedShorter(logs[1..]);
    }
  }

  predicate LogsNamed(logs: seq<Log>) {
    forall i :: 0 <= i < |logs| ==> 1 <= logs[i].id < Word32
  }

  lemma NamedEach(logs: seq<Log>)
    requires logs != []
    ensures LogsNamed(logs) <==> 1 <= logs[0].id < Word32 && LogsNamed(logs[1..])
  {
    assert logs == [logs[0]] + logs[1..];
  }

  /** Recovery finds every log under its own id exactly when every id fits. */
  lemma {:induction false} ListedExactly(logs: seq<Log>)
    ensures Listed(logs) == logs <==> LogsNamed(logs)
  {
    if logs != [] {
      NamedEach(logs);
      ListedExactly(logs[1..]);
      ListedShorter(logs[1..]);
      hide LogsNamed;
      var head, rest := logs[0], Listed(logs[1..]);
      assert logs == [head] + logs[1..];
      if NameOf(head.id) != 0 {
        assert Listed(logs) == [Log(NameOf(head.id), head.writes)] + rest;
        assert Listed(logs)[0].id == NameOf(head.id) && Listed(logs)[1..] == rest;
      }
    }
  }

  lemma {:induction false} ListedConcat(a: seq<Log>, b: seq<Log>)
    ensures Listed(a + b) == Listed(a) + Listed(b)
  {
    if a == [] {
      assert a + b == b;
    } else {
      assert (a + b)[1..] == a[1..] + b;
      ListedConcat(a[1..], b);
    }
  }

  // -- Ids that stay short of the last one ----------------------------------------------------------------

  /** An id with another after it. */
  predicate Fits(id: nat) {
    1 <= id < LastId
  }

  /** A counter that has not wrapped. */
  predicate CounterFits(n: nat) {
    1 <= n <= LastId
  }

  predicate LogsFit(logs: seq<Log>) {
    forall i :: 0 <= i < |logs| ==> Fits(logs[i].id)
  }

  predicate FilesFit(files: map<nat, Table>) {
    forall id :: id in files ==> Fits(id)
  }

  predicate DiskFits(d: Disk) {
    && FilesFit(d.tables) && FilesFit(d.temps) && LogsFit(d.logs)
    && (d.manifest.Some? ==> CounterFits(d.manifest.value.nextId))
  }

  /** Ids and counters a running process has claimed and not yet put on disk. */
  predicate LiveFits(p: Process) {
    && CounterFits(p.nextId)
    && (p.writer.Rotating? ==> Fits(p.writer.logId))
    && (p.imm.Some? ==> Fits(p.imm.value.tableId))
    && (p.bg.Flushing? ==> Fits(p.bg.table.id) && CounterFits(p.bg.nextId))
    && (p.bg.CompactCommitting? ==> CounterFits(p.bg.nextId))
  }

  predicate PhaseFits(phase: Phase) {
    match phase
    case SweepingOrphans(_, nextId) => CounterFits(nextId)
    case Replaying(_, nextId, _) => CounterFits(nextId)
    case Rebuilding(_, _, nextId, table) => CounterFits(nextId) && Fits(table.id)
    case Migrating(_, nextId) => CounterFits(nextId)
    case RetiringLogs(_, nextId, _) => CounterFits(nextId)
    case Up(p) => LiveFits(p)
    case _ => true
  }

  predicate IdsFit(s: State) {
    DiskFits(s.disk) && PhaseFits(s.phase)
  }

  lemma {:induction false} AppendFits(logs: seq<Log>, id: nat, w: Write)
    requires LogsFit(logs)
    ensures LogsFit(AppendedLogs(logs, id, w))
  {
    if logs != [] {
      AppendFits(logs[1..], id, w);
    }
  }

  lemma {:induction false} RemoveFits(logs: seq<Log>, id: nat)
    requires LogsFit(logs)
    ensures LogsFit(WithoutLog(logs, id))
  {
    if logs != [] {
      RemoveFits(logs[1..], id);
    }
  }

  lemma {:induction false} PastLogsFits(n: nat, logs: seq<Log>)
    requires CounterFits(n) && LogsFit(logs)
    ensures CounterFits(PastLogs(n, logs))
  {
    if logs != [] {
      PastLogsFits(n, logs[..|logs| - 1]);
    }
  }

  predicate Flushes(step: Step) {
    || step.DoFlushBegin? || step.DoFlushWrite? || step.DoFlushRename? || step.DoFlushCommit? || step.DoFlushInstall?
    || step.DoFlushRetire?
  }

  predicate Compacts(step: Step) {
    || step.DoCompactBegin? || step.DoCompactWrite? || step.DoCompactWritten? || step.DoCompactRename?
       || step.DoCompactLoad?
    || step.DoCompactCommit? || step.DoCompactSwap? || step.DoCompactRetire?
  }

  lemma FlushFits(s: State, s': State, step: Step)
    requires IdsFit(s) && Next(s, s', step) && Flushes(step)
    ensures IdsFit(s')
  {
    hide WithoutLog, PushL0, Listing, NamesTable, LogWrites, Metas, LevelsOk, TablesOk, TableSizes.Buildable,
         LogsFit, Fits, CounterFits;
    if step.DoFlushRetire? {
      RemoveFits(s.disk.logs, s.phase.live.bg.logId);
    }
  }

  lemma CompactFits(s: State, s': State, step: Step)
    requires IdsFit(s) && Next(s, s', step) && Compacts(step) && (forall id :: id in Claimed(s, step) ==> id < LastId)
    ensures IdsFit(s')
  {
    hide LogsFit, Install, Pick, Surviving, SetPointer, Retired, NamesTable, Metas, LevelsOk, TablesOk,
         TableSizes.Buildable;
    if step.DoCompactWrite? {
      assert s.phase.live.nextId in Claimed(s, step);
    }
  }

  lemma WriterFits(s: State, s': State, step: Step)
    requires IdsFit(s) && Next(s, s', step) && (forall id :: id in Claimed(s, step) ==> id < LastId)
    requires s.phase.Up? && !Flushes(step) && !Compacts(step)
    ensures IdsFit(s')
  {
    hide AppendedLogs, Listing, Retired, NamesTable, SeenNow, Replay, LogWrites,
         PastLogs, Metas, LevelsOk, TablesOk, Openable, OpenLevels, Orphan, Adopted, Replayed, Acceptable;
    if step.DoAppend? {
      AppendFits(s.disk.logs, s.phase.live.logId, step.w);
    } else if step.DoRotateBegin? {
      assert s.phase.live.nextId in Claimed(s, step);
      assert s.phase.live.nextId + 1 in Claimed(s, step);
    }
  }

  lemma OpeningFits(s: State, s': State)
    requires IdsFit(s) && OpenTables(s, s')
    ensures IdsFit(s')
  {
    hide LogsFit, Openable, OpenLevels, Adopted, Readable, LastTableTaken;
    var ids := s.disk.tables.Keys;
    if ids != {} {
      assert Highest(ids) in s.disk.tables;
    }
  }

  lemma ReplayFitsIds(s: State, s': State, size: nat, blockSize: nat)
    requires IdsFit(s) && ReplayLogs(s, s', size, blockSize)
    requires forall id :: id in Claimed(s, DoReplayLogs(size, blockSize)) ==> id < LastId
    ensures IdsFit(s')
  {
    hide LogsFit, PastLogs, Replay, LogWrites, LastLogTaken, Listing, TableSizes.TooLarge, TableSizes.Cut;
    PastLogsFits(s.phase.nextId, s.disk.logs);
    ReplayEmpty(LogWrites(s.disk.logs));
    if s'.phase.Rebuilding? {
      assert PastLogs(s.phase.nextId, s.disk.logs) in Claimed(s, DoReplayLogs(size, blockSize));
    }
  }

  lemma RecoveryFits(s: State, s': State, step: Step)
    requires IdsFit(s) && Next(s, s', step) && (forall id :: id in Claimed(s, step) ==> id < LastId)
    requires !s.phase.Up?
    ensures IdsFit(s')
  {
    hide OpenTables, ReplayLogs, WithoutLog, PushL0, Listing, NamesTable, Replay, LogWrites, PastLogs, Metas, Orphan,
         Adopted;
    if step.DoOpenTables? {
      OpeningFits(s, s');
    } else if step.DoReplayLogs? {
      ReplayFitsIds(s, s', step.size, step.blockSize);
    } else if step.DoRetireLog? {
      RemoveFits(s.disk.logs, s.phase.ids[0]);
    } else if step.DoOpenLog? {
      assert s.phase.nextId in Claimed(s, step);
    }
  }

  /** No id up to state i was the last one or beyond, and none was 0. */
  ghost predicate ShortOfLast(states: seq<State>, steps: seq<Step>, i: nat)
    requires i <= |steps| <= |states| && states != []
  {
    && FilesFit(states[0].disk.tables) && FilesFit(states[0].disk.temps) && LogsFit(states[0].disk.logs)
    && forall q, id :: 0 <= q < i && id in Claimed(states[q], steps[q]) ==> id < LastId
  }

  lemma {:induction false} IdsStayFit(states: seq<State>, steps: seq<Step>, i: nat)
    requires Execution(states, steps) && i < |states| && ShortOfLast(states, steps, i)
    ensures IdsFit(states[i])
  {
    hide Next, Claimed;
    if i > 0 {
      IdsStayFit(states, steps, i - 1);
      hide IdsFit;
      assert Next(states[i - 1], states[i], steps[i - 1]);
      if Flushes(steps[i - 1]) {
        FlushFits(states[i - 1], states[i], steps[i - 1]);
      } else if Compacts(steps[i - 1]) {
        CompactFits(states[i - 1], states[i], steps[i - 1]);
      } else if states[i - 1].phase.Up? {
        WriterFits(states[i - 1], states[i], steps[i - 1]);
      } else {
        RecoveryFits(states[i - 1], states[i], steps[i - 1]);
      }
    }
  }

  /**
   * As long as every id claimed leaves one after it, a recovery finds every log under its own id and
   * refuses none of them, and what is recorded of every counter is the counter itself and never 0.
   */
  lemma NamesAreIds(states: seq<State>, steps: seq<Step>, i: nat)
    requires Execution(states, steps) && i < |states| && ShortOfLast(states, steps, i)
    ensures Listed(states[i].disk.logs) == states[i].disk.logs && !LastLogTaken(states[i].disk.logs)
    ensures !LastTableTaken(states[i].disk.tables)
    ensures states[i].disk.manifest.Some? ==>
      Recorded(states[i].disk.manifest.value) == states[i].disk.manifest.value
          && states[i].disk.manifest.value.nextId != 0
    ensures states[i].phase != Refused(IdsExhausted)
  {
    hide Execution, ShortOfLast, DiskInv;
    IdsStayFit(states, steps, i);
    RunInv(states, steps, i);
    ListedExactly(states[i].disk.logs);
  }

  /**
   * With ids to spare and no manifest over the limit, a store of any run that is down opens again
   * exactly when the logged writes fit one table, and a table too large is the only refusal.
   */
  lemma RunReopens(states: seq<State>, steps: seq<Step>, i: nat, blockSize: nat)
    requires Execution(states, steps) && i < |states| && ShortOfLast(states, steps, i) && blockSize > 0
    requires states[i].disk.manifest.Some? ==> Readable(states[i].disk.manifest.value)
    ensures states[i].phase.Refused? ==> states[i].phase.why.TableTooLarge?
    ensures states[i].phase.Down? ==>
      (Reopens(states[i], blockSize) <==> ReplayFits(states[i].disk.logs, blockSize))
  {
    hide Execution, ShortOfLast, DiskInv, Reopens, ReplayFits, LastLogTaken, LastTableTaken;
    NamesAreIds(states, steps, i);
    RunInv(states, steps, i);
    if states[i].phase.Down? {
      ReopensExactlyWhen(states[i], blockSize);
    }
  }

  // -- At and past the last id ---------------------------------------------------------------------------------

  lemma RotatedAscending(s: State)
    requires Inv(s) && s.phase.Up? && s.phase.live.writer.Rotating?
    ensures Ascending(s.disk.logs + [Log(s.phase.live.writer.logId, [])])
  {
    hide Covers, Segments, Replay, OutputsOnDisk, OutputIds, WorkInv, ReadersInv, ObsoleteInv, TableIdInv, FlushInv,
         CutsInv, FrozenInv, LevelsInv, DurableInv, LoadedInv, RetiringInv, CounterInv, GoodLevels, DurableIs,
         LogWrites, FilesOk;
  }

  /** The first write after a rotation, acknowledged: where it is. */
  lemma WriteAfterRotation(s0: State, s1: State, s2: State, s3: State, w: Write)
    requires Inv(s0) && s0.phase.Up? && s0.phase.live.writer.Rotating?
    requires RotateEnd(s0, s1) && Append(s1, s2, w) && InsertMem(s2, s3)
    ensures s3.history == s0.history + [w]
    ensures s3.disk.logs == s0.disk.logs + [Log(s0.phase.live.writer.logId, [w])]
  {
    var id, logs := s0.phase.live.writer.logId, s0.disk.logs;
    RotatedAscending(s0);
    AppendsToLast(logs + [Log(id, [])], w);
    assert (logs + [Log(id, [])])[..|logs|] == logs;
    hide Inv, AppendedLogs, LogWrites;
    assert [] + [w] == [w];
  }

  /**
   * A rotation whose new log's id wraps to 0 loses what it is told next: the write is acknowledged,
   * and no recovery will find it in a log.
   */
  lemma WrappedLogIsLost(s0: State, s1: State, s2: State, s3: State, w: Write)
    requires Inv(s0) && s0.phase.Up? && s0.phase.live.writer.Rotating? && NameOf(s0.phase.live.writer.logId) == 0
    requires RotateEnd(s0, s1) && Append(s1, s2, w) && InsertMem(s2, s3)
    ensures s3.history == s0.history + [w] && Listed(s3.disk.logs) == Listed(s0.disk.logs)
  {
    hide Inv, RotateEnd, Append, InsertMem;
    var id, logs := s0.phase.live.writer.logId, s0.disk.logs;
    WriteAfterRotation(s0, s1, s2, s3, w);
    ListedConcat(logs, [Log(id, [w])]);
    assert [Log(id, [w])][1..] == [];
    assert Listed(logs) + [] == Listed(logs);
  }

  /**
   * A rotation onto the last id of all locks out what it is told next: the write is acknowledged, and
   * after a crash the store never opens again.
   */
  lemma LastLogLocksOut(s0: State, s1: State, s2: State, s3: State, s4: State, w: Write, blockSize: nat)
    requires Inv(s0) && s0.phase.Up? && s0.phase.live.writer.Rotating? && s0.phase.live.writer.logId == LastId
    requires RotateEnd(s0, s1) && Append(s1, s2, w) && InsertMem(s2, s3) && Crash(s3, s4)
    ensures s4.history == s0.history + [w] && !Reopens(s4, blockSize)
  {
    hide Inv, Reopens, RotateEnd, Append, InsertMem;
    WriteAfterRotation(s0, s1, s2, s3, w);
    NextKeeps(s0, s1, DoRotateEnd);
    NextKeeps(s1, s2, DoAppend(w));
    NextKeeps(s2, s3, DoInsertMem);
    NextKeeps(s3, s4, DoCrash);
    assert s4.disk.logs[|s0.disk.logs|].id == LastId;
    ReopensExactlyWhen(s4, blockSize);
  }

  /** A counter that wraps to 0 and is then committed condemns the manifest: no table it names is below 0. */
  lemma WrappedCounterRefused(s: State, s': State)
    requires FlushCommit(s, s') && NameOf(s.phase.live.bg.nextId) == 0
    ensures !Openable(s'.disk, Recorded(s'.disk.manifest.value))
  {
    hide Metas, Readable;
    var m := Recorded(s'.disk.manifest.value);
    assert m.levels == Metas(PushL0(s.phase.live.bg.base, s.phase.live.bg.table));
    assert |m.levels| > 0 && |m.levels[0]| > 0;
    assert !MetaMatches(s'.disk, m.levels[0][0], m.nextId);
  }
}
