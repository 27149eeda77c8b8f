/** What holds in every reachable state of the engine. */
module EngineInvariant {
  import opened Keys
  import opened Entries
  import opened Levels
  import opened Compaction
  import opened History
  import opened Engine
  import TableSizes

  /** The tables tell a reader exactly what these writes would. */
  ghost predicate Covers(levels: LevelSet, h: seq<Write>) {
    forall k :: Visible(LookLevels(levels, k)) == Visible(Last(h, k))
  }

  ghost predicate GoodLevels(levels: LevelSet) {
    LevelsOk(levels) && UniqueIds(levels) && NewestFirst(At(levels, 0))
  }

  ghost predicate OnDisk(files: map<nat, Table>, levels: LevelSet) {
    forall l, t :: Member(levels, l, t) ==> t.id in files && files[t.id] == t
  }

  ghost predicate IdsBelow(levels: LevelSet, n: nat) {
    forall l, t :: Member(levels, l, t) ==> t.id < n
  }

  predicate FilesOk(files: map<nat, Table>) {
    forall i :: i in files ==> files[i].id == i && TableOk(files[i])
  }

  predicate FilesBelow(files: map<nat, Table>, n: nat) {
    forall i :: i in files ==> i < n
  }

  predicate Ascending(logs: seq<Log>) {
    forall i, j :: 0 <= i < j < |logs| ==> logs[i].id < logs[j].id
  }

  predicate LogsBelow(logs: seq<Log>, n: nat) {
    forall i :: 0 <= i < |logs| ==> logs[i].id < n
  }

  /** The level set a recovery would open from this disk. */
  ghost predicate DurableIs(tables: map<nat, Table>, manifest: Option<Manifest>, levels: LevelSet) {
    match manifest
    case None => levels == Adopted(tables)
    case Some(m) => m.levels == Metas(levels) && OnDisk(tables, levels) && IdsBelow(levels, m.nextId)
  }

  /** The disk alone determines every write: the tables cover a prefix of the history, the logs hold
      a suffix, and the two overlap or meet. */
  ghost predicate DiskInv(d: Disk, h: seq<Write>, aux: Aux) {
    && FilesOk(d.tables) && FilesOk(d.temps)
    && Ascending(d.logs)
    && aux.logs <= aux.tables <= |h|
    && LogWrites(d.logs) == h[aux.logs..]
    && GoodLevels(aux.durable) && DurableIs(d.tables, d.manifest, aux.durable)
    && Covers(aux.durable, h[..aux.tables])
  }

  // -- A running process -----------------------------------------------------------------------

  /** The log of a memtable that has become a table, until it is removed. */
  function RetiringLog(bg: Background): Option<nat> {
    if bg.FlushRetiring? then Some(bg.logId) else None
  }

  /** One log per memtable, cut where the memtables are cut. */
  function Segments(retiring: Option<nat>, imm: Option<Frozen>, writer: Writer, logId: nat, h: seq<Write>, a: nat,
      b: nat, c: nat): seq<Log>
    requires a <= b <= c <= |h|
  {
    (if retiring.Some? then [Log(retiring.value, h[a..b])] else [])
    + (if imm.Some? then [Log(imm.value.logId, h[b..c])] else [])
    + (if writer.Rotating? then [] else [Log(logId, h[c..])])
  }

  /** The cuts in the history. */
  predicate CutsInv(retiring: Option<nat>, imm: Option<Frozen>, writer: Writer, h: seq<Write>, aux: Aux) {
    && aux.logs <= aux.levels <= aux.mem <= |h|
    && (retiring.None? ==> aux.logs == aux.levels)
    && (imm.None? ==> aux.levels == aux.mem)
    && (writer.Rotating? ==> aux.mem == |h|)
    && (writer.Appended? ==> aux.mem < |h| && h[|h| - 1] == writer.w)
  }

  function InMemory(writer: Writer, h: seq<Write>, cut: nat): seq<Write>
    requires cut <= |h|
  {
    if writer.Appended? && |h| > cut then h[cut..|h| - 1] else h[cut..]
  }

  ghost predicate FrozenInv(imm: Option<Frozen>, segment: seq<Write>) {
    imm.Some? ==> imm.value.cells == Replay(segment) && imm.value.cells != map[]
  }

  ghost predicate LevelsInv(tables: map<nat, Table>, levels: LevelSet, current: LevelSet, prefix: seq<Write>) {
    current == levels && GoodLevels(levels) && OnDisk(tables, levels) && Covers(levels, prefix)
  }

  /** The counter is past every file. */
  ghost predicate CounterInv(tables: map<nat, Table>, temps: map<nat, Table>, manifest: Option<Manifest>, nextId: nat) {
    && manifest.Some? && manifest.value.nextId <= nextId
    && FilesBelow(tables, nextId) && FilesBelow(temps, nextId)
  }

  predicate RotatingInv(logs: seq<Log>, writer: Writer, nextId: nat) {
    writer.Rotating? ==> writer.logId < nextId && LogsBelow(logs, writer.logId)
  }

  /** Has the frozen memtable's table got its final name yet? */
  predicate TableNamed(bg: Background) {
    bg.FlushCommitted? || (bg.Flushing? && bg.stage.Committing?)
  }

  ghost predicate TableIdInv(tables: map<nat, Table>, levels: LevelSet, imm: Option<Frozen>, named: bool, nextId: nat) {
    imm.Some? ==>
      && imm.value.tableId < nextId
      && (forall i :: 0 <= i < |At(levels, 0)| ==> levels[0][i].id < imm.value.tableId)
      && !NamesTable(levels, imm.value.tableId)
      && (!named ==> imm.value.tableId !in tables)
  }

  // -- The background thread --------------------------------------------------------------------

  ghost predicate FlushInv(tables: map<nat, Table>, temps: map<nat, Table>, levels: LevelSet, imm: Option<Frozen>,
      bg: Background, nextId: nat) {
    bg.Flushing? ==>
      && imm.Some?
      && bg.table.id == imm.value.tableId && bg.table.run == Listing(imm.value.cells)
      && bg.base == levels && bg.nextId == nextId
      && (bg.stage.Renaming? ==> bg.table.id in temps && temps[bg.table.id] == bg.table)
      && (bg.stage.Committing? ==> bg.table.id in tables && tables[bg.table.id] == bg.table)
  }

  /** The outputs a compaction has written so far. */
  function Outputs(bg: Background): seq<Table> {
    match bg
    case Merging(_, _, outs) => outs
    case Installing(_, outs, _) => outs
    case CompactCommitting(_, outs, _) => outs
    case CompactCommitted(_, outs) => outs
    case _ => []
  }

  /** How many of them have their final names. */
  function Renamed(bg: Background): nat {
    match bg
    case Installing(_, _, renamed) => renamed
    case CompactCommitting(_, outs, _) => |outs|
    case CompactCommitted(_, outs) => |outs|
    case _ => 0
  }

  ghost predicate OutputsOnDisk(tables: map<nat, Table>, temps: map<nat, Table>, outs: seq<Table>, renamed: nat) {
    && renamed <= |outs|
    && (forall i :: 0 <= i < renamed ==> outs[i].id in tables && tables[outs[i].id] == outs[i])
    && (forall i :: renamed <= i < |outs| ==>
       outs[i].id in temps && temps[outs[i].id] == outs[i] && outs[i].id !in tables)
  }

  ghost predicate OutputIds(levels: LevelSet, outs: seq<Table>, imm: Option<Frozen>, nextId: nat) {
    && FreshIds(levels, outs)
    && (forall i :: 0 <= i < |outs| ==> outs[i].id < nextId && (imm.Some? ==> outs[i].id != imm.value.tableId))
  }

  ghost predicate WrittenSoFar(work: Work, outs: seq<Table>, rest: Run) {
    (forall i :: 0 <= i < |outs| ==> outs[i].run != []) && Concat(outs) + rest == Surviving(work)
  }

  ghost predicate WorkInv(levels: LevelSet, bg: Background) {
    && (bg.Merging? ==> WorkOk(levels, bg.work) && WrittenSoFar(bg.work, bg.outs, bg.rest))
    && (bg.Installing? ==> WorkOk(levels, bg.work) && OutputsOf(bg.work, bg.outs))
    && (bg.CompactCommitting? ==> WorkOk(levels, bg.work) && OutputsOf(bg.work, bg.outs))
    && (bg.CompactCommitted? ==> WorkOk(levels, bg.work) && OutputsOf(bg.work, bg.outs))
  }

  /** The counter as loaded for the manifest is past everything the manifest will name. */
  ghost predicate LoadedInv(levels: LevelSet, bg: Background, nextId: nat) {
    bg.CompactCommitting? ==>
      && bg.nextId <= nextId && IdsBelow(levels, bg.nextId)
      && (forall i :: 0 <= i < |bg.outs| ==> bg.outs[i].id < bg.nextId)
  }

  ghost predicate Unreferenced(ids: set<nat>, levels: LevelSet, imm: Option<Frozen>, nextId: nat) {
    forall id :: id in ids ==> id < nextId && !NamesTable(levels, id) && (imm.Some? ==> imm.value.tableId != id)
  }

  ghost predicate RetiringInv(levels: LevelSet, imm: Option<Frozen>, bg: Background, nextId: nat) {
    bg.CompactRetiring? ==> Unreferenced(Retired(bg.work), levels, imm, nextId)
  }

  /** What is committed against what readers are being shown. */
  ghost predicate DurableInv(levels: LevelSet, imm: Option<Frozen>, bg: Background, aux: Aux) {
    match bg
    case FlushCommitted(built) =>
      imm.Some? && aux.durable == built && aux.tables == aux.mem
    case CompactCommitted(work, outs) =>
      && LevelsOk(levels) && TablesOk(outs)
      && aux.durable == Install(levels, work, outs) && aux.tables == aux.levels
    case _ =>
      aux.durable == levels && aux.tables == aux.levels
  }

  // -- Readers and retired files -------------------------------------------------------------------

  function ImmGet(imm: Option<Cells>, k: Key): Option<Cell> {
    if imm.Some? then Get(imm.value, k) else None
  }

  /** What a reader will answer about a key from what it holds. */
  ghost function ReaderSays(r: Reader, k: Key): Option<Value> {
    Visible(Or(Get(r.mem, k), Or(ImmGet(r.imm, k), LookLevels(r.version, k))))
  }

  ghost predicate ReaderOk(tables: map<nat, Table>, r: Reader) {
    && LevelsOk(r.version) && OnDisk(tables, r.version)
    && forall k :: ReaderSays(r, k) == Visible(Last(r.seen, k))
  }

  ghost predicate ReadersInv(tables: map<nat, Table>, readers: map<nat, Reader>) {
    forall i :: i in readers ==> ReaderOk(tables, readers[i])
  }

  /** A retired file is named by nothing that will be read or recovered from. */
  ghost predicate ObsoleteInv(obsolete: set<nat>, levels: LevelSet, durable: LevelSet, outs: seq<Table>,
      imm: Option<Frozen>, nextId: nat) {
    && Unreferenced(obsolete, levels, imm, nextId)
    && (forall id :: id in obsolete ==> !NamesTable(durable, id))
    && (forall i :: 0 <= i < |outs| ==> outs[i].id !in obsolete)
  }

  ghost predicate UpInv(d: Disk, p: Process, h: seq<Write>, aux: Aux) {
    && CutsInv(RetiringLog(p.bg), p.imm, p.writer, h, aux)
    && d.logs == Segments(RetiringLog(p.bg), p.imm, p.writer, p.logId, h, aux.logs, aux.levels, aux.mem)
    && p.mem == Replay(InMemory(p.writer, h, aux.mem))
    && FrozenInv(p.imm, h[aux.levels..aux.mem])
    && LevelsInv(d.tables, p.levels, p.current, h[..aux.levels])
    && CounterInv(d.tables, d.temps, d.manifest, p.nextId)
    && LogsBelow(d.logs, p.nextId)
    && RotatingInv(d.logs, p.writer, p.nextId)
    && TableIdInv(d.tables, p.levels, p.imm, TableNamed(p.bg), p.nextId)
    && FlushInv(d.tables, d.temps, p.levels, p.imm, p.bg, p.nextId)
    && OutputsOnDisk(d.tables, d.temps, Outputs(p.bg), Renamed(p.bg))
    && OutputIds(p.levels, Outputs(p.bg), p.imm, p.nextId)
    && WorkInv(p.levels, p.bg)
    && LoadedInv(p.levels, p.bg, p.nextId)
    && RetiringInv(p.levels, p.imm, p.bg, p.nextId)
    && DurableInv(p.levels, p.imm, p.bg, aux)
    && ReadersInv(d.tables, p.readers)
    && ObsoleteInv(p.obsolete, p.levels, aux.durable, Outputs(p.bg), p.imm, p.nextId)
  }

  // -- Recovery ----------------------------------------------------------------------------------------

  ghost predicate ReplayingInv(d: Disk, levels: LevelSet, nextId: nat, hadManifest: bool, aux: Aux) {
    && d.temps == map[] && levels == aux.durable && hadManifest == d.manifest.Some?
    && (hadManifest ==> d.manifest.value.nextId <= nextId)
    && FilesBelow(d.tables, nextId)
  }

  ghost predicate RebuildingInv(d: Disk, stage: Stage, levels: LevelSet, nextId: nat, table: Table, h: seq<Write>,
      aux: Aux) {
    && GoodLevels(levels) && TableOk(table)
    && table.id < nextId && LogsBelow(d.logs, nextId)
    && (d.manifest.Some? ==> d.manifest.value.nextId <= nextId)
    && (!stage.Committing? ==>
          && levels == aux.durable && FilesBelow(d.tables, table.id)
          && table.run == Listing(Replay(LogWrites(d.logs))))
    && (stage.Writing? ==> d.temps == map[])
    && (stage.Renaming? ==> d.temps == map[table.id := table])
    && (stage.Committing? ==>
          && d.temps == map[] && FilesBelow(d.tables, nextId)
          && var built := PushL0(levels, table);
             GoodLevels(built) && OnDisk(d.tables, built) && Covers(built, h))
  }

  ghost predicate RetiringLogsInv(d: Disk, levels: LevelSet, nextId: nat, ids: seq<nat>, h: seq<Write>, aux: Aux) {
    && d.temps == map[] && d.manifest.Some? && d.manifest.value.nextId <= nextId
    && levels == aux.durable && aux.tables == |h|
    && FilesBelow(d.tables, nextId) && LogsBelow(d.logs, nextId)
    && ids == LogIds(d.logs)
  }

  /** What the disk must be like for recovery to have given up. Damage is never the reason. */
  ghost predicate RefusedInv(d: Disk, why: Refusal) {
    match why
    case Damaged => false
    case ManifestTooLarge => d.manifest.Some? && !Readable(d.manifest.value)
    case IdsExhausted => LastLogTaken(d.logs) || (d.manifest.None? && LastTableTaken(d.tables))
    case TableTooLarge(blockSize) =>
      LogWrites(d.logs) != [] && !TableSizes.Buildable(Listing(Replay(LogWrites(d.logs))), blockSize)
  }

  ghost predicate PhaseInv(d: Disk, phase: Phase, h: seq<Write>, aux: Aux) {
    match phase
    case Down => true
    case SweepingTemps => true
    case SweepingOrphans(levels, nextId) =>
      d.temps == map[] && d.manifest.Some? && levels == aux.durable && nextId == d.manifest.value.nextId
    case Replaying(levels, nextId, hadManifest) => ReplayingInv(d, levels, nextId, hadManifest, aux)
    case Rebuilding(stage, levels, nextId, table) => RebuildingInv(d, stage, levels, nextId, table, h, aux)
    case Migrating(levels, nextId) =>
      && ReplayingInv(d, levels, nextId, false, aux) && LogsBelow(d.logs, nextId)
      && aux.logs == |h|
    case RetiringLogs(levels, nextId, ids) => RetiringLogsInv(d, levels, nextId, ids, h, aux)
    case Up(p) => UpInv(d, p, h, aux)
    case Refused(why) => RefusedInv(d, why)
  }

  ghost predicate Inv(s: State) {
    && (forall i :: 0 <= i < |s.history| ==> Acceptable(s.history[i]))
    && DiskInv(s.disk, s.history, s.aux)
    && PhaseInv(s.disk, s.phase, s.history, s.aux)
  }
}
