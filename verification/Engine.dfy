/** The LSM engine as a step system. Each locked region is one step, and each directory operation
    done with the lock released is a step of its own, so that every interleaving of one writer,
    one background thread, any number of readers and a crash after any step is a run. */
module Engine {
  import opened Keys
  import opened Entries
  import opened Levels
  import opened Compaction
  import opened History
  import opened Words
  import Records
  import TableSizes

  // -- The disk ---------------------------------------------------------------------------

  datatype Log = Log(id: nat, writes: seq<Write>)

  /** A table's line in the manifest. */
  datatype Meta = Meta(id: nat, size: nat, count: nat, minKey: Key, maxKey: Key)

  datatype Manifest = Manifest(nextId: nat, levels: seq<seq<Meta>>)

  /** Table files and half-written table files by id, logs in ascending id order. */
  datatype Disk = Disk(tables: map<nat, Table>, temps: map<nat, Table>, logs: seq<Log>, manifest: Option<Manifest>)

  function MetaOf(t: Table): Meta {
    if t.run == [] then Meta(t.id, t.size, 0, [], []) else Meta(t.id, t.size, |t.run|, MinKey(t), MaxKey(t))
  }

  function LevelMetas(ts: seq<Table>): (r: seq<Meta>)
    ensures |r| == |ts|
    ensures forall i :: 0 <= i < |ts| ==> r[i] == MetaOf(ts[i])
  {
    seq(|ts|, i requires 0 <= i < |ts| => MetaOf(ts[i]))
  }

  /** The manifest's view of a level set, computed from the tables alone. */
  function Metas(levels: LevelSet): (r: seq<seq<Meta>>)
    ensures |r| == |levels|
    ensures forall l :: 0 <= l < |levels| ==> r[l] == LevelMetas(levels[l])
  {
    seq(|levels|, l requires 0 <= l < |levels| => LevelMetas(levels[l]))
  }

  /** The bytes of tables number i on in one level of a manifest. */
  function TablesSize(level: seq<Meta>, i: nat): nat
    requires i <= |level|
    decreases |level| - i
  {
    if i == |level| then 0 else 28 + |level[i].minKey| + |level[i].maxKey| + TablesSize(level, i + 1)
  }

  function LevelsSize(levels: seq<seq<Meta>>, i: nat): nat
    requires i <= |levels|
    decreases |levels| - i
  {
    if i == |levels| then 0 else 4 + TablesSize(levels[i], 0) + LevelsSize(levels, i + 1)
  }

  /** The length of a manifest's file. */
  function ManifestSize(m: Manifest): nat {
    20 + LevelsSize(m.levels, 0)
  }

  /** A longer manifest is not read. None is refused when it is written. */
  const MaxManifestSize: nat := 0x400_0000

  predicate Readable(m: Manifest) {
    ManifestSize(m) <= MaxManifestSize
  }

  function WriteTemp(d: Disk, t: Table): Disk {
    d.(temps := d.temps[t.id := t])
  }

  function RenameTemp(d: Disk, id: nat): Disk
    requires id in d.temps
  {
    d.(tables := d.tables[id := d.temps[id]], temps := d.temps - {id})
  }

  function CommitManifest(d: Disk, levels: LevelSet, nextId: nat): Disk {
    d.(manifest := Some(Manifest(nextId, Metas(levels))))
  }

  function RemoveTable(d: Disk, id: nat): Disk {
    d.(tables := d.tables - {id})
  }

  function WithoutLog(logs: seq<Log>, id: nat): seq<Log> {
    if logs == [] then []
    else if logs[0].id == id then WithoutLog(logs[1..], id)
    else [logs[0]] + WithoutLog(logs[1..], id)
  }

  function RemoveLog(d: Disk, id: nat): Disk {
    d.(logs := WithoutLog(d.logs, id))
  }

  function CreateLog(d: Disk, id: nat): Disk {
    d.(logs := d.logs + [Log(id, [])])
  }

  function AppendedLogs(logs: seq<Log>, id: nat, w: Write): seq<Log> {
    if logs == [] then []
    else if logs[0].id == id then [Log(id, logs[0].writes + [w])] + logs[1..]
    else [logs[0]] + AppendedLogs(logs[1..], id, w)
  }

  function AppendLog(d: Disk, id: nat, w: Write): Disk {
    d.(logs := AppendedLogs(d.logs, id, w))
  }

  /** Every log's writes, oldest log first. */
  function LogWrites(logs: seq<Log>): seq<Write> {
    if logs == [] then [] else logs[0].writes + LogWrites(logs[1..])
  }

  function LogIds(logs: seq<Log>): (r: seq<nat>)
    ensures |r| == |logs|
    ensures forall i :: 0 <= i < |logs| ==> r[i] == logs[i].id
  {
    seq(|logs|, i requires 0 <= i < |logs| => logs[i].id)
  }

  /** Past every log on disk, and at least n. */
  function PastLogs(n: nat, logs: seq<Log>): nat {
    if logs == [] then n
    else
      var m := PastLogs(n, logs[..|logs| - 1]);
      if m < logs[|logs| - 1].id + 1 then logs[|logs| - 1].id + 1 else m
  }

  // -- Opening the tables a manifest names ----------------------------------------------------

  /** The file's size is not compared. */
  predicate MetaMatches(d: Disk, m: Meta, nextId: nat) {
    m.id < nextId && m.id in d.tables && MetaOf(d.tables[m.id]).(id := m.id, size := m.size) == m
  }

  predicate Openable(d: Disk, m: Manifest) {
    && Readable(m)
    && forall l, i :: 0 <= l < |m.levels| && 0 <= i < |m.levels[l]| ==> MetaMatches(d, m.levels[l][i], m.nextId)
  }

  function OpenLevel(d: Disk, metas: seq<Meta>): (r: seq<Table>)
    requires forall i :: 0 <= i < |metas| ==> metas[i].id in d.tables
    ensures |r| == |metas|
    ensures forall i :: 0 <= i < |metas| ==> r[i] == d.tables[metas[i].id]
  {
    seq(|metas|, i requires 0 <= i < |metas| => d.tables[metas[i].id])
  }

  function OpenLevels(d: Disk, m: Manifest): (r: LevelSet)
    requires Openable(d, m)
    ensures |r| == |m.levels|
  {
    seq(|m.levels|, l requires 0 <= l < |m.levels| =>
      assert forall i :: 0 <= i < |m.levels[l]| ==> MetaMatches(d, m.levels[l][i], m.nextId);
      OpenLevel(d, m.levels[l]))
  }

  /** A table file no manifest entry names. */
  predicate Orphan(d: Disk, levels: LevelSet, id: nat) {
    id in d.tables && forall l, i :: 0 <= l < |levels| && 0 <= i < |levels[l]| ==> levels[l][i].id != id
  }

  // -- A directory without a manifest: every table is L0, newest id first ------------------------

  ghost function PastIds(ids: set<nat>): (n: nat)
    ensures forall i :: i in ids ==> i < n
  {
    if ids == {} then 1 else Highest(ids) + 1
  }

  ghost function Highest(ids: set<nat>): (m: nat)
    requires ids != {}
    ensures m in ids && forall i :: i in ids ==> i <= m
  {
    HasHighest(ids);
    var m :| m in ids && forall i :: i in ids ==> i <= m;
    m
  }

  lemma {:induction false} HasHighest(ids: set<nat>)
    requires ids != {}
    ensures exists m :: m in ids && forall i :: i in ids ==> i <= m
  {
    var any :| any in ids;
    var rest := ids - {any};
    assert forall i :: i in ids <==> i == any || i in rest;
    if rest == {} {
      assert any in ids && forall i :: i in ids ==> i <= any;
    } else {
      HasHighest(rest);
      var m :| m in rest && forall i :: i in rest ==> i <= m;
      var n := if any > m then any else m;
      assert n in ids && forall i :: i in ids ==> i <= n;
    }
  }

  ghost function Descending(tables: map<nat, Table>, ids: set<nat>): seq<Table>
    requires ids <= tables.Keys
    decreases |ids|
  {
    if ids == {} then []
    else
      var m := Highest(ids);
      assert |ids - {m}| < |ids|;
      [tables[m]] + Descending(tables, ids - {m})
  }

  ghost function Adopted(tables: map<nat, Table>): LevelSet {
    [Descending(tables, tables.Keys)]
  }

  // -- Ids that leave no id after them ---------------------------------------------------------------

  const LastId: nat := Word32 - 1

  predicate LastLogTaken(logs: seq<Log>) {
    exists i :: 0 <= i < |logs| && logs[i].id >= LastId
  }

  predicate LastTableTaken(tables: map<nat, Table>) {
    exists id :: id in tables && id >= LastId
  }

  // -- The process ---------------------------------------------------------------------------------

  /** A memtable set aside for flushing, with its log's id and its future table's. */
  datatype Frozen = Frozen(cells: Cells, logId: nat, tableId: nat)

  datatype Writer =
    | Ready
    | Appended(w: Write)      // in the log, not yet in the memtable
    | Rotating(logId: nat)    // memtable frozen, replacement log not yet created

  /** How far build_table_unlocked has got. */
  datatype Stage = Writing | Renaming | Committing

  datatype Background =
    | Idle
    | Flushing(stage: Stage, table: Table, base: LevelSet, nextId: nat)
    | FlushCommitted(built: LevelSet)
    | FlushRetiring(logId: nat)
    | Merging(work: Work, rest: Run, outs: seq<Table>)
    | Installing(work: Work, outs: seq<Table>, renamed: nat)
    | CompactCommitting(work: Work, outs: seq<Table>, nextId: nat)
    | CompactCommitted(work: Work, outs: seq<Table>)
    | CompactRetiring(work: Work)

  /** What a reader took under the lock: the memtables as they were, the version, and, for the
      specification, the writes in force at that moment. */
  datatype Reader = Reader(mem: Cells, imm: Option<Cells>, version: LevelSet, seen: seq<Write>)

  datatype Process = Process(
    mem: Cells, logId: nat, imm: Option<Frozen>,
    levels: LevelSet, current: LevelSet, nextId: nat, pointers: seq<Key>,
    writer: Writer, bg: Background,
    readers: map<nat, Reader>, obsolete: set<nat>)

  /** Why recovery gave up. The disk is left as it was. */
  datatype Refusal =
    | Damaged                         // a table is missing or is not what the manifest says
    | ManifestTooLarge
    | IdsExhausted
    | TableTooLarge(blockSize: nat)   // the replayed writes cannot be written as one table

  datatype Phase =
    | Down
    | SweepingTemps
    | SweepingOrphans(levels: LevelSet, nextId: nat)
    | Replaying(levels: LevelSet, nextId: nat, hadManifest: bool)
    | Rebuilding(stage: Stage, levels: LevelSet, nextId: nat, table: Table)
    | Migrating(levels: LevelSet, nextId: nat)
    | RetiringLogs(levels: LevelSet, nextId: nat, ids: seq<nat>)
    | Up(live: Process)
    | Refused(why: Refusal)

  /** History variables, for the proof only: the level set a recovery would open, how many writes it
      covers, the first write still in a log, and in a running process how many writes the level set
      and the tables plus the frozen memtable cover. */
  datatype Aux = Aux(durable: LevelSet, tables: nat, logs: nat, levels: nat, mem: nat)

  /** history is every write that reached a log. */
  datatype State = State(disk: Disk, phase: Phase, history: seq<Write>, aux: Aux)

  /** The newest table goes to the front of L0. */
  function PushL0(levels: LevelSet, t: Table): LevelSet {
    if levels == [] then [[t]] else [[t] + levels[0]] + levels[1..]
  }

  function SetPointer(pointers: seq<Key>, l: nat, k: Key): seq<Key> {
    if l < |pointers| then pointers[l := k] else pointers + seq(l - |pointers|, i => []) + [k]
  }

  // -- Steps: the writer ------------------------------------------------------------------------------

  /** What write_entry lets through. */
  predicate Acceptable(w: Write) {
    w.key != [] && Records.RecSize(Records.Rec(w.key, w.cell, 0)) < Word32
  }

  /** write_entry, first half: the record reaches the log and the device. */
  ghost predicate Append(s: State, s': State, w: Write) {
    && s.phase.Up? && s.phase.live.writer.Ready? && Acceptable(w)
    && s' == s.(disk := AppendLog(s.disk, s.phase.live.logId, w),
                phase := Up(s.phase.live.(writer := Appended(w))),
                history := s.history + [w])
  }

  /** write_entry, second half: the memtable insert, after which the caller is told. */
  ghost predicate InsertMem(s: State, s': State) {
    && s.phase.Up? && s.phase.live.writer.Appended?
    && var live := s.phase.live;
       s' == s.(phase := Up(live.(mem := live.mem[live.writer.w.key := live.writer.w.cell], writer := Ready)))
  }

  /** rotate_memtable under the lock: the table id is claimed before the log id. */
  ghost predicate RotateBegin(s: State, s': State) {
    && s.phase.Up? && s.phase.live.writer.Ready? && s.phase.live.imm.None? && s.phase.live.mem != map[]
    && var live := s.phase.live;
       s' == s.(phase := Up(live.(imm := Some(Frozen(live.mem, live.logId, live.nextId)), mem := map[],
                                  nextId := live.nextId + 2, writer := Rotating(live.nextId + 1))),
                aux := s.aux.(mem := |s.history|))
  }

  /** rotate_memtable, the rest: the replacement log exists. */
  ghost predicate RotateEnd(s: State, s': State) {
    && s.phase.Up? && s.phase.live.writer.Rotating?
    && var live := s.phase.live;
       s' == s.(disk := CreateLog(s.disk, live.writer.logId),
                phase := Up(live.(logId := live.writer.logId, writer := Ready)))
  }

  // -- Steps: flush ---------------------------------------------------------------------------------------

  ghost predicate FlushBegin(s: State, s': State, size: nat) {
    && s.phase.Up? && s.phase.live.bg.Idle? && s.phase.live.imm.Some?
    && var live := s.phase.live;
       var table := Table(live.imm.value.tableId, Listing(live.imm.value.cells), size);
       s' == s.(phase := Up(live.(bg := Flushing(Writing, table, live.levels, live.nextId))))
  }

  /** A memtable that cannot be written as one table stays where it is, and so does its log. */
  ghost predicate FlushWrite(s: State, s': State, blockSize: nat) {
    && s.phase.Up? && s.phase.live.bg.Flushing? && s.phase.live.bg.stage.Writing?
    && TableSizes.Buildable(s.phase.live.bg.table.run, blockSize)
    && var live := s.phase.live;
       s' == s.(disk := WriteTemp(s.disk, live.bg.table), phase := Up(live.(bg := live.bg.(stage := Renaming))))
  }

  ghost predicate FlushRename(s: State, s': State) {
    && s.phase.Up? && s.phase.live.bg.Flushing? && s.phase.live.bg.stage.Renaming?
    && var live := s.phase.live;
       && live.bg.table.id in s.disk.temps
       && s' == s.(disk := RenameTemp(s.disk, live.bg.table.id),
          phase := Up(live.(bg := live.bg.(stage := Committing))))
  }

  ghost predicate FlushCommit(s: State, s': State) {
    && s.phase.Up? && s.phase.live.bg.Flushing? && s.phase.live.bg.stage.Committing?
    && var live := s.phase.live;
       var built := PushL0(live.bg.base, live.bg.table);
       s' == s.(disk := CommitManifest(s.disk, built, live.bg.nextId), phase := Up(live.(bg := FlushCommitted(built))),
                aux := s.aux.(durable := built, tables := s.aux.mem))
  }

  /** Back under the lock: swap the version and let go of the frozen memtable. */
  ghost predicate FlushInstall(s: State, s': State) {
    && s.phase.Up? && s.phase.live.bg.FlushCommitted? && s.phase.live.imm.Some?
    && var live := s.phase.live;
       s' == s.(phase := Up(live.(levels := live.bg.built, current := live.bg.built, imm := None,
                                  bg := FlushRetiring(live.imm.value.logId))),
                aux := s.aux.(levels := s.aux.mem))
  }

  ghost predicate FlushRetire(s: State, s': State) {
    && s.phase.Up? && s.phase.live.bg.FlushRetiring?
    && var live := s.phase.live;
       s' == s.(disk := RemoveLog(s.disk, live.bg.logId), phase := Up(live.(bg := Idle)),
                aux := s.aux.(logs := s.aux.levels))
  }

  // -- Steps: compaction ----------------------------------------------------------------------------------

  ghost predicate CompactBegin(s: State, s': State, options: Options, force: bool) {
    && s.phase.Up? && s.phase.live.bg.Idle?
    && var live := s.phase.live;
       && LevelsOk(live.levels) && options.l0Trigger >= 1
       && var work := Pick(live.levels, live.pointers, options, force);
          && work.Some?
          && s' == s.(phase := Up(live.(bg := Merging(work.value, Surviving(work.value), []))))
  }

  /** One output table: its id is claimed outside the lock, its entries are the next n. */
  ghost predicate CompactWrite(s: State, s': State, n: nat, size: nat, blockSize: nat) {
    && s.phase.Up? && s.phase.live.bg.Merging?
    && var live := s.phase.live;
       && 0 < n <= |live.bg.rest| && TableSizes.Buildable(live.bg.rest[..n], blockSize)
       && var out := Table(live.nextId, live.bg.rest[..n], size);
          s' == s.(disk := WriteTemp(s.disk, out),
                   phase := Up(live.(nextId := live.nextId + 1,
                                     bg := live.bg.(rest := live.bg.rest[n..], outs := live.bg.outs + [out]))))
  }

  ghost predicate CompactWritten(s: State, s': State) {
    && s.phase.Up? && s.phase.live.bg.Merging? && s.phase.live.bg.rest == []
    && var live := s.phase.live;
       s' == s.(phase := Up(live.(bg := Installing(live.bg.work, live.bg.outs, 0))))
  }

  ghost predicate CompactRename(s: State, s': State) {
    && s.phase.Up? && s.phase.live.bg.Installing?
    && var live := s.phase.live;
       && live.bg.renamed < |live.bg.outs|
       && var id := live.bg.outs[live.bg.renamed].id;
          && id in s.disk.temps
          && s' == s.(disk := RenameTemp(s.disk, id),
             phase := Up(live.(bg := live.bg.(renamed := live.bg.renamed + 1))))
  }

  /** The counter is read for the manifest some time before the manifest is on disk. */
  ghost predicate CompactLoad(s: State, s': State) {
    && s.phase.Up? && s.phase.live.bg.Installing? && s.phase.live.bg.renamed == |s.phase.live.bg.outs|
    && var live := s.phase.live;
       s' == s.(phase := Up(live.(bg := CompactCommitting(live.bg.work, live.bg.outs, live.nextId))))
  }

  ghost predicate CompactCommit(s: State, s': State) {
    && s.phase.Up? && s.phase.live.bg.CompactCommitting?
    && var live := s.phase.live;
       && LevelsOk(live.levels) && TablesOk(live.bg.outs)
       && var next := Install(live.levels, live.bg.work, live.bg.outs);
          s' == s.(disk := CommitManifest(s.disk, next, live.bg.nextId),
                   phase := Up(live.(bg := CompactCommitted(live.bg.work, live.bg.outs))),
                   aux := s.aux.(durable := next))
  }

  ghost predicate CompactSwap(s: State, s': State) {
    && s.phase.Up? && s.phase.live.bg.CompactCommitted?
    && var live := s.phase.live;
       && LevelsOk(live.levels) && TablesOk(live.bg.outs)
       && var next := Install(live.levels, live.bg.work, live.bg.outs);
          s' == s.(phase := Up(live.(levels := next, current := next,
                                     pointers := SetPointer(live.pointers, live.bg.work.level, live.bg.work.end),
                                     bg := CompactRetiring(live.bg.work))))
  }

  ghost predicate CompactRetire(s: State, s': State) {
    && s.phase.Up? && s.phase.live.bg.CompactRetiring?
    && var live := s.phase.live;
       s' == s.(phase := Up(live.(obsolete := live.obsolete + Retired(live.bg.work), bg := Idle)))
  }

  // -- Steps: readers -----------------------------------------------------------------------------------------

  ghost predicate NamesTable(levels: LevelSet, id: nat) {
    exists l, t :: Member(levels, l, t) && t.id == id
  }

  /** The writes a reader can see now: all but one that is in the log and not yet in the memtable. */
  function SeenNow(s: State): seq<Write>
    requires s.phase.Up?
  {
    if s.phase.live.writer.Appended? && s.history != [] then s.history[..|s.history| - 1] else s.history
  }

  /** get and scan under the shared lock. */
  ghost predicate Probe(s: State, s': State, reader: nat) {
    && s.phase.Up? && reader !in s.phase.live.readers
    && var live := s.phase.live;
       var imm := if live.imm.Some? then Some(live.imm.value.cells) else None;
       s' == s.(phase := Up(live.(readers := live.readers[reader := Reader(live.mem, imm, live.current, SeenNow(s))])))
  }

  ghost predicate Finish(s: State, s': State, reader: nat) {
    && s.phase.Up? && reader in s.phase.live.readers
    && s' == s.(phase := Up(s.phase.live.(readers := s.phase.live.readers - {reader})))
  }

  /** The last reference to an obsolete table goes, and its file with it. */
  ghost predicate Unlink(s: State, s': State, id: nat) {
    && s.phase.Up?
    && var live := s.phase.live;
       && id in live.obsolete
       && !NamesTable(live.current, id)
       && (forall r :: r in live.readers ==> !NamesTable(live.readers[r].version, id))
       && s' == s.(disk := RemoveTable(s.disk, id), phase := Up(live.(obsolete := live.obsolete - {id})))
  }

  // -- Steps: crash and recovery ------------------------------------------------------------------------------------

  /** Everything volatile goes. */
  ghost predicate Crash(s: State, s': State) {
    s' == s.(phase := Down)
  }

  ghost predicate RecoverBegin(s: State, s': State) {
    s.phase.Down? && s' == s.(phase := SweepingTemps)
  }

  ghost predicate SweepTemp(s: State, s': State, id: nat) {
    && s.phase.SweepingTemps? && id in s.disk.temps
    && s' == s.(disk := s.disk.(temps := s.disk.temps - {id}))
  }

  /** open_from_manifest or adopt_unmanifested_layout. */
  ghost predicate OpenTables(s: State, s': State) {
    && s.phase.SweepingTemps? && s.disk.temps == map[]
    && s' ==
         match s.disk.manifest
         case None =>
           if LastTableTaken(s.disk.tables) then s.(phase := Refused(IdsExhausted))
           else s.(phase := Replaying(Adopted(s.disk.tables), PastIds(s.disk.tables.Keys), false))
         case Some(m) =>
           if Openable(s.disk, m) then s.(phase := SweepingOrphans(OpenLevels(s.disk, m), m.nextId))
           else s.(phase := Refused(if Readable(m) then Damaged else ManifestTooLarge))
  }

  ghost predicate SweepOrphan(s: State, s': State, id: nat) {
    && s.phase.SweepingOrphans? && Orphan(s.disk, s.phase.levels, id)
    && s' == s.(disk := RemoveTable(s.disk, id))
  }

  ghost predicate OrphansSwept(s: State, s': State) {
    && s.phase.SweepingOrphans? && (forall id :: !Orphan(s.disk, s.phase.levels, id))
    && s' == s.(phase := Replaying(s.phase.levels, s.phase.nextId, true))
  }

  /** Every log, oldest first, into one memtable; then what to do with it. A store whose block size is
      zero never gets this far. */
  ghost predicate ReplayLogs(s: State, s': State, size: nat, blockSize: nat) {
    && s.phase.Replaying? && blockSize > 0
    && s' == s.(phase := Replayed(s.disk.logs, s.phase.levels, s.phase.nextId, s.phase.hadManifest, size, blockSize))
  }

  ghost function Replayed(logs: seq<Log>, levels: LevelSet, nextId: nat, hadManifest: bool, size: nat,
      blockSize: nat): Phase {
    var next, mem := PastLogs(nextId, logs), Replay(LogWrites(logs));
    if LastLogTaken(logs) then Refused(IdsExhausted)
    else if mem == map[] then if hadManifest then RetiringLogs(levels, next, LogIds(logs)) else Migrating(levels, next)
    else if TableSizes.Buildable(Listing(mem), blockSize) then
      Rebuilding(Writing, levels, next + 1, Table(next, Listing(mem), size))
    else Refused(TableTooLarge(blockSize))
  }

  ghost predicate RebuildWrite(s: State, s': State) {
    && s.phase.Rebuilding? && s.phase.stage.Writing?
    && s' == s.(disk := WriteTemp(s.disk, s.phase.table), phase := s.phase.(stage := Renaming))
  }

  ghost predicate RebuildRename(s: State, s': State) {
    && s.phase.Rebuilding? && s.phase.stage.Renaming? && s.phase.table.id in s.disk.temps
    && var disk := RenameTemp(s.disk, s.phase.table.id);
       s' == s.(disk := disk, phase := s.phase.(stage := Committing),
                aux := if s.disk.manifest.None? then s.aux.(durable := Adopted(disk.tables), tables := |s.history|)
                    else s.aux)
  }

  ghost predicate RebuildCommit(s: State, s': State) {
    && s.phase.Rebuilding? && s.phase.stage.Committing?
    && var built := PushL0(s.phase.levels, s.phase.table);
       s' == s.(disk := CommitManifest(s.disk, built, s.phase.nextId),
                phase := RetiringLogs(built, s.phase.nextId, LogIds(s.disk.logs)),
                aux := s.aux.(durable := built, tables := |s.history|))
  }

  ghost predicate Migrate(s: State, s': State) {
    && s.phase.Migrating?
    && s' == s.(disk := CommitManifest(s.disk, s.phase.levels, s.phase.nextId),
                phase := RetiringLogs(s.phase.levels, s.phase.nextId, LogIds(s.disk.logs)),
                aux := s.aux.(durable := s.phase.levels))
  }

  /** The replayed logs go, lowest id first. */
  ghost predicate RetireLog(s: State, s': State) {
    && s.phase.RetiringLogs? && s.phase.ids != []
    && s' == s.(disk := RemoveLog(s.disk, s.phase.ids[0]), phase := s.phase.(ids := s.phase.ids[1..]),
                aux := if s.disk.logs != [] then s.aux.(logs := s.aux.logs + |s.disk.logs[0].writes|) else s.aux)
  }

  ghost predicate OpenLog(s: State, s': State) {
    && s.phase.RetiringLogs? && s.phase.ids == []
    && var n := |s.history|;
       s' == s.(disk := CreateLog(s.disk, s.phase.nextId),
                phase := Up(Process(map[], s.phase.nextId, None, s.phase.levels, s.phase.levels, s.phase.nextId + 1, [],
                                 Ready, Idle, map[], {})),
                aux := s.aux.(levels := n, mem := n))
  }

  // -- Runs ------------------------------------------------------------

  datatype Step =
    | DoAppend(w: Write) | DoInsertMem | DoRotateBegin | DoRotateEnd
    | DoFlushBegin(size: nat) | DoFlushWrite(blockSize: nat) | DoFlushRename | DoFlushCommit
    | DoFlushInstall | DoFlushRetire
    | DoCompactBegin(options: Options, force: bool)
    | DoCompactWrite(n: nat, size: nat, blockSize: nat) | DoCompactWritten
    | DoCompactRename | DoCompactLoad | DoCompactCommit | DoCompactSwap | DoCompactRetire
    | DoProbe(reader: nat) | DoFinish(reader: nat) | DoUnlink(id: nat)
    | DoCrash | DoRecoverBegin | DoSweepTemp(id: nat) | DoOpenTables | DoSweepOrphan(id: nat) | DoOrphansSwept
    | DoReplayLogs(size: nat, blockSize: nat)
    | DoRebuildWrite | DoRebuildRename | DoRebuildCommit | DoMigrate | DoRetireLog | DoOpenLog

  ghost predicate Next(s: State, s': State, step: Step) {
    match step
    case DoAppend(w) => Append(s, s', w)
    case DoInsertMem => InsertMem(s, s')
    case DoRotateBegin => RotateBegin(s, s')
    case DoRotateEnd => RotateEnd(s, s')
    case DoFlushBegin(size) => FlushBegin(s, s', size)
    case DoFlushWrite(blockSize) => FlushWrite(s, s', blockSize)
    case DoFlushRename => FlushRename(s, s')
    case DoFlushCommit => FlushCommit(s, s')
    case DoFlushInstall => FlushInstall(s, s')
    case DoFlushRetire => FlushRetire(s, s')
    case DoCompactBegin(options, force) => CompactBegin(s, s', options, force)
    case DoCompactWrite(n, size, blockSize) => CompactWrite(s, s', n, size, blockSize)
    case DoCompactWritten => CompactWritten(s, s')
    case DoCompactRename => CompactRename(s, s')
    case DoCompactLoad => CompactLoad(s, s')
    case DoCompactCommit => CompactCommit(s, s')
    case DoCompactSwap => CompactSwap(s, s')
    case DoCompactRetire => CompactRetire(s, s')
    case DoProbe(reader) => Probe(s, s', reader)
    case DoFinish(reader) => Finish(s, s', reader)
    case DoUnlink(id) => Unlink(s, s', id)
    case DoCrash => Crash(s, s')
    case DoRecoverBegin => RecoverBegin(s, s')
    case DoSweepTemp(id) => SweepTemp(s, s', id)
    case DoOpenTables => OpenTables(s, s')
    case DoSweepOrphan(id) => SweepOrphan(s, s', id)
    case DoOrphansSwept => OrphansSwept(s, s')
    case DoReplayLogs(size, blockSize) => ReplayLogs(s, s', size, blockSize)
    case DoRebuildWrite => RebuildWrite(s, s')
    case DoRebuildRename => RebuildRename(s, s')
    case DoRebuildCommit => RebuildCommit(s, s')
    case DoMigrate => Migrate(s, s')
    case DoRetireLog => RetireLog(s, s')
    case DoOpenLog => OpenLog(s, s')
  }
}
