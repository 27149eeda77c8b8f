/** Accepted writes that lock a store: runs of the engine after which no recovery succeeds, and that the
    table recovery builds is refused for its size alone. */
module EngineLockout {
  import opened Keys
  import opened Entries
  import opened Levels
  import opened Compaction
  import opened History
  import opened Engine
  import opened EngineInvariant
  import opened EngineFacts
  import opened EngineTheorems
  import opened EngineReopen
  import Bytes
  import TableSizes
  import TableBuilder
  import Records
  import RecordCodec

  /** What a write is let through by is what its log record needs, whatever the time. */
  lemma AcceptableIsLoggable(w: Write, ts: Bytes.U64)
    ensures Acceptable(w) <==> RecordCodec.Fits(Records.Rec(w.key, w.cell, ts))
  {
  }

  // -- The table recovery builds --------------------------------------------------------------------

  lemma {:induction false} ReplayedFrom(h: seq<Write>, k: Key)
    requires k in Replay(h)
    ensures exists i :: 0 <= i < |h| && h[i] == Write(k, Replay(h)[k])
  {
    var n := |h| - 1;
    if h[n].key == k {
      assert h[n] == Write(k, Replay(h)[k]);
    } else {
      ReplayedFrom(h[..n], k);
    }
  }

  lemma LoggedAcceptable(logs: seq<Log>, h: seq<Write>, a: nat)
    requires a <= |h| && LogWrites(logs) == h[a..] && forall i :: 0 <= i < |h| ==> Acceptable(h[i])
    ensures forall i :: 0 <= i < |LogWrites(logs)| ==> Acceptable(LogWrites(logs)[i])
  {
  }

  /** Writes that were accepted one by one make a run the table builder lets in entry by entry. */
  lemma ReplayedAdmitted(s: State)
    requires Inv(s)
    ensures TableBuilder.Admitted(Listing(Replay(LogWrites(s.disk.logs))))
  {
    hide PhaseInv, Covers, GoodLevels, DurableIs, FilesOk, Ascending, Listing, Replay, LogWrites;
    var writes := LogWrites(s.disk.logs);
    var run := Listing(Replay(writes));
    LoggedAcceptable(s.disk.logs, s.history, s.aux.logs);
    ListingSorted(Replay(writes));
    forall i | 0 <= i < |run| ensures TableSizes.EntryFits(run[i]) {
      assert run[i] in run;
      ListingMembers(Replay(writes), run[i]);
      ReplayedFrom(writes, run[i].key);
    }
  }

  // -- Runs from an empty directory ------------------------------------------------------------------

  function Empty(): State {
    State(Disk(map[], map[], [], None), Down, [], Aux([[]], 0, 0, 0, 0))
  }

  /** Some run from an empty directory gets here. */
  ghost predicate Reachable(s: State) {
    exists states: seq<State>, steps: seq<Step> ::
      Execution(states, steps) && states[0] == Empty() && states[|steps|] == s
  }

  lemma EmptyReachable()
    ensures Reachable(Empty())
  {
    hide Next, Init;
    EmptyDirectory(Empty());
    assert Execution([Empty()], []);
  }

  lemma Onward(s: State, s': State, step: Step)
    requires Reachable(s) && Next(s, s', step)
    ensures Reachable(s')
  {
    hide Next, Init;
    var states: seq<State>, steps: seq<Step> :| Execution(states, steps) && states[0] == Empty()
        && states[|steps|] == s;
    assert Execution(states + [s'], steps + [step]);
  }

  lemma ReachableInv(s: State)
    requires Reachable(s)
    ensures Inv(s)
  {
    hide Next, Init, Inv;
    var states: seq<State>, steps: seq<Step> :| Execution(states, steps) && states[0] == Empty()
        && states[|steps|] == s;
    RunInv(states, steps, |steps|);
  }

  lemma NothingAdopted()
    ensures Adopted(map[]) == [[]] && PastIds({}) == 1
  {
    var none: map<nat, Table> := map[];
    assert none.Keys == {};
  }

  lemma NothingReplayed(blockSize: nat)
    ensures Replayed([], [[]], 1, false, 0, blockSize) == Migrating([[]], 1)
  {
  }

  lemma EmptyTables()
    ensures OpenTables(Empty().(phase := SweepingTemps), Empty().(phase := Replaying([[]], 1, false)))
  {
    hide Adopted, PastIds;
    NothingAdopted();
    var none: map<nat, Table> := map[];
    assert none.Keys == {};
  }

  /** Recovery of an empty directory, up to its manifest. */
  lemma EmptyOpens(blockSize: nat)
    requires blockSize > 0
    ensures Reachable(Empty().(phase := Migrating([[]], 1)))
  {
    hide Reachable, OpenTables, Replayed;
    EmptyReachable();
    EmptyTables();
    NothingReplayed(blockSize);
    var s1, s2 := Empty().(phase := SweepingTemps), Empty().(phase := Replaying([[]], 1, false));
    Onward(Empty(), s1, DoRecoverBegin);
    Onward(s1, s2, DoOpenTables);
    Onward(s2, Empty().(phase := Migrating([[]], 1)), DoReplayLogs(0, blockSize));
  }

  /** The store an empty directory opens as. */
  function Fresh(): State {
    State(Disk(map[], map[], [Log(1, [])], Some(Manifest(1, Metas([[]])))),
          Up(Process(map[], 1, None, [[]], [[]], 2, [], Ready, Idle, map[], {})), [], Aux([[]], 0, 0, 0, 0))
  }

  lemma FreshReachable(blockSize: nat)
    requires blockSize > 0
    ensures Reachable(Fresh())
  {
    hide Reachable, Metas;
    EmptyOpens(blockSize);
    var s := Empty().(disk := CommitManifest(Empty().disk, [[]], 1), phase := RetiringLogs([[]], 1, LogIds([])));
    Onward(Empty().(phase := Migrating([[]], 1)), s, DoMigrate);
    assert [] + [Log(1, [])] == [Log(1, [])];
    Onward(s, Fresh(), DoOpenLog);
  }

  /** A store with one log after one more put. */
  function AfterPut(s: State, w: Write): State
    requires s.phase.Up? && s.disk.logs != []
  {
    var live := s.phase.live;
    s.(disk := s.disk.(logs := [Log(live.logId, s.disk.logs[0].writes + [w])]),
       phase := Up(live.(mem := live.mem[w.key := w.cell])), history := s.history + [w])
  }

  lemma PutReachable(s: State, w: Write)
    requires Reachable(s) && Acceptable(w) && s.phase.Up? && s.phase.live.writer.Ready?
    requires |s.disk.logs| == 1 && s.disk.logs[0].id == s.phase.live.logId
    ensures Reachable(AfterPut(s, w))
  {
    hide Reachable, Acceptable;
    var live := s.phase.live;
    assert AppendedLogs(s.disk.logs, live.logId, w) == [Log(live.logId, s.disk.logs[0].writes + [w])];
    hide AppendedLogs;
    var told := s.(disk := AppendLog(s.disk, live.logId, w), phase := Up(live.(writer := Appended(w))),
        history := s.history + [w]);
    Onward(s, told, DoAppend(w));
    Onward(told, AfterPut(s, w), DoInsertMem);
  }

  lemma OneListed(k: Key, c: Cell)
    ensures Listing(map[k := c]) == [Entry(k, c)]
  {
    var m := map[k := c];
    assert m.Keys == {k} && LeastKey(m.Keys) == k;
    assert m - {k} == map[];
  }

  lemma TwoListed(j: Key, k: Key, c: Cell, d: Cell)
    requires Less(j, k)
    ensures Listing(map[j := c, k := d]) == [Entry(j, c), Entry(k, d)]
  {
    var m := map[j := c, k := d];
    Asymmetric(j, k);
    assert m.Keys == {j, k} && IsLeast(m.Keys, LeastKey(m.Keys));
    assert m - {j} == map[k := d];
    OneListed(k, d);
  }

  // -- A put that no later open survives -----------------------------------------------------------------

  /** After one put and a rotation: two logs, a frozen memtable of one key, and a flush that has got so far. */
  function AtFlush(w: Write, tables: map<nat, Table>, temps: map<nat, Table>, manifest: Manifest, bg: Background,
      aux: Aux): State {
    State(Disk(tables, temps, [Log(1, [w]), Log(3, [])], Some(manifest)),
          Up(Process(map[], 3, Some(Frozen(map[w.key := w.cell], 1, 2)), [[]], [[]], 4, [], Ready, bg, map[], {})),
          [w], aux)
  }

  lemma RotatedReachable(w: Write, blockSize: nat)
    requires Acceptable(w) && blockSize > 0
    ensures Reachable(AtFlush(w, map[], map[], Manifest(1, Metas([[]])), Idle, Aux([[]], 0, 0, 0, 1)))
  {
    hide Reachable, Acceptable, Metas;
    FreshReachable(blockSize);
    PutReachable(Fresh(), w);
    var s := AfterPut(Fresh(), w);
    assert s.disk.logs == [Log(1, [w])] && s.history == [w] by {
      assert [] + [w] == [w];
    }
    var live := s.phase.live;
    assert live.mem == map[w.key := w.cell] && w.key in live.mem;
    var rotating := live.(imm := Some(Frozen(live.mem, 1, 2)), mem := map[], nextId := 4, writer := Rotating(3));
    var mid := s.(phase := Up(rotating), aux := Aux([[]], 0, 0, 0, 1));
    Onward(s, mid, DoRotateBegin);
    var end := AtFlush(w, map[], map[], Manifest(1, Metas([[]])), Idle, Aux([[]], 0, 0, 0, 1));
    assert [Log(1, [w])] + [Log(3, [])] == [Log(1, [w]), Log(3, [])];
    Onward(mid, end, DoRotateEnd);
  }

  /** And the same flush with its table under its final name. */
  lemma RenamedReachable(w: Write, t: Table, blockSize: nat)
    requires Acceptable(w) && t == Table(2, [Entry(w.key, w.cell)], 0) && TableSizes.Buildable(t.run, blockSize)
    ensures Reachable(AtFlush(w, map[2 := t], map[], Manifest(1, Metas([[]])),
        Flushing(Committing, t, [[]], 4), Aux([[]], 0, 0, 0, 1)))
  {
    RotatedReachable(w, blockSize);
    OneListed(w.key, w.cell);
    hide Reachable, Acceptable, Metas, Listing, TableSizes.Buildable;
    var m, aux := Manifest(1, Metas([[]])), Aux([[]], 0, 0, 0, 1);
    var s1 := AtFlush(w, map[], map[], m, Flushing(Writing, t, [[]], 4), aux);
    Onward(AtFlush(w, map[], map[], m, Idle, aux), s1, DoFlushBegin(0));
    var s2 := AtFlush(w, map[], map[2 := t], m, Flushing(Renaming, t, [[]], 4), aux);
    Onward(s1, s2, DoFlushWrite(blockSize));
    assert map[2 := t] - {2} == map[];
    Onward(s2, AtFlush(w, map[2 := t], map[], m, Flushing(Committing, t, [[]], 4), aux), DoFlushRename);
  }

  /** The store that has committed that table. */
  function Committed(w: Write, t: Table): State {
    var built := PushL0([[]], t);
    AtFlush(w, map[2 := t], map[], Manifest(4, Metas(built)), FlushCommitted(built), Aux(built, 1, 0, 0, 1))
  }

  lemma CommittedReachable(w: Write, t: Table, blockSize: nat)
    requires Acceptable(w) && t == Table(2, [Entry(w.key, w.cell)], 0) && TableSizes.Buildable(t.run, blockSize)
    ensures Reachable(Committed(w, t))
  {
    RenamedReachable(w, t, blockSize);
    hide Reachable, Acceptable, Metas, PushL0, TableSizes.Buildable;
    var s := AtFlush(w, map[2 := t], map[], Manifest(1, Metas([[]])), Flushing(Committing, t, [[]], 4),
        Aux([[]], 0, 0, 0, 1));
    Onward(s, Committed(w, t), DoFlushCommit);
  }

  /** How long a manifest is that names one table. */
  lemma OneTableSize(t: Table, nextId: nat)
    requires t.run != []
    ensures ManifestSize(Manifest(nextId, Metas(PushL0([[]], t)))) == 52 + |MinKey(t)| + |MaxKey(t)|
  {
    var none: LevelSet := [[]];
    var levels := Metas(PushL0(none, t));
    assert none[1..] == [] && [t] + none[0] == [t];
    assert PushL0(none, t) == [[t]] && levels[0] == LevelMetas([t]);
    assert levels[0] == [MetaOf(t)];
    assert TablesSize(levels[0], 1) == 0 && LevelsSize(levels, 1) == 0;
  }

  /** One entry is a table of one block. */
  lemma OneEntryBuilds(e: Entry, blockSize: nat)
    requires blockSize > 0 && 24 + |e.key| <= Bytes.U32Max && TableSizes.EntrySize(e) + 4 <= Bytes.U32Max
    ensures TableSizes.Buildable([e], blockSize)
  {
    assert [] + [e] == [e];
    assert TableSizes.BlockSize([e], 1) == TableSizes.BlockSize([e], 0) + TableSizes.EntrySize(e);
    assert TableSizes.Fill([e], 1, blockSize) == TableSizes.Fed(TableSizes.Filling([], []), e, blockSize);
    assert TableSizes.Cut([e], blockSize) == [[e]];
    assert TableSizes.IndexSize([[e]], 1) == TableSizes.IndexSize([[e]], 0) + 16 + |e.key|;
  }

  /**
   * A key of 33,554,407 bytes or more, put into an empty store and flushed, is acknowledged and visible,
   * and no open after the next crash succeeds: the manifest that names its table is over the limit.
   */
  lemma LongKeyLocksOut(k: Key, blockSize: nat) returns (live: State)
    requires 33_554_407 <= |k| <= Bytes.U32Max - 24 && blockSize > 0
    ensures Reachable(live) && live.phase.Up? && SeenNow(live) == [Write(k, Live([]))]
    ensures forall b :: !Reopens(live.(phase := Down), b)
  {
    hide Reachable, Reopens, Metas, ManifestSize, TableSizes.Buildable;
    var w, e := Write(k, Live([])), Entry(k, Live([]));
    var t := Table(2, [e], 0);
    OneEntryBuilds(e, blockSize);
    CommittedReachable(w, t, blockSize);
    live := Committed(w, t);
    OneTableSize(t, 4);
    var down := live.(phase := Down);
    Onward(live, down, DoCrash);
    ReachableInv(down);
    forall b ensures !Reopens(down, b) {
      ReopensExactlyWhen(down, b);
    }
  }

  lemma TwoPutsReachable(w1: Write, w2: Write, blockSize: nat) returns (live: State)
    requires Acceptable(w1) && Acceptable(w2) && blockSize > 0
    ensures Reachable(live) && live.phase.Up? && SeenNow(live) == [w1, w2]
    ensures live.disk.logs == [Log(1, [w1, w2])]
  {
    hide Reachable, Metas, Acceptable;
    FreshReachable(blockSize);
    PutReachable(Fresh(), w1);
    PutReachable(AfterPut(Fresh(), w1), w2);
    live := AfterPut(AfterPut(Fresh(), w1), w2);
    assert [] + [w1] == [w1] && [w1] + [w2] == [w1, w2];
  }

  /**
   * A key one byte long and then a value that all but fills a record, both acknowledged: after a crash
   * no open with a block size from 11 bytes to just under 4 GiB succeeds, since the two would share a block.
   */
  lemma TwoPutsLockOut(v: Value, b: nat) returns (live: State)
    requires |v| == 4_294_967_273 && 11 <= b <= 4_294_967_293
    ensures Reachable(live) && live.phase.Up? && SeenNow(live) == [Write([1], Live([])), Write([2], Live(v))]
    ensures !Reopens(live.(phase := Down), b)
  {
    assert FirstDiffers([1], [2], 0);
    var w1, w2 := Write([1], Live([])), Write([2], Live(v));
    live := TwoPutsReachable(w1, w2, b);
    hide Reachable, Reopens, Replay, Listing, TableSizes.Cut, LogWrites;
    var down := live.(phase := Down);
    Onward(live, down, DoCrash);
    ReachableInv(down);
    OneLogWrites(Log(1, [w1, w2]));
    TwoReplayed(w1, w2);
    TableSizes.SmallThenHuge(Entry([1], Live([])), Entry([2], Live(v)), b);
    ReopensExactlyWhen(down, b);
  }

  lemma TwoReplayed(a: Write, b: Write)
    requires Less(a.key, b.key)
    ensures Listing(Replay([a, b])) == [Entry(a.key, a.cell), Entry(b.key, b.cell)]
  {
    assert [a, b][..1] == [a] && [a][..0] == [];
    assert Replay([a]) == map[][a.key := a.cell];
    assert Replay([a, b]) == Replay([a])[b.key := b.cell];
    TwoListed(a.key, b.key, a.cell, b.cell);
  }
}
