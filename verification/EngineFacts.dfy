/** Facts the steps of the engine rest on. */
module EngineFacts {
  import opened Keys
  import opened Entries
  import opened Levels
  import opened Compaction
  import opened History
  import opened Engine
  import opened EngineInvariant

  // -- Flushing ------------------------------------------------------------------------------

  lemma LookPush(levels: LevelSet, t: Table, k: Key)
    ensures LookLevels(PushL0(levels, t), k) == Or(Find(t.run, k), LookLevels(levels, k))
  {
    var first := if levels == [] then [] else levels[0];
    var rest := if levels == [] then [] else levels[1..];
    assert levels == [] ==> [t] + first == [t];
    assert PushL0(levels, t)[0] == [t] + first && PushL0(levels, t)[1..] == rest;
    assert Runs([t] + first) == [t.run] + Runs(first);
    assert Stack(PushL0(levels, t)) == Runs([t] + first) + Stack(rest);
    assert Stack(levels) == Runs(first) + Stack(rest);
    hide Stack, PushL0, Look;
    assert ([t.run] + Runs(first)) + Stack(rest) == [t.run] + (Runs(first) + Stack(rest));
    OneRun(t.run, k);
    LookConcat([t.run], Stack(levels), k);
  }

  lemma OneRun(run: Run, k: Key)
    ensures Look([run], k) == Find(run, k)
  {
    assert [run][1..] == [];
  }

  /** The key lemma: replaying a stretch of history that overlaps or meets what the tables already
      cover changes nothing it repeats and adds what it has beyond them. */
  lemma PushCovers(levels: LevelSet, t: Table, h: seq<Write>, from: nat, covered: nat, upTo: nat)
    requires from <= covered <= upTo <= |h|
    requires Covers(levels, h[..covered])
    requires t.run == Listing(Replay(h[from..upTo]))
    ensures Covers(PushL0(levels, t), h[..upTo])
  {
    forall k ensures Visible(LookLevels(PushL0(levels, t), k)) == Visible(Last(h[..upTo], k)) {
      LookPush(levels, t, k);
      ListingFind(Replay(h[from..upTo]), k);
      ReplayIsLast(h[from..upTo], k);
      LastSplit(h, from, upTo, k);
      LastSplit(h, from, covered, k);
      assert h[from..upTo] == h[from..covered] + h[covered..upTo];
      LastConcat(h[from..covered], h[covered..upTo], k);
    }
  }

  lemma LastSplit(h: seq<Write>, a: nat, b: nat, k: Key)
    requires a <= b <= |h|
    ensures Last(h[..b], k) == Or(Last(h[a..b], k), Last(h[..a], k))
  {
    assert h[..b] == h[..a] + h[a..b];
    LastConcat(h[..a], h[a..b], k);
  }

  lemma PushMember(levels: LevelSet, t: Table, l: nat, u: Table)
    ensures Member(PushL0(levels, t), l, u) <==> (l == 0 && u == t) || Member(levels, l, u)
  {
  }

  lemma PushGood(levels: LevelSet, t: Table)
    requires GoodLevels(levels) && TableOk(t)
    requires forall i :: 0 <= i < |At(levels, 0)| ==> levels[0][i].id < t.id
    requires forall l, u :: Member(levels, l, u) ==> u.id != t.id
    ensures GoodLevels(PushL0(levels, t))
  {
    var built := PushL0(levels, t);
    assert forall l :: 1 <= l < |built| ==> built[l] == levels[l];
    forall l, m, u, v | Member(built, l, u) && Member(built, m, v) && u.id == v.id ensures l == m && u == v {
      PushMember(levels, t, l, u);
      PushMember(levels, t, m, v);
    }
  }

  lemma PushOnDisk(files: map<nat, Table>, levels: LevelSet, t: Table)
    requires OnDisk(files, levels) && t.id in files && files[t.id] == t
    ensures OnDisk(files, PushL0(levels, t))
  {
    forall l, u | Member(PushL0(levels, t), l, u) ensures u.id in files && files[u.id] == u {
      PushMember(levels, t, l, u);
    }
  }

  lemma ListingIsTable(m: Cells, id: nat, size: nat)
    requires m != map[]
    ensures TableOk(Table(id, Listing(m), size))
  {
    ListingSorted(m);
    var k :| k in m;
    ListingMembers(m, Entry(k, m[k]));
  }

  // -- Files ---------------------------------------------------------------------------------

  lemma NewFileOnDisk(files: map<nat, Table>, levels: LevelSet, t: Table)
    requires OnDisk(files, levels) && t.id !in files
    ensures OnDisk(files[t.id := t], levels)
  {
  }

  lemma NewFileReaders(files: map<nat, Table>, readers: map<nat, Reader>, t: Table)
    requires ReadersInv(files, readers) && t.id !in files
    ensures ReadersInv(files[t.id := t], readers)
  {
    forall i | i in readers ensures ReaderOk(files[t.id := t], readers[i]) {
      NewFileOnDisk(files, readers[i].version, t);
    }
  }

  lemma RemoveOnDisk(files: map<nat, Table>, levels: LevelSet, id: nat)
    requires OnDisk(files, levels) && !NamesTable(levels, id)
    ensures OnDisk(files - {id}, levels)
  {
  }

  // -- Opening --------------------------------------------------------------------------------

  /** A manifest that projects a level set on disk opens, to that level set, exactly when it can be read. */
  lemma OpenSucceeds(d: Disk, m: Manifest, levels: LevelSet)
    requires m.levels == Metas(levels) && OnDisk(d.tables, levels) && IdsBelow(levels, m.nextId)
    ensures Openable(d, m) <==> Readable(m)
    ensures Openable(d, m) ==> OpenLevels(d, m) == levels
  {
    hide Readable;
    forall l, i | 0 <= l < |m.levels| && 0 <= i < |m.levels[l]| ensures MetaMatches(d, m.levels[l][i], m.nextId) {
      assert Member(levels, l, levels[l][i]);
    }
    if Openable(d, m) {
      var got := OpenLevels(d, m);
      forall l | 0 <= l < |levels| ensures got[l] == levels[l] {
        assert m.levels[l] == LevelMetas(levels[l]);
        forall i | 0 <= i < |levels[l]| ensures got[l][i] == levels[l][i] {
          assert Member(levels, l, levels[l][i]);
        }
      }
    }
  }

  /** Whatever a manifest says, if it opens then every table it names is there with as many entries as it says, from
      the first key it says to the last. */
  lemma OpenedAgrees(d: Disk, m: Manifest, l: nat, i: nat)
    requires Openable(d, m) && FilesOk(d.tables) && l < |m.levels| && i < |m.levels[l]|
    ensures var meta := m.levels[l][i];
            && meta.id < m.nextId && meta.id in d.tables
            && var run := d.tables[meta.id].run;
               |run| == meta.count > 0 && run[0].key == meta.minKey && run[|run| - 1].key == meta.maxKey
  {
    hide Readable;
    assert MetaMatches(d, m.levels[l][i], m.nextId);
  }

  // -- Directories without a manifest ---------------------------------------------------------------

  lemma {:induction false} DescendingFacts(tables: map<nat, Table>, ids: set<nat>)
    requires ids <= tables.Keys && FilesOk(tables)
    ensures TablesOk(Descending(tables, ids)) && NewestFirst(Descending(tables, ids))
    ensures forall t :: t in Descending(tables, ids) <==> t.id in ids && tables[t.id] == t
    decreases |ids|
  {
    if ids != {} {
      var m := Highest(ids);
      assert |ids - {m}| < |ids|;
      var rest := Descending(tables, ids - {m});
      DescendingFacts(tables, ids - {m});
      forall i | 0 <= i < |rest| ensures rest[i].id < m {
        assert rest[i] in rest;
      }
      assert Descending(tables, ids) == [tables[m]] + rest;
    }
  }

  lemma AdoptedGood(tables: map<nat, Table>)
    requires FilesOk(tables)
    ensures GoodLevels(Adopted(tables)) && OnDisk(tables, Adopted(tables))
  {
    DescendingFacts(tables, tables.Keys);
    var levels := Adopted(tables);
    assert levels[0] == Descending(tables, tables.Keys);
    forall l, m, t, u | Member(levels, l, t) && Member(levels, m, u) && t.id == u.id ensures l == m && t == u {
      assert l == 0 && m == 0;
    }
  }

  /** A table with a higher id than every other is adopted in front of them. */
  lemma AdoptedPush(tables: map<nat, Table>, t: Table)
    requires FilesBelow(tables, t.id)
    ensures Adopted(tables[t.id := t]) == PushL0(Adopted(tables), t)
  {
    var files := tables[t.id := t];
    assert files.Keys == tables.Keys + {t.id};
    assert Highest(files.Keys) == t.id;
    assert files.Keys - {t.id} == tables.Keys;
    DescendingSame(files, tables, tables.Keys);
  }

  lemma {:induction false} DescendingSame(a: map<nat, Table>, b: map<nat, Table>, ids: set<nat>)
    requires ids <= a.Keys && ids <= b.Keys
    requires forall i :: i in ids ==> a[i] == b[i]
    ensures Descending(a, ids) == Descending(b, ids)
    decreases |ids|
  {
    if ids != {} {
      var m := Highest(ids);
      assert |ids - {m}| < |ids|;
      DescendingSame(a, b, ids - {m});
    }
  }

  // -- Logs --------------------------------------------------------------------------------------

  lemma {:induction false} LogWritesConcat(a: seq<Log>, b: seq<Log>)
    ensures LogWrites(a + b) == LogWrites(a) + LogWrites(b)
  {
    if a == [] {
      assert a + b == b;
    } else {
      assert (a + b)[1..] == a[1..] + b;
      LogWritesConcat(a[1..], b);
    }
  }

  lemma {:induction false} WithoutAbsent(logs: seq<Log>, id: nat)
    requires forall i :: 0 <= i < |logs| ==> logs[i].id != id
    ensures WithoutLog(logs, id) == logs
  {
    if logs != [] {
      WithoutAbsent(logs[1..], id);
    }
  }

  /** Removing the lowest log leaves the rest. */
  lemma WithoutFirst(logs: seq<Log>)
    requires logs != [] && Ascending(logs)
    ensures WithoutLog(logs, logs[0].id) == logs[1..]
  {
    WithoutAbsent(logs[1..], logs[0].id);
  }

  /** Appending to the newest log. */
  lemma AppendsToLast(logs: seq<Log>, w: Write)
    requires logs != [] && Ascending(logs)
    ensures var last := logs[|logs| - 1];
            AppendedLogs(logs, last.id, w) == logs[..|logs| - 1] + [Log(last.id, last.writes + [w])]
    ensures LogWrites(AppendedLogs(logs, logs[|logs| - 1].id, w)) == LogWrites(logs) + [w]
    ensures Ascending(AppendedLogs(logs, logs[|logs| - 1].id, w))
  {
    hide LogWrites, AppendedLogs;
    var front, last := logs[..|logs| - 1], logs[|logs| - 1];
    var longer := Log(last.id, last.writes + [w]);
    OnlyLastGrows(logs, w);
    LogWritesConcat(front, [longer]);
    LogWritesConcat(front, [last]);
    assert logs == front + [last];
    OneLogWrites(longer);
    OneLogWrites(last);
    assert LogWrites(front) + (last.writes + [w]) == LogWrites(front) + last.writes + [w];
  }

  lemma OneLogWrites(log: Log)
    ensures LogWrites([log]) == log.writes
  {
    assert LogWrites([log]) == log.writes + LogWrites([]);
  }

  lemma {:induction false} OnlyLastGrows(logs: seq<Log>, w: Write)
    requires logs != [] && Ascending(logs)
    ensures var last := logs[|logs| - 1];
            AppendedLogs(logs, last.id, w) == logs[..|logs| - 1] + [Log(last.id, last.writes + [w])]
  {
    var last := logs[|logs| - 1];
    if |logs| > 1 {
      assert logs[0].id < last.id;
      OnlyLastGrows(logs[1..], w);
      assert logs[..|logs| - 1] == [logs[0]] + logs[1..][..|logs| - 2];
    }
  }

  lemma {:induction false} PastLogsFacts(n: nat, logs: seq<Log>)
    ensures PastLogs(n, logs) >= n && LogsBelow(logs, PastLogs(n, logs))
  {
    if logs != [] {
      PastLogsFacts(n, logs[..|logs| - 1]);
      assert logs == logs[..|logs| - 1] + [logs[|logs| - 1]];
    }
  }

  /** Nothing but the logs moves the counter, and they move it no further than they must. */
  lemma {:induction false} PastLogsIsNext(n: nat, logs: seq<Log>)
    ensures PastLogs(n, logs) == n || exists i :: 0 <= i < |logs| && PastLogs(n, logs) == logs[i].id + 1
  {
    if logs != [] {
      PastLogsIsNext(n, logs[..|logs| - 1]);
    }
  }

  /** Installing a compaction records how far along its level it got, and disturbs no other level's place. */
  lemma SwapMovesOn(s: State, s': State, l: nat)
    requires CompactSwap(s, s')
    ensures PointerOf(s'.phase.live.pointers, l)
         == if l == s.phase.live.bg.work.level then s.phase.live.bg.work.end else PointerOf(s.phase.live.pointers, l)
  {
    hide Install, LevelsOk, TablesOk;
  }
}
