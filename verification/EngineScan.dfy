/** Scans of a running engine. */
module EngineScan {
  import opened Keys
  import opened Entries
  import opened Levels
  import opened History
  import opened Engine
  import opened EngineInvariant
  import opened EngineFacts
  import opened EngineTheorems
  import opened MergeIterator
  import opened Merging

  /** Everything a scan merges, newest first: the memtable copied at the probe, the frozen one, and
      the files its version names, as they are on disk while it walks them. */
  ghost function ScanRuns(d: Disk, r: Reader): seq<Run> {
    [Listing(r.mem)] + (if r.imm.Some? then [Listing(r.imm.value)] else []) + Stack(Reread(d.tables, r.version))
  }

  lemma ScanLook(d: Disk, r: Reader, k: Key)
    ensures Look(ScanRuns(d, r), k) == Or(Get(r.mem, k),
        Or(ImmGet(r.imm, k), LookLevels(Reread(d.tables, r.version), k)))
  {
    var imm := if r.imm.Some? then [Listing(r.imm.value)] else [];
    var stack := Stack(Reread(d.tables, r.version));
    ListingFind(r.mem, k);
    OneRun(Listing(r.mem), k);
    if r.imm.Some? {
      ListingFind(r.imm.value, k);
      OneRun(Listing(r.imm.value), k);
    }
    LookConcat([Listing(r.mem)] + imm, stack, k);
    LookConcat([Listing(r.mem)], imm, k);
  }

  lemma {:induction false} StackSorted(levels: LevelSet)
    requires LevelsOk(levels)
    ensures AllSorted(Stack(levels))
  {
    if levels != [] {
      assert LevelsOk(levels[1..]);
      StackSorted(levels[1..]);
    }
  }

  lemma ScanSorted(d: Disk, r: Reader)
    requires ReaderOk(d.tables, r)
    ensures AllSorted(ScanRuns(d, r))
  {
    RereadSame(d.tables, r.version);
    StackSorted(r.version);
    ListingSorted(r.mem);
    if r.imm.Some? {
      ListingSorted(r.imm.value);
    }
  }

  /**
   * A scan that probed at step i and is part-way through in state j gives, in key order, exactly the
   * live keys in [begin, end) of the plain map at the probe, whatever has happened since.
   */
  lemma ScanIsPlainMap(states: seq<State>, steps: seq<Step>, i: nat, j: nat, reader: nat, begin: Key, end: Key, k: Key)
    requires Execution(states, steps) && Reading(steps, i, j, reader)
    ensures states[i].phase.Up? && states[j].phase.Up? && reader in states[j].phase.live.readers
    ensures var rows := RowsOf(Skip, RestrictAll(ScanRuns(states[j].disk, states[j].phase.live.readers[reader]),
        begin, end));
            && Sorted(rows)
            && Visible(Find(rows, k)) ==
                 (if (begin == [] || !Less(k, begin)) && (end == [] || Less(k, end))
                  then Get(PlainMap(SeenNow(states[i])), k) else None)
            && Find(rows, k) != Some(Tombstone)
  {
    hide Next, Init, Look, LookLevels, PlainMap, RowsOf, RestrictAll, ScanRuns, Sorted, Find, SeenNow;
    RunInv(states, steps, j);
    ReaderSeesItsProbe(states, steps, i, j, reader, k);
    var r, d := states[j].phase.live.readers[reader], states[j].disk;
    assert ReaderOk(d.tables, r);
    ScanSorted(d, r);
    ScanRows(ScanRuns(d, r), begin, end, k);
    ScanLook(d, r, k);
  }
}
