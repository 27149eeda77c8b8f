/** The k-way merge as the iterator that performs it, a scan, and the outputs of a compaction. */
module Merging {
  import opened Keys
  import opened Entries
  import opened Levels
  import Compaction
  import opened MergeIterator

  /** Two modes of merging: Skip hides removed keys, as a scan must, and Emit passes their tombstones on. */
  datatype Tombstones = Skip | Emit

  predicate CursorsOk(cs: seq<Cursor>) {
    forall i :: 0 <= i < |cs| ==> CursorOk(cs[i])
  }

  function Streams(cs: seq<Cursor>): (r: seq<Run>)
    requires CursorsOk(cs)
    ensures |r| == |cs|
    ensures forall i :: 0 <= i < |cs| ==> r[i] == Remaining(cs[i])
  {
    seq(|cs|, i requires 0 <= i < |cs| => Remaining(cs[i]))
  }

  /** The rows a merge of these streams gives. */
  function RowsOf(mode: Tombstones, runs: seq<Run>): Run {
    if mode.Emit? then Merge(runs) else WithoutTombstones(Merge(runs))
  }

  /** One turn of the merge: the winner's entry, and every stream on its key steps past it. */
  lemma RowsStep(mode: Tombstones, runs: seq<Run>, w: nat)
    requires WinnerAmong(runs, |runs|) == Some(w)
    ensures w < |runs| && runs[w] != []
    ensures var head, next := runs[w][0], Advance(runs, runs[w][0].key);
            && TotalEntries(next) < TotalEntries(runs)
            && RowsOf(mode, runs) ==
                 if head.cell.Tombstone? && mode.Skip? then RowsOf(mode, next) else [head] + RowsOf(mode, next)
  {
    hide Advance, WinnerAmong;
    var head := runs[w][0];
    AdvanceShrinks(runs, head.key);
    var rest := Merge(Advance(runs, head.key));
    assert Merge(runs) == [head] + rest;
    assert ([head] + rest)[1..] == rest;
  }

  lemma RowsEnd(mode: Tombstones, runs: seq<Run>)
    requires WinnerAmong(runs, |runs|) == None
    ensures RowsOf(mode, runs) == []
  {
  }

  class MergingIterator {
    var sources: seq<Cursor>   // newest first
    const mode: Tombstones
    var key: Key
    var value: Value
    var tombstone: bool
    var valid: bool

    ghost predicate Ok()
      reads this
    {
      CursorsOk(sources)
    }

    ghost function Rows(): Run
      requires Ok()
      reads this
    {
      RowsOf(mode, Streams(sources))
    }

    /** The row the iterator stands on. */
    ghost function Row(): Entry
      reads this
    {
      Entry(key, if tombstone then Tombstone else Live(value))
    }

    /** The row it stands on and those still to come. */
    ghost function Pending(): Run
      requires Ok()
      reads this
    {
      if valid then [Row()] + Rows() else []
    }

    constructor (sources: seq<Cursor>, mode: Tombstones)
      requires CursorsOk(sources)
      ensures Ok() && this.sources == sources && this.mode == mode && !valid
    {
      this.sources, this.mode := sources, mode;
      key, value, tombstone, valid := [], [], false, false;
    }

    /** Picks the stream to take from: least head, ties to the lower index. */
    method FindWinner() returns (w: Option<nat>)
      requires Ok()
      ensures w == WinnerAmong(Streams(sources), |sources|)
    {
      w := None;
      for i := 0 to |sources|
        invariant w == WinnerAmong(Streams(sources), i)
      {
        HeadIsFirst(sources[i]);
        if Valid(sources[i]) {
          if w.None? {
            w := Some(i);
          } else {
            HeadIsFirst(sources[w.value]);
            if Less(Head(sources[i]).key, Head(sources[w.value]).key) {
              w := Some(i);
            }
          }
        }
      }
    }

    /** Every stream sitting on k steps past it, the winner and the superseded alike. */
    method AdvancePast(k: Key)
      requires Ok()
      modifies this`sources
      ensures Ok() && Streams(sources) == Advance(old(Streams(sources)), k)
    {
      hide CursorOk, Remaining;
      ghost var before := sources;
      var i := 0;
      while i < |sources|
        invariant 0 <= i <= |sources| == |before|
        invariant CursorsOk(sources)
        invariant forall j :: 0 <= j < i ==> Remaining(sources[j]) == Advance(Streams(before), k)[j]
        invariant forall j :: i <= j < |sources| ==> sources[j] == before[j]
      {
        HeadIsFirst(sources[i]);
        if Valid(sources[i]) && Head(sources[i]).key == k {
          AdvanceGivesHead(sources[i]);
          sources := sources[i := AdvanceCursor(sources[i])];
        }
        i := i + 1;
      }
    }

    /** find_next_live: stands on the next row, or reports that there is none. */
    method FindNextLive()
      requires Ok()
      modifies this
      ensures Ok()
      ensures Pending() == old(Rows())
      ensures !valid ==> Rows() == []
    {
      hide RowsOf, CursorOk, Remaining, WinnerAmong, Advance, TotalEntries;
      valid := false;
      ghost var rows := Rows();
      while true
        invariant Ok() && !valid && Rows() == rows
        decreases TotalEntries(Streams(sources))
      {
        var w := FindWinner();
        if w.None? {
          RowsEnd(mode, Streams(sources));
          return;
        }
        HeadIsFirst(sources[w.value]);
        RowsStep(mode, Streams(sources), w.value);
        var head := Head(sources[w.value]);
        key := head.key;
        var deleted := head.cell.Tombstone?;
        value := if deleted then [] else head.cell.value;
        AdvancePast(key);
        if !deleted || mode.Emit? {
          tombstone := deleted;
          valid := true;
          return;
        }
      }
    }

    /** Seek to the first row and walk to the end. */
    method Drain() returns (rows: Run)
      requires Ok()
      modifies this
      ensures rows == old(Rows())
    {
      hide RowsOf, CursorsOk;
      ghost var all := Rows();
      rows := [];
      FindNextLive();
      while valid
        invariant Ok()
        invariant all == rows + Pending()
        decreases if valid then 1 + |Rows()| else 0
      {
        ghost var rest := Rows();
        RowMoves(rows, Row(), rest);
        rows := rows + [Entry(key, if tombstone then Tombstone else Live(value))];
        assert all == rows + rest;
        FindNextLive();
      }
    }
  }

  lemma RowMoves(rows: Run, row: Entry, rest: Run)
    ensures rows + ([row] + rest) == (rows + [row]) + rest
  {
  }

  // -- Scans ---------------------------------------------------------------------------------------

  /** A table as the blocks it is stored in. */
  predicate TableBlocksOk(blocks: seq<Run>) {
    Sorted(Flat(blocks)) && NoEmptyBlock(blocks)
  }

  function RestrictAll(runs: seq<Run>, begin: Key, end: Key): (r: seq<Run>)
    ensures |r| == |runs|
    ensures forall i :: 0 <= i < |runs| ==> r[i] == Restrict(runs[i], begin, end)
  {
    seq(|runs|, i requires 0 <= i < |runs| => Restrict(runs[i], begin, end))
  }

  function FlatAll(tables: seq<seq<Run>>): (r: seq<Run>)
    ensures |r| == |tables|
    ensures forall i :: 0 <= i < |tables| ==> r[i] == Flat(tables[i])
  {
    seq(|tables|, i requires 0 <= i < |tables| => Flat(tables[i]))
  }

  /** scan: a cursor per memtable and table, newest first, merged with tombstones skipped. */
  method Scan(mems: seq<Run>, tables: seq<seq<Run>>, begin: Key, end: Key) returns (rows: Run)
    requires AllSorted(mems) && forall i :: 0 <= i < |tables| ==> TableBlocksOk(tables[i])
    ensures rows == RowsOf(Skip, RestrictAll(mems + FlatAll(tables), begin, end))
    ensures Sorted(rows)
    ensures forall k ::
      Find(rows, k) == (if (begin == [] || !Less(k, begin)) && (end == [] || Less(k, end))
                        then LookLive(mems + FlatAll(tables), k) else None)
  {
    hide Restrict, Flat, CursorOk, Remaining, Sorted, Find, Look, LookLive, Less, RowsOf, Streams;
    var cursors := OpenRange(mems, tables, begin, end);
    var merged := new MergingIterator(cursors, Skip);
    rows := merged.Drain();
    StoredSorted(mems, tables);
    AllRows(mems + FlatAll(tables), begin, end);
  }

  method OpenRange(mems: seq<Run>, tables: seq<seq<Run>>, begin: Key, end: Key) returns (cursors: seq<Cursor>)
    requires AllSorted(mems) && forall i :: 0 <= i < |tables| ==> TableBlocksOk(tables[i])
    ensures CursorsOk(cursors) && Streams(cursors) == RestrictAll(mems + FlatAll(tables), begin, end)
  {
    hide Restrict, Flat, CursorOk, Remaining, Sorted, Less;
    cursors := [];
    for i := 0 to |mems|
      invariant |cursors| == i && CursorsOk(cursors)
      invariant forall j :: 0 <= j < i ==> Remaining(cursors[j]) == Restrict(mems[j], begin, end)
    {
      var c := OpenMem(mems[i], begin, end);
      cursors := cursors + [c];
    }
    for i := 0 to |tables|
      invariant |cursors| == |mems| + i && CursorsOk(cursors)
      invariant forall j :: 0 <= j < |mems| ==> Remaining(cursors[j]) == Restrict(mems[j], begin, end)
      invariant forall j :: 0 <= j < i ==> Remaining(cursors[|mems| + j]) == Restrict(Flat(tables[j]), begin, end)
    {
      assert TableBlocksOk(tables[i]);
      var c := OpenTable(tables[i], begin, end);
      cursors := cursors + [c];
    }
    assert Streams(cursors) == RestrictAll(mems + FlatAll(tables), begin, end);
  }

  /** What the newest run that has a key says of it, if that is a value. */
  ghost function LookLive(runs: seq<Run>, k: Key): Option<Cell> {
    if Look(runs, k).Some? && Look(runs, k).value.Live? then Look(runs, k) else None
  }

  lemma StoredSorted(mems: seq<Run>, tables: seq<seq<Run>>)
    requires AllSorted(mems) && forall i :: 0 <= i < |tables| ==> TableBlocksOk(tables[i])
    ensures AllSorted(mems + FlatAll(tables))
  {
    hide Sorted, Flat;
  }

  lemma {:induction false} LookRestrict(runs: seq<Run>, begin: Key, end: Key, k: Key)
    requires AllSorted(runs)
    ensures AllSorted(RestrictAll(runs, begin, end))
    ensures Look(RestrictAll(runs, begin, end), k) ==
      if (begin == [] || !Less(k, begin)) && (end == [] || Less(k, end)) then Look(runs, k) else None
  {
    if runs != [] {
      RestrictFind(runs[0], begin, end, k);
      LookRestrict(runs[1..], begin, end, k);
      assert RestrictAll(runs, begin, end)[1..] == RestrictAll(runs[1..], begin, end);
    }
  }

  /** A scan's rows are in key order, live, and exactly what the stack says about keys in range. */
  lemma ScanRows(runs: seq<Run>, begin: Key, end: Key, k: Key)
    requires AllSorted(runs)
    ensures var rows := RowsOf(Skip, RestrictAll(runs, begin, end));
            && Sorted(rows)
            && Find(rows, k) ==
                 (if (begin == [] || !Less(k, begin)) && (end == [] || Less(k, end)) then LookLive(runs, k) else None)
  {
    hide Merge, Look, Restrict, WithoutTombstones, Find, Sorted;
    LookRestrict(runs, begin, end, k);
    var merged := Merge(RestrictAll(runs, begin, end));
    MergeCorrect(RestrictAll(runs, begin, end));
    WithoutTombstonesSorted(merged);
    WithoutTombstonesFind(merged, k);
  }

  lemma AllRows(runs: seq<Run>, begin: Key, end: Key)
    requires AllSorted(runs)
    ensures var rows := RowsOf(Skip, RestrictAll(runs, begin, end));
            && Sorted(rows)
            && forall k ::
               Find(rows, k) ==
                 (if (begin == [] || !Less(k, begin)) && (end == [] || Less(k, end)) then LookLive(runs, k) else None)
  {
    hide RowsOf, Find, Sorted, Less, LookLive;
    ScanRows(runs, begin, end, []);
    var rows := RowsOf(Skip, RestrictAll(runs, begin, end));
    forall k ensures Find(rows, k) ==
      (if (begin == [] || !Less(k, begin)) && (end == [] || Less(k, end)) then LookLive(runs, k) else None) {
      ScanRows(runs, begin, end, k);
    }
  }

  // -- Compaction outputs ------------------------------------------------------------------------------

  /** A table source over the whole of every table. */
  method OpenAll(tables: seq<seq<Run>>) returns (cursors: seq<Cursor>)
    requires forall i :: 0 <= i < |tables| ==> TableBlocksOk(tables[i])
    ensures CursorsOk(cursors) && Streams(cursors) == FlatAll(tables)
  {
    hide Sorted, Restrict, CursorOk, Remaining, Flat;
    cursors := [];
    for i := 0 to |tables|
      invariant |cursors| == i && CursorsOk(cursors)
      invariant forall j :: 0 <= j < i ==> Remaining(cursors[j]) == Flat(tables[j])
    {
      assert TableBlocksOk(tables[i]);
      var c := OpenTable(tables[i], [], []);
      Unrestricted(Flat(tables[i]));
      cursors := cursors + [c];
    }
  }

  /** The blocks in which the tables a compaction reads are stored. */
  ghost predicate StoredAs(work: Compaction.Work, stored: seq<seq<Run>>) {
    && |stored| == |work.inputs + work.overlaps|
    && (forall i :: 0 <= i < |stored| ==> TableBlocksOk(stored[i]))
    && FlatAll(stored) == Runs(work.inputs + work.overlaps)
  }

  /** No entry but perhaps the last takes the output to the target. */
  predicate NotBefore(out: Run, fileSize: Run -> nat, target: nat) {
    forall n :: 0 < n < |out| ==> fileSize(out[..n]) < target
  }

  /** Each output is closed by the entry that takes it to the target; the last may fall short. */
  ghost predicate CutAt(outs: seq<Run>, fileSize: Run -> nat, target: nat) {
    && (forall i :: 0 <= i < |outs| ==> NotBefore(outs[i], fileSize, target))
    && (forall i :: 0 <= i < |outs| - 1 ==> fileSize(outs[i]) >= target)
  }

  /** compact_once, the writing loop: the inputs and overlaps merged, less tombstones that may go, cut
      into outputs by size. Under whatever ids they are written, they are what installing asks for. */
  method WriteOutputs(work: Compaction.Work, stored: seq<seq<Run>>, fileSize: Run -> nat, target: nat)
      returns (outs: seq<Run>)
    requires StoredAs(work, stored)
    ensures CutAt(outs, fileSize, target)
    ensures forall tables :: Runs(tables) == outs ==> Compaction.OutputsOf(work, tables)
  {
    hide Flat, Sorted, Merge;
    var cursors := OpenAll(stored);
    var merged := new MergingIterator(cursors, Emit);
    outs := CutOutputs(merged, work.drop, fileSize, target);
    forall tables | Runs(tables) == outs ensures Compaction.OutputsOf(work, tables) {
      RunsAreOutputs(work, outs, tables);
    }
  }

  lemma RunsAreOutputs(work: Compaction.Work, outs: seq<Run>, tables: seq<Table>)
    requires NoEmptyBlock(outs) && Flat(outs) == Compaction.Surviving(work) && Runs(tables) == outs
    ensures Compaction.OutputsOf(work, tables)
  {
    hide Flat, Compaction.Surviving;
    ConcatIsFlat(tables);
    forall i | 0 <= i < |tables| ensures tables[i].run != [] {
      assert outs[i] == tables[i].run;
    }
  }

  lemma {:induction false} ConcatIsFlat(tables: seq<Table>)
    ensures Compaction.Concat(tables) == Flat(Runs(tables))
  {
    if tables != [] {
      ConcatIsFlat(tables[1..]);
      assert Runs(tables)[1..] == Runs(tables[1..]);
    }
  }

  method CutOutputs(merged: MergingIterator, drop: bool, fileSize: Run -> nat, target: nat) returns (outs: seq<Run>)
    requires merged.Ok() && merged.mode == Emit
    modifies merged
    ensures NoEmptyBlock(outs) && CutAt(outs, fileSize, target)
    ensures Flat(outs) == Kept(old(merged.Rows()), drop)
  {
    hide RowsOf, CursorsOk, Flat, Kept, Cutting, CutAt, NoEmptyBlock;
    outs := [];
    var building: Run := [];
    ghost var all := Kept(merged.Rows(), drop);
    StartsCutting(fileSize, target);
    KeptNone(drop);
    merged.FindNextLive();
    while merged.valid
      invariant merged.Ok() && Cutting(outs, building, fileSize, target)
      invariant all == (Flat(outs) + building) + Kept(merged.Pending(), drop)
      decreases if merged.valid then 1 + |merged.Rows()| else 0
    {
      ghost var rest := merged.Rows();
      KeptStep(merged.Row(), rest, drop);
      ghost var done := Flat(outs) + building;
      if !merged.tombstone || !drop {
        var row := Entry(merged.key, if merged.tombstone then Tombstone else Live(merged.value));
        outs, building := AddRow(outs, building, row, fileSize, target);
        assert row == merged.Row();
      }
      assert all == (Flat(outs) + building) + Kept(rest, drop);
      merged.FindNextLive();
    }
    EndsCutting(outs, building, fileSize, target);
    if building != [] {
      outs := outs + [building];
    }
  }

  /** One more entry into the output being built, which is closed when that takes it to the target. */
  method AddRow(outs0: seq<Run>, building0: Run, row: Entry, fileSize: Run -> nat, target: nat)
      returns (outs: seq<Run>, building: Run)
    requires Cutting(outs0, building0, fileSize, target)
    ensures Cutting(outs, building, fileSize, target) && Flat(outs) + building == Flat(outs0) + building0 + [row]
  {
    hide Flat, Cutting;
    KeepsCutting(outs0, building0, row, fileSize, target);
    outs, building := outs0, building0 + [row];
    if fileSize(building) >= target {
      outs, building := outs + [building], [];
    }
  }

  /** Part-way: the outputs so far all reached the target, the one being built has not. */
  ghost predicate Cutting(outs: seq<Run>, building: Run, fileSize: Run -> nat, target: nat) {
    && NoEmptyBlock(outs) && CutAt(outs, fileSize, target) && (outs != [] ==> fileSize(outs[|outs| - 1]) >= target)
    && NotBefore(building, fileSize, target) && (building != [] ==> fileSize(building) < target)
  }

  lemma StartsCutting(fileSize: Run -> nat, target: nat)
    ensures Cutting([], [], fileSize, target) && Flat([]) == []
  {
  }

  lemma KeepsCutting(outs: seq<Run>, building: Run, e: Entry, fileSize: Run -> nat, target: nat)
    requires Cutting(outs, building, fileSize, target)
    ensures var more := building + [e];
            && (fileSize(more) < target ==>
                  Cutting(outs, more, fileSize, target) && Flat(outs) + more == Flat(outs) + building + [e])
            && (fileSize(more) >= target ==>
                  Cutting(outs + [more], [], fileSize, target)
                      && Flat(outs + [more]) + [] == Flat(outs) + building + [e])
  {
    hide Flat;
    StillNotBefore(building, e, fileSize, target);
    FlatPush(outs, building + [e]);
  }

  lemma EndsCutting(outs: seq<Run>, building: Run, fileSize: Run -> nat, target: nat)
    requires Cutting(outs, building, fileSize, target)
    ensures var all := if building == [] then outs else outs + [building];
            NoEmptyBlock(all) && CutAt(all, fileSize, target) && Flat(all) == Flat(outs) + building
  {
    hide Flat;
    FlatPush(outs, building);
    assert building == [] ==> Flat(outs) + building == Flat(outs);
  }

  lemma StillNotBefore(out: Run, e: Entry, fileSize: Run -> nat, target: nat)
    requires NotBefore(out, fileSize, target) && (out != [] ==> fileSize(out) < target)
    ensures NotBefore(out + [e], fileSize, target)
  {
    forall n | 0 < n < |out + [e]| ensures fileSize((out + [e])[..n]) < target {
      assert (out + [e])[..n] == out[..n];
      assert out[..|out|] == out;
    }
  }

  lemma KeptNone(drop: bool)
    ensures Kept([], drop) == []
  {
  }

  /** What of a merged stream a compaction writes. */
  function Kept(run: Run, drop: bool): Run {
    if drop then WithoutTombstones(run) else run
  }

  lemma KeptStep(e: Entry, rest: Run, drop: bool)
    ensures Kept([e] + rest, drop) == (if drop && e.cell.Tombstone? then [] else [e]) + Kept(rest, drop)
  {
    assert ([e] + rest)[1..] == rest;
  }

  lemma {:induction false} Unrestricted(run: Run)
    ensures Restrict(run, [], []) == run
  {
    if run != [] {
      Unrestricted(run[1..]);
    }
  }
}
