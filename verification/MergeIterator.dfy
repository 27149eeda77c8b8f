/** Cursors over memtables and tables, and the iterator that merges them. */
module MergeIterator {
  import opened Keys
  import opened Entries
  import opened ReadPath

  // -- Ranges -------------------------------------------------------------------------------------

  /** An empty bound means no bound. */
  predicate Below(k: Key, upper: Key) {
    upper == [] || Less(k, upper)
  }

  predicate From(k: Key, begin: Key) {
    begin == [] || !Less(k, begin)
  }

  function TakeBelow(run: Run, upper: Key): Run {
    if run == [] || !Below(run[0].key, upper) then [] else [run[0]] + TakeBelow(run[1..], upper)
  }

  /** The entries of a run with keys in [begin, end). */
  function Restrict(run: Run, begin: Key, end: Key): Run {
    if run == [] then []
    else if From(run[0].key, begin) && Below(run[0].key, end) then [run[0]] + Restrict(run[1..], begin, end)
    else Restrict(run[1..], begin, end)
  }

  lemma {:induction false} RestrictMembers(run: Run, begin: Key, end: Key, e: Entry)
    ensures e in Restrict(run, begin, end) <==>
      e in run && (begin == [] || !Less(e.key, begin)) && (end == [] || Less(e.key, end))
  {
    if run != [] {
      RestrictMembers(run[1..], begin, end, e);
      assert run == [run[0]] + run[1..];
    }
  }

  lemma {:induction false} RestrictSorted(run: Run, begin: Key, end: Key)
    requires Sorted(run)
    ensures Sorted(Restrict(run, begin, end))
  {
    if run != [] {
      var rest := Restrict(run[1..], begin, end);
      RestrictSorted(run[1..], begin, end);
      forall j | 0 <= j < |rest| ensures Less(run[0].key, rest[j].key) {
        RestrictMembers(run[1..], begin, end, rest[j]);
        var i :| 0 <= i < |run[1..]| && run[1..][i] == rest[j];
        assert run[i + 1] == rest[j];
      }
    }
  }

  /** A restricted run says what the run says about keys from begin on and short of end, an empty bound being none,
      and nothing else. */
  lemma RestrictFind(run: Run, begin: Key, end: Key, k: Key)
    requires Sorted(run)
    ensures Sorted(Restrict(run, begin, end))
    ensures Find(Restrict(run, begin, end), k) ==
      if (begin == [] || !Less(k, begin)) && (end == [] || Less(k, end)) then Find(run, k) else None
  {
    var part := Restrict(run, begin, end);
    RestrictSorted(run, begin, end);
    if Find(part, k).Some? {
      var e := Entry(k, Find(part, k).value);
      RestrictMembers(run, begin, end, e);
      FindIs(run, e);
    } else if From(k, begin) && Below(k, end) && Find(run, k).Some? {
      var e := Entry(k, Find(run, k).value);
      RestrictMembers(run, begin, end, e);
      FindIs(part, e);
      assert false;
    }
  }

  /** In a sorted run the entries from a lower bound on, cut at the upper bound, are the range. */
  lemma {:induction false} RestrictIsSlice(run: Run, at: nat, begin: Key, end: Key)
    requires Sorted(run) && at <= |run|
    requires forall i :: 0 <= i < at ==> !From(run[i].key, begin)
    requires forall i :: at <= i < |run| ==> From(run[i].key, begin)
    ensures Restrict(run, begin, end) == TakeBelow(run[at..], end)
  {
    if at > 0 {
      assert run[1..][at - 1..] == run[at..];
      RestrictIsSlice(run[1..], at - 1, begin, end);
    } else if run != [] {
      assert run[at..] == run;
      RestrictIsSlice(run[1..], 0, begin, end);
      assert run[1..][0..] == run[1..];
      if !Below(run[0].key, end) {
        NoneBelow(run, end);
      }
    }
  }

  /** Once a sorted run has reached the upper bound it stays past it. */
  lemma NoneBelow(run: Run, end: Key)
    requires Sorted(run) && run != [] && !Below(run[0].key, end)
    ensures TakeBelow(run[1..], end) == []
  {
    if |run| > 1 {
      assert Less(run[0].key, run[1].key);
      StrictTotalOrder();
    }
  }

  // -- Cursors --------------------------------------------------------------------------------------

  /** A position in a memtable's range, or in a table's, where it is a block and an entry of that block. */
  datatype Cursor =
    | MemCursor(run: Run, at: nat, upper: Key)
    | TableCursor(blocks: seq<Run>, block: nat, entry: nat, exhausted: bool, upper: Key)

  function Flat(blocks: seq<Run>): Run {
    if blocks == [] then [] else blocks[0] + Flat(blocks[1..])
  }

  predicate NoEmptyBlock(blocks: seq<Run>) {
    forall i :: 0 <= i < |blocks| ==> blocks[i] != []
  }

  predicate CursorOk(c: Cursor) {
    match c
    case MemCursor(run, at, _) => Sorted(run) && at <= |run|
    case TableCursor(blocks, block, entry, exhausted, upper) =>
      && Sorted(Flat(blocks)) && NoEmptyBlock(blocks)
      && (!exhausted ==> block < |blocks| && entry < |blocks[block]| && Below(blocks[block][entry].key, upper))
  }

  predicate Valid(c: Cursor) {
    match c
    case MemCursor(run, at, upper) => at < |run| && Below(run[at].key, upper)
    case TableCursor(_, _, _, exhausted, _) => !exhausted
  }

  function Head(c: Cursor): Entry
    requires CursorOk(c) && Valid(c)
  {
    match c
    case MemCursor(run, at, _) => run[at]
    case TableCursor(blocks, block, entry, _, _) => blocks[block][entry]
  }

  function AdvanceCursor(c: Cursor): Cursor
    requires CursorOk(c) && Valid(c)
  {
    match c
    case MemCursor(_, at, _) => c.(at := at + 1)
    case TableCursor(blocks, block, entry, _, upper) =>
      if entry + 1 < |blocks[block]| then ApplyUpper(c.(entry := entry + 1))
      else if block + 1 >= |blocks| then c.(entry := entry + 1, exhausted := true)
      else LoadBlock(c, block + 1)
  }

  function LoadBlock(c: Cursor, block: nat): Cursor
    requires c.TableCursor? && block < |c.blocks| && NoEmptyBlock(c.blocks)
  {
    ApplyUpper(c.(block := block, entry := 0, exhausted := false))
  }

  function ApplyUpper(c: Cursor): Cursor
    requires c.TableCursor? && c.block < |c.blocks| && c.entry < |c.blocks[c.block]|
  {
    if c.upper != [] && !Less(c.blocks[c.block][c.entry].key, c.upper) then c.(exhausted := true) else c
  }

  /** What a cursor has still to give. */
  function Remaining(c: Cursor): Run
    requires CursorOk(c)
  {
    match c
    case MemCursor(run, at, upper) => TakeBelow(run[at..], upper)
    case TableCursor(blocks, block, entry, exhausted, upper) =>
      if exhausted then [] else TakeBelow(blocks[block][entry..] + Flat(blocks[block + 1..]), upper)
  }

  lemma {:induction false} FlatConcat(a: seq<Run>, b: seq<Run>)
    ensures Flat(a + b) == Flat(a) + Flat(b)
  {
    if a == [] {
      assert a + b == b;
    } else {
      assert (a + b)[1..] == a[1..] + b;
      FlatConcat(a[1..], b);
    }
  }

  /** Where entry e of block b sits in the whole table. */
  lemma FlatPush(blocks: seq<Run>, b: Run)
    ensures Flat(blocks + [b]) == Flat(blocks) + b
  {
    FlatConcat(blocks, [b]);
    assert Flat([b]) == b;
  }

  lemma FlatAt(blocks: seq<Run>, b: nat, e: nat)
    requires b < |blocks| && e <= |blocks[b]|
    ensures |Flat(blocks[..b])| + e <= |Flat(blocks)|
    ensures Flat(blocks)[|Flat(blocks[..b])| + e..] == blocks[b][e..] + Flat(blocks[b + 1..])
  {
    assert blocks == blocks[..b] + blocks[b..];
    FlatConcat(blocks[..b], blocks[b..]);
    assert blocks[b..][0] == blocks[b] && blocks[b..][1..] == blocks[b + 1..];
    var front, back := Flat(blocks[..b]), Flat(blocks[b..]);
    assert Flat(blocks)[|front| + e..] == back[e..];
    assert back == blocks[b] + Flat(blocks[b + 1..]);
  }

  /** A valid cursor stands on the first thing it has to give. */
  lemma HeadIsFirst(c: Cursor)
    requires CursorOk(c)
    ensures Valid(c) <==> Remaining(c) != []
    ensures Valid(c) ==> Head(c) == Remaining(c)[0]
  {
    match c
    case MemCursor(run, at, upper) =>
      if at < |run| {
        assert run[at..][0] == run[at];
      }
    case TableCursor(blocks, block, entry, exhausted, upper) =>
      if !exhausted {
        assert (blocks[block][entry..] + Flat(blocks[block + 1..]))[0] == blocks[block][entry];
      }
  }

  /** Advancing gives up exactly that. */
  lemma AdvanceGivesHead(c: Cursor)
    requires CursorOk(c) && Valid(c)
    ensures CursorOk(AdvanceCursor(c)) && Remaining(AdvanceCursor(c)) == Remaining(c)[1..]
  {
    hide Flat, Sorted;
    match c
    case MemCursor(run, at, upper) =>
      assert run[at..][1..] == run[at + 1..];
    case TableCursor(blocks, block, entry, exhausted, upper) =>
      var here := blocks[block][entry..] + Flat(blocks[block + 1..]);
      assert here[0] == blocks[block][entry];
      assert Remaining(c)[1..] == TakeBelow(here[1..], upper);
      if entry + 1 < |blocks[block]| {
        assert here[1..] == blocks[block][entry + 1..] + Flat(blocks[block + 1..]);
        UpperApplied(c.(entry := entry + 1));
      } else if block + 1 < |blocks| {
        NextBlock(blocks, block, entry);
        UpperApplied(c.(block := block + 1, entry := 0));
      } else {
        assert blocks[block][entry..] == [blocks[block][entry]] && blocks[block + 1..] == [];
        FlatNone();
        assert here[1..] == [];
      }
  }

  lemma FlatNone()
    ensures Flat([]) == []
  {
  }

  lemma NextBlock(blocks: seq<Run>, block: nat, entry: nat)
    requires NoEmptyBlock(blocks) && block + 1 < |blocks| && entry + 1 == |blocks[block]|
    ensures (blocks[block][entry..] + Flat(blocks[block + 1..]))[1..]
        == blocks[block + 1][0..] + Flat(blocks[block + 2..])
  {
    assert blocks[block][entry..] == [blocks[block][entry]];
    assert blocks[block + 1..][1..] == blocks[block + 2..];
    assert blocks[block + 1][0..] == blocks[block + 1];
  }

  lemma UpperApplied(c: Cursor)
    requires c.TableCursor? && Sorted(Flat(c.blocks)) && NoEmptyBlock(c.blocks) && !c.exhausted
    requires c.block < |c.blocks| && c.entry < |c.blocks[c.block]|
    ensures CursorOk(ApplyUpper(c))
    ensures Remaining(ApplyUpper(c)) == TakeBelow(c.blocks[c.block][c.entry..] + Flat(c.blocks[c.block + 1..]), c.upper)
  {
    assert (c.blocks[c.block][c.entry..] + Flat(c.blocks[c.block + 1..]))[0] == c.blocks[c.block][c.entry];
  }

  // -- Opening cursors ---------------------------------------------------------------------------

  function KeysOf(run: Run): (r: seq<Key>)
    ensures |r| == |run|
    ensures forall i :: 0 <= i < |run| ==> r[i] == run[i].key
  {
    seq(|run|, i requires 0 <= i < |run| => run[i].key)
  }

  /** A cursor over a memtable, in key order, restricted to [begin, end). */
  method OpenMem(run: Run, begin: Key, end: Key) returns (c: Cursor)
    requires Sorted(run)
    ensures CursorOk(c) && Remaining(c) == Restrict(run, begin, end)
    ensures forall e :: e in Remaining(c) <==>
      e in run && (begin == [] || !Less(e.key, begin)) && (end == [] || Less(e.key, end))
  {
    forall e ensures e in Restrict(run, begin, end) <==>
      e in run && (begin == [] || !Less(e.key, begin)) && (end == [] || Less(e.key, end)) {
      RestrictMembers(run, begin, end, e);
    }
    var at := 0;
    if begin != [] {
      at := LowerBound(KeysOf(run), begin);
    }
    c := MemCursor(run, at, end);
    assert forall i :: 0 <= i < at ==> KeysOf(run)[i] == run[i].key;
    RestrictIsSlice(run, at, begin, end);
  }

  function LastKeys(blocks: seq<Run>): (r: seq<Key>)
    requires NoEmptyBlock(blocks)
    ensures |r| == |blocks|
    ensures forall i :: 0 <= i < |blocks| ==> r[i] == blocks[i][|blocks[i]| - 1].key
  {
    seq(|blocks|, i requires 0 <= i < |blocks| => blocks[i][|blocks[i]| - 1].key)
  }

  /** Entries of one block keep their order, and come before those of a later block. */
  lemma BlockOrder(blocks: seq<Run>, b: nat, e: nat, c: nat, f: nat)
    requires Sorted(Flat(blocks)) && b < |blocks| && c < |blocks| && e < |blocks[b]| && f < |blocks[c]|
    requires b < c || (b == c && e < f)
    ensures Less(blocks[b][e].key, blocks[c][f].key)
  {
    FlatIndex(blocks, b, e);
    FlatIndex(blocks, c, f);
    if b < c {
      assert blocks[..c] == blocks[..b] + ([blocks[b]] + blocks[b + 1..c]);
      FlatConcat(blocks[..b], [blocks[b]] + blocks[b + 1..c]);
      assert ([blocks[b]] + blocks[b + 1..c])[1..] == blocks[b + 1..c];
    }
  }

  lemma FlatIndex(blocks: seq<Run>, b: nat, e: nat)
    requires b < |blocks| && e < |blocks[b]|
    ensures |Flat(blocks[..b])| + e < |Flat(blocks)|
    ensures Flat(blocks)[|Flat(blocks[..b])| + e] == blocks[b][e]
  {
    FlatAt(blocks, b, e);
    var n := |Flat(blocks[..b])| + e;
    assert Flat(blocks)[n..][0] == blocks[b][e];
  }

  lemma LastKeysIncrease(blocks: seq<Run>)
    requires Sorted(Flat(blocks)) && NoEmptyBlock(blocks)
    ensures Increasing(LastKeys(blocks))
  {
    forall i, j | 0 <= i < j < |blocks| ensures Less(LastKeys(blocks)[i], LastKeys(blocks)[j]) {
      BlockOrder(blocks, i, |blocks[i]| - 1, j, |blocks[j]| - 1);
    }
  }

  lemma BlockSorted(blocks: seq<Run>, b: nat)
    requires Sorted(Flat(blocks)) && b < |blocks|
    ensures Sorted(blocks[b])
  {
    forall i, j | 0 <= i < j < |blocks[b]| ensures Less(blocks[b][i].key, blocks[b][j].key) {
      BlockOrder(blocks, b, i, b, j);
    }
  }

  /** Where the range begins: the first block whose last key reaches it, and in that block the first
      entry that does. */
  lemma {:induction false} RangeStart(blocks: seq<Run>, b: nat, e: nat, begin: Key, end: Key)
    requires Sorted(Flat(blocks)) && NoEmptyBlock(blocks) && begin != []
    requires b < |blocks| && e < |blocks[b]|
    requires forall i :: 0 <= i < b ==> Less(LastKeys(blocks)[i], begin)
    requires forall i :: 0 <= i < e ==> Less(blocks[b][i].key, begin)
    requires !Less(blocks[b][e].key, begin)
    ensures Restrict(Flat(blocks), begin, end) == TakeBelow(blocks[b][e..] + Flat(blocks[b + 1..]), end)
  {
    hide Flat, Restrict, TakeBelow;
    var at, whole := |Flat(blocks[..b])| + e, Flat(blocks);
    FlatAt(blocks, b, e);
    FlatIndex(blocks, b, e);
    if at > 0 {
      EntryBefore(blocks, b, e, begin);
      StrictTotalOrder();
    }
    forall i | at <= i < |whole| ensures From(whole[i].key, begin) {
      if i > at {
        assert Less(whole[at].key, whole[i].key);
        StrictTotalOrder();
      }
    }
    RestrictIsSlice(whole, at, begin, end);
  }

  lemma {:induction false} FrontLength(blocks: seq<Run>, b: nat)
    requires 0 < b <= |blocks|
    ensures |Flat(blocks[..b])| == |Flat(blocks[..b - 1])| + |blocks[b - 1]|
  {
    assert blocks[..b] == blocks[..b - 1] + [blocks[b - 1]];
    FlatConcat(blocks[..b - 1], [blocks[b - 1]]);
    assert [blocks[b - 1]][1..] == [];
  }

  /** The entry just before the start of the range is below it. */
  lemma EntryBefore(blocks: seq<Run>, b: nat, e: nat, begin: Key)
    requires NoEmptyBlock(blocks) && b < |blocks| && e < |blocks[b]|
    requires forall i :: 0 <= i < b ==> Less(LastKeys(blocks)[i], begin)
    requires forall i :: 0 <= i < e ==> Less(blocks[b][i].key, begin)
    requires 0 < |Flat(blocks[..b])| + e <= |Flat(blocks)|
    ensures Less(Flat(blocks)[|Flat(blocks[..b])| + e - 1].key, begin)
  {
    hide Flat;
    if e > 0 {
      FlatIndex(blocks, b, e - 1);
    } else {
      if b == 0 {
        assert blocks[..0] == [];
        FlatNone();
        assert false;
      }
      FrontLength(blocks, b);
      FlatIndex(blocks, b - 1, |blocks[b - 1]| - 1);
      assert Less(LastKeys(blocks)[b - 1], begin);
    }
  }

  /** A cursor over a table, through the last-key index and into the one block the range starts in. */
  method OpenTable(blocks: seq<Run>, begin: Key, end: Key) returns (c: Cursor)
    requires Sorted(Flat(blocks)) && NoEmptyBlock(blocks)
    ensures CursorOk(c) && Remaining(c) == Restrict(Flat(blocks), begin, end)
    ensures forall e :: e in Remaining(c) <==>
      e in Flat(blocks) && (begin == [] || !Less(e.key, begin)) && (end == [] || Less(e.key, end))
  {
    forall e ensures e in Restrict(Flat(blocks), begin, end) <==>
      e in Flat(blocks) && (begin == [] || !Less(e.key, begin)) && (end == [] || Less(e.key, end)) {
      RestrictMembers(Flat(blocks), begin, end, e);
    }
    c := TableCursor(blocks, 0, 0, true, end);
    if blocks == [] {
      return;
    }
    var first := 0;
    var entry := 0;
    if begin != [] {
      LastKeysIncrease(blocks);
      first := LowerBound(LastKeys(blocks), begin);
      if first == |blocks| {
        AllBefore(blocks, begin, end);
        return;
      }
      BlockSorted(blocks, first);
      entry := LowerBound(KeysOf(blocks[first]), begin);
      BlockReaches(blocks[first], begin, entry);
      RangeStart(blocks, first, entry, begin, end);
    } else {
      assert blocks[0][0..] == blocks[0];
      RestrictIsSlice(Flat(blocks), 0, begin, end);
      assert Flat(blocks)[0..] == Flat(blocks);
    }
    UpperApplied(TableCursor(blocks, first, entry, false, end));
    c := ApplyUpper(TableCursor(blocks, first, entry, false, end));
  }

  /** The chosen block's last key reaches the bound, so some entry of it does. */
  lemma BlockReaches(run: Run, begin: Key, entry: nat)
    requires run != [] && !Less(run[|run| - 1].key, begin) && entry <= |run|
    requires forall i :: 0 <= i < entry ==> Less(KeysOf(run)[i], begin)
    requires forall i :: entry <= i < |run| ==> AtMost(begin, KeysOf(run)[i])
    ensures entry < |run| && !Less(run[entry].key, begin)
    ensures forall i :: 0 <= i < entry ==> Less(run[i].key, begin)
  {
    assert KeysOf(run)[|run| - 1] == run[|run| - 1].key;
    if entry < |run| {
      assert KeysOf(run)[entry] == run[entry].key;
    }
    forall i | 0 <= i < entry ensures Less(run[i].key, begin) {
      assert KeysOf(run)[i] == run[i].key;
    }
  }

  lemma AllBefore(blocks: seq<Run>, begin: Key, end: Key)
    requires Sorted(Flat(blocks)) && NoEmptyBlock(blocks) && blocks != [] && begin != []
    requires forall i :: 0 <= i < |blocks| ==> Less(LastKeys(blocks)[i], begin)
    ensures Restrict(Flat(blocks), begin, end) == []
  {
    hide Flat, Restrict, TakeBelow;
    var whole, b := Flat(blocks), |blocks| - 1;
    assert blocks[..b + 1] == blocks;
    FrontLength(blocks, b + 1);
    FlatIndex(blocks, b, |blocks[b]| - 1);
    assert whole[|whole| - 1].key == LastKeys(blocks)[b];
    StrictTotalOrder();
    RestrictIsSlice(whole, |whole|, begin, end);
    assert whole[|whole|..] == [];
    NothingBelow(end);
  }

  lemma NothingBelow(end: Key)
    ensures TakeBelow([], end) == []
  {
  }
}
