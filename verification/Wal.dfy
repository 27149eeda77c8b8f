/** The memtable, with its running size, and the write-ahead log that rebuilds it. */
module Wal {
  import opened Keys
  import opened Entries
  import opened History
  import opened Bytes
  import opened Records
  import opened BitcaskFiles
  import opened RecordCodec
  import opened LogScan

  const EntryOverhead: nat := 64

  function EntryBytes(key: Key, cell: Cell): nat {
    |key| + (if cell.Live? then |cell.value| else 0) + EntryOverhead
  }

  /** A tombstone has no value. */
  ghost function ValueLength(cell: Cell): nat {
    match cell
    case Live(v) => |v|
    case Tombstone => 0
  }

  /** What every entry of a memtable costs, added up. */
  ghost function Footprint(m: Cells): nat
    decreases |m|
  {
    if m == map[] then 0
    else
      var k :| k in m;
      assert |m.Keys - {k}| < |m.Keys| && (m - {k}).Keys == m.Keys - {k};
      EntryBytes(k, m[k]) + Footprint(m - {k})
  }

  /** The sum does not depend on which entry is counted first. */
  lemma {:induction false} FootprintWithout(m: Cells, k: Key)
    requires k in m
    ensures Footprint(m) == EntryBytes(k, m[k]) + Footprint(m - {k})
    decreases |m|
  {
    var j :| j in m && Footprint(m) == EntryBytes(j, m[j]) + Footprint(m - {j});
    if j != k {
      assert |m.Keys - {j}| < |m.Keys| && (m - {j}).Keys == m.Keys - {j};
      assert |m.Keys - {k}| < |m.Keys| && (m - {k}).Keys == m.Keys - {k};
      FootprintWithout(m - {j}, k);
      FootprintWithout(m - {k}, j);
      assert m - {j} - {k} == m - {k} - {j};
    }
  }

  lemma FootprintSet(m: Cells, k: Key, c: Cell)
    ensures Footprint(m[k := c]) + (if k in m then EntryBytes(k, m[k]) else 0) == Footprint(m) + EntryBytes(k, c)
  {
    FootprintWithout(m[k := c], k);
    if k in m {
      FootprintWithout(m, k);
      assert m[k := c] - {k} == m - {k};
    } else {
      assert m[k := c] - {k} == m;
    }
  }

  /** The bytes of a run's keys and values, and 64 for each entry. */
  ghost function RunBytes(run: Run): nat {
    if run == [] then 0 else |run[0].key| + ValueLength(run[0].cell) + 64 + RunBytes(run[1..])
  }

  /** A memtable's footprint, read off its entries in key order. */
  lemma {:induction false} FootprintIsSum(m: Cells)
    ensures Footprint(m) == RunBytes(Listing(m))
    decreases |m|
  {
    if m != map[] {
      var k := LeastKey(m.Keys);
      assert |m.Keys - {k}| < |m.Keys| && (m - {k}).Keys == m.Keys - {k};
      FootprintWithout(m, k);
      FootprintIsSum(m - {k});
      assert Listing(m)[1..] == Listing(m - {k});
    }
  }

  class Memtable {
    var cells: Cells
    var bytes: nat

    /** The running count is the sum over the entries: overwriting never counts a key twice. */
    ghost predicate Valid()
      reads this
    {
      bytes == Footprint(cells)
    }

    constructor ()
      ensures Valid() && cells == map[]
    {
      cells, bytes := map[], 0;
    }

    method Insert(key: Key, cell: Cell)
      requires Valid()
      modifies this
      ensures Valid() && cells == old(cells)[key := cell]
      ensures bytes + (if key in old(cells) then |key| + ValueLength(old(cells)[key]) + 64 else 0)
           == old(bytes) + |key| + ValueLength(cell) + 64
    {
      FootprintSet(cells, key, cell);
      if key in cells {
        FootprintWithout(cells, key);
        bytes := bytes - EntryBytes(key, cells[key]);
      }
      cells, bytes := cells[key := cell], bytes + EntryBytes(key, cell);
    }

    method Clear()
      modifies this
      ensures Valid() && cells == map[] && bytes == 0
    {
      cells, bytes := map[], 0;
    }
  }

  function ApplyAll(m: Cells, recs: seq<Rec>, n: nat): Cells
    requires n <= |recs|
  {
    if n == 0 then m else ApplyAll(m, recs, n - 1)[recs[n - 1].key := recs[n - 1].cell]
  }

  /** Into an empty memtable, a log replays to what its writes leave behind. */
  lemma {:induction false} ApplyAllIsReplay(recs: seq<Rec>, n: nat)
    requires n <= |recs|
    ensures ApplyAll(map[], recs, n) == Replay(WritesOf(recs)[..n])
  {
    if n > 0 {
      ApplyAllIsReplay(recs, n - 1);
      assert WritesOf(recs)[..n] == WritesOf(recs)[..n - 1] + [WritesOf(recs)[n - 1]];
      ReplayAppend(WritesOf(recs)[..n - 1], WritesOf(recs)[n - 1]);
    }
  }

  /** A log cut anywhere in the write that was in flight replays to what the writes before it leave behind. */
  lemma CutLogReplays(crc: Checksum, recs: seq<Rec>, last: Rec, n: nat)
    requires (forall i :: 0 <= i < |recs| ==> Fits(recs[i])) && Fits(last) && n < RecSize(last)
    ensures var found := ScanFrom(crc, EncodeAll(crc, recs, |recs|) + Encode(crc, last)[..n], 0).recs;
            ApplyAll(map[], found, |found|) == Replay(WritesOf(recs))
  {
    hide ScanFrom, Encode, EncodeAll, ApplyAll, Replay, Fits, RecSize;
    TornTailIsDropped(crc, recs, last, n);
    ApplyAllIsReplay(recs, |recs|);
    assert WritesOf(recs)[..|recs|] == WritesOf(recs);
  }

  class Log {
    const crc: Checksum
    var file: seq<Byte>

    constructor (c: Checksum, found: seq<Byte>)
      ensures crc == c && file == found
    {
      crc, file := c, found;
    }

    ghost function Holds(): seq<Rec>
      reads this
    {
      ScanFrom(crc, file, 0).recs
    }

    /** Nothing follows the last whole record. */
    ghost predicate Clean()
      reads this
    {
      ScanFrom(crc, file, 0).end == |file|
    }

    method Append(r: Rec)
      modifies this
      ensures file == old(file) + Encode(crc, r)
      ensures old(Clean()) && Fits(r) ==> Clean() && Holds() == old(Holds()) + [r]
    {
      if Fits(r) {
        AppendSurvives(crc, file, r);
        assert Clean() ==> file[..ScanFrom(crc, file, 0).end] == file;
      }
      file := file + Encode(crc, r);
    }

    /** Replay what is whole, and cut off what is not, so that the next append is found again. */
    method ReplayInto(into: Memtable) returns (replayed: nat)
      requires into.Valid()
      modifies this, into
      ensures into.Valid() && into.cells == ApplyAll(old(into.cells), Holds(), |Holds()|)
      ensures Clean() && Holds() == old(Holds()) && replayed == |Holds()|
      ensures file <= old(file)
    {
      hide ScanFrom;
      TruncateCleans(crc, file);
      var recs, goodEnd := ScanRecords(crc, file);
      replayed := 0;
      while replayed < |recs|
        invariant 0 <= replayed <= |recs| && into.Valid() && file == old(file)
        invariant into.cells == ApplyAll(old(into.cells), recs, replayed)
      {
        into.Insert(recs[replayed].key, recs[replayed].cell);
        replayed := replayed + 1;
      }
      if goodEnd != |file| {
        file := file[..goodEnd];
      }
    }
  }
}
