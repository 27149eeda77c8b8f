/** The merge at the heart of compaction: which records it copies, and what they replay to. */
module BitcaskMerge {
  import opened Keys
  import opened Entries
  import opened History
  import opened Records
  import opened BitcaskFiles
  import opened BitcaskSpace

  /** The live records among the first n of a file, in order. */
  function LiveRecs(index: map<Key, Ptr>, id: nat, recs: seq<Rec>, n: nat): seq<Rec>
    requires n <= |recs|
  {
    if n == 0 then []
    else if IsLive(index, id, recs, n - 1) then LiveRecs(index, id, recs, n - 1) + [recs[n - 1]]
    else LiveRecs(index, id, recs, n - 1)
  }

  /** What merging the first n files writes. */
  function Copied(files: seq<DataFile>, index: map<Key, Ptr>, n: nat): seq<Rec>
    requires n <= |files|
  {
    if n == 0 then []
    else Copied(files, index, n - 1) + LiveRecs(index, files[n - 1].id, files[n - 1].recs, |files[n - 1].recs|)
  }

  // -- Sizes ----------------------------------------------------------------------------------

  lemma {:induction false} SizeConcat(a: seq<Rec>, b: seq<Rec>)
    ensures FileSize(a + b) == FileSize(a) + FileSize(b)
  {
    if b == [] {
      assert a + b == a;
    } else {
      var c := b[..|b| - 1];
      SizeConcat(a, c);
      OffsetSame(a + b, a + c, |a + c|);
      OffsetSame(b, c, |c|);
    }
  }

  lemma {:induction false} LiveRecsSize(index: map<Key, Ptr>, id: nat, recs: seq<Rec>, n: nat)
    requires n <= |recs|
    ensures FileSize(LiveRecs(index, id, recs, n)) == LiveIn(index, id, recs, n)
  {
    hide IsLive;
    if n > 0 {
      LiveRecsSize(index, id, recs, n - 1);
      SizeConcat(LiveRecs(index, id, recs, n - 1), [recs[n - 1]]);
      assert Offset([recs[n - 1]], 0) == 0;
    }
  }

  /** The merged file holds exactly the live bytes. */
  lemma {:induction false} CopiedSize(files: seq<DataFile>, index: map<Key, Ptr>, n: nat)
    requires n <= |files|
    ensures FileSize(Copied(files, index, n)) == TotalLive(files, n, index)
  {
    hide LiveRecs, LiveIn;
    if n > 0 {
      CopiedSize(files, index, n - 1);
      LiveRecsSize(index, files[n - 1].id, files[n - 1].recs, |files[n - 1].recs|);
      SizeConcat(Copied(files, index, n - 1), LiveRecs(index, files[n - 1].id, files[n - 1].recs, |files[n - 1].recs|));
    }
  }

  // -- Contents ---------------------------------------------------------------------------------

  lemma WritesPush(recs: seq<Rec>, r: Rec)
    ensures WritesOf(recs + [r]) == WritesOf(recs) + [Write(r.key, r.cell)]
  {
  }

  lemma WritesJoin(a: seq<Rec>, b: seq<Rec>)
    ensures WritesOf(a + b) == WritesOf(a) + WritesOf(b)
  {
  }

  /** A key the index points into file f at record i is copied from there and nowhere else. */
  lemma {:induction false} CopiesOnlyThere(files: seq<DataFile>, index: map<Key, Ptr>, h: nat, n: nat, k: Key, f: nat,
      i: nat)
    requires Ascending(files) && h < |files| && n <= |files[h].recs|
    requires k in index && Holds(files, k, index[k], f, i)
    ensures Last(WritesOf(LiveRecs(index, files[h].id, files[h].recs, n)), k)
         == if h == f && i < n then Some(files[f].recs[i].cell) else None
  {
    hide Last;
    var recs := files[h].recs;
    if n == 0 {
      LastEmpty(WritesOf(LiveRecs(index, files[h].id, recs, 0)), k);
    } else {
      CopiesOnlyThere(files, index, h, n - 1, k, f, i);
      var before := LiveRecs(index, files[h].id, recs, n - 1);
      if recs[n - 1].key == k && IsLive(index, files[h].id, recs, n - 1) {
        assert h == f;
        OffsetsDiffer(recs, i, n - 1);
      }
      if IsLive(index, files[h].id, recs, n - 1) {
        WritesPush(before, recs[n - 1]);
        LastPush(WritesOf(before), Write(recs[n - 1].key, recs[n - 1].cell), k);
      }
    }
  }

  lemma {:induction false} CopiesNothing(index: map<Key, Ptr>, id: nat, recs: seq<Rec>, n: nat, k: Key)
    requires n <= |recs| && k !in index
    ensures Last(WritesOf(LiveRecs(index, id, recs, n)), k) == None
  {
    hide Last, Offset;
    if n == 0 {
      LastEmpty(WritesOf(LiveRecs(index, id, recs, 0)), k);
    } else {
      CopiesNothing(index, id, recs, n - 1, k);
      if IsLive(index, id, recs, n - 1) {
        WritesPush(LiveRecs(index, id, recs, n - 1), recs[n - 1]);
        LastPush(WritesOf(LiveRecs(index, id, recs, n - 1)), Write(recs[n - 1].key, recs[n - 1].cell), k);
      }
    }
  }

  lemma {:induction false} CopiedOnce(files: seq<DataFile>, index: map<Key, Ptr>, n: nat, k: Key, f: nat, i: nat)
    requires Ascending(files) && n <= |files| && k in index && Holds(files, k, index[k], f, i)
    ensures Last(WritesOf(Copied(files, index, n)), k) == if f < n then Some(files[f].recs[i].cell) else None
  {
    hide Last, Offset, LiveRecs;
    if n == 0 {
      LastEmpty(WritesOf(Copied(files, index, 0)), k);
    } else {
      CopiedOnce(files, index, n - 1, k, f, i);
      var file := files[n - 1];
      CopiesOnlyThere(files, index, n - 1, |file.recs|, k, f, i);
      WritesJoin(Copied(files, index, n - 1), LiveRecs(index, file.id, file.recs, |file.recs|));
      LastConcat(WritesOf(Copied(files, index, n - 1)), WritesOf(LiveRecs(index, file.id, file.recs, |file.recs|)), k);
    }
  }

  lemma {:induction false} CopiedNever(files: seq<DataFile>, index: map<Key, Ptr>, n: nat, k: Key)
    requires n <= |files| && k !in index
    ensures Last(WritesOf(Copied(files, index, n)), k) == None
  {
    hide Last, Offset, LiveRecs;
    if n == 0 {
      LastEmpty(WritesOf(Copied(files, index, 0)), k);
    } else {
      CopiedNever(files, index, n - 1, k);
      var file := files[n - 1];
      CopiesNothing(index, file.id, file.recs, |file.recs|, k);
      WritesJoin(Copied(files, index, n - 1), LiveRecs(index, file.id, file.recs, |file.recs|));
      LastConcat(WritesOf(Copied(files, index, n - 1)), WritesOf(LiveRecs(index, file.id, file.recs, |file.recs|)), k);
    }
  }

  // -- Part-way through an install ------------------------------------------------------------------

  lemma {:induction false} WritesInConcat(a: seq<DataFile>, b: seq<DataFile>)
    ensures WritesIn(a + b, |a + b|) == WritesIn(a, |a|) + WritesIn(b, |b|)
  {
    hide WritesOf, WritesIn;
    if b == [] {
      assert a + b == a;
      NoWrites(b);
    } else {
      var c := b[..|b| - 1];
      WritesInConcat(a, c);
      WritesInSame(a + b, a + c, |a + c|);
      WritesInSame(b, c, |c|);
      WritesInStep(a + b, |a + b|);
      WritesInStep(b, |b|);
    }
  }

  lemma WritesInStep(files: seq<DataFile>, n: nat)
    requires 0 < n <= |files|
    ensures WritesIn(files, n) == WritesIn(files, n - 1) + WritesOf(files[n - 1].recs)
  {
  }

  lemma NoWrites(files: seq<DataFile>)
    ensures WritesIn(files, 0) == []
  {
  }

  lemma {:induction false} WritesInSame(a: seq<DataFile>, b: seq<DataFile>, n: nat)
    requires n <= |a| && n <= |b| && forall i :: 0 <= i < n ==> a[i].recs == b[i].recs
    ensures WritesIn(a, n) == WritesIn(b, n)
  {
    if n > 0 {
      WritesInSame(a, b, n - 1);
    }
  }

  /** The output under the lowest id, and every input from number j on still there. */
  function Partway(files: seq<DataFile>, merged: seq<Rec>, j: nat): seq<DataFile>
    requires 1 <= j <= |files|
  {
    [DataFile(files[0].id, merged, 0)] + files[j..]
  }

  /**
   * No input that is still there can be outvoted, and nothing it said can come back once it is
   * gone: from the rename to the last delete, every set of files replays to the same map.
   */
  lemma PartwaySame(files: seq<DataFile>, j: nat, k: Key)
    requires Ascending(files) && 1 <= j <= |files| - 1 && files[|files| - 1].recs == []
    ensures Get(Contents(Partway(files, Copied(files, Rebuilt(files).index, |files| - 1), j)), k)
        == Get(Contents(files), k)
  {
    hide Last, Copied, PlainMap, ReplayFiles, WritesIn, Offset;
    var index, n := Rebuilt(files).index, |files| - 1;
    var merged := Copied(files, index, n);
    var part := Partway(files, merged, j);
    WritesInConcat([DataFile(files[0].id, merged, 0)], files[j..]);
    assert files == files[..j] + files[j..];
    WritesInConcat(files[..j], files[j..]);
    OneFile(DataFile(files[0].id, merged, 0));
    var rest := WritesIn(files[j..], |files[j..]|);
    LastConcat(WritesOf(merged), rest, k);
    LastConcat(WritesIn(files[..j], j), rest, k);
    ReplaySound(files, |files|, k);
    LastIsPlainMap(WritesIn(files, |files|), k);
    LastIsPlainMap(WritesIn(part, |part|), k);
    if k in index {
      var f: nat, i: nat :| Holds(files, k, index[k], f, i)
          && Last(WritesIn(files, |files|), k) == Some(files[f].recs[i].cell);
      CopiedOnce(files, index, n, k, f, i);
    } else {
      CopiedNever(files, index, n, k);
    }
  }

  lemma OneFile(file: DataFile)
    ensures WritesIn([file], 1) == WritesOf(file.recs)
  {
    assert WritesIn([file], 0) == [];
  }

  /** Every directory compaction passes through between the rename and its end holds the same map. */
  lemma PartwayContents(files: seq<DataFile>, j: nat)
    requires Ascending(files) && 1 <= j <= |files| - 1 && files[|files| - 1].recs == []
    ensures Contents(Partway(files, Copied(files, Rebuilt(files).index, |files| - 1), j)) == Contents(files)
  {
    hide Copied, Contents, Rebuilt, Partway;
    forall k ensures Get(Contents(Partway(files, Copied(files, Rebuilt(files).index, |files| - 1), j)), k)
        == Get(Contents(files), k) {
      PartwaySame(files, j, k);
    }
    SameMaps(Contents(Partway(files, Copied(files, Rebuilt(files).index, |files| - 1), j)), Contents(files));
  }
}
