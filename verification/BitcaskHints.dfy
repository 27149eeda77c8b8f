/** The store a merged file replays to, and the hint that stands in for reading it. */
module BitcaskHints {
  import opened Words
  import opened Keys
  import opened Entries
  import opened History
  import opened Records
  import opened BitcaskFiles
  import opened BitcaskSpace
  import opened BitcaskMerge

  // -- Every copied record is a live one, and no key is copied twice --------------------------------

  ghost predicate Member(index: map<Key, Ptr>, files: seq<DataFile>, f: nat, i: nat, r: Rec) {
    && f < |files| && i < |files[f].recs| && files[f].recs[i] == r
    && IsLive(index, files[f].id, files[f].recs, i)
  }

  lemma {:induction false} LiveRecsAre(index: map<Key, Ptr>, files: seq<DataFile>, f: nat, n: nat, q: nat)
    requires f < |files| && n <= |files[f].recs| && q < |LiveRecs(index, files[f].id, files[f].recs, n)|
    ensures exists i: nat :: i < n && Member(index, files, f, i, LiveRecs(index, files[f].id, files[f].recs, n)[q])
  {
    hide IsLive;
    var before := LiveRecs(index, files[f].id, files[f].recs, n - 1);
    if q < |before| {
      LiveRecsAre(index, files, f, n - 1, q);
      var i: nat :| i < n - 1 && Member(index, files, f, i, before[q]);
      assert Member(index, files, f, i, LiveRecs(index, files[f].id, files[f].recs, n)[q]);
    } else {
      assert IsLive(index, files[f].id, files[f].recs, n - 1)
          && LiveRecs(index, files[f].id, files[f].recs, n)[q] == files[f].recs[n - 1];
      assert Member(index, files, f, n - 1, files[f].recs[n - 1]);
    }
  }

  lemma {:induction false} CopiedAre(index: map<Key, Ptr>, files: seq<DataFile>, n: nat, q: nat)
    requires n <= |files| && q < |Copied(files, index, n)|
    ensures exists f: nat, i: nat :: f < n && Member(index, files, f, i, Copied(files, index, n)[q])
  {
    hide IsLive, LiveRecs;
    var before := Copied(files, index, n - 1);
    if q < |before| {
      CopiedAre(index, files, n - 1, q);
      var f: nat, i: nat :| f < n - 1 && Member(index, files, f, i, before[q]);
      assert Member(index, files, f, i, Copied(files, index, n)[q]);
    } else {
      LiveRecsAre(index, files, n - 1, |files[n - 1].recs|, q - |before|);
      var i: nat :| i < |files[n - 1].recs|
        && Member(index, files, n - 1, i,
                  LiveRecs(index, files[n - 1].id, files[n - 1].recs, |files[n - 1].recs|)[q - |before|]);
      assert Member(index, files, n - 1, i, Copied(files, index, n)[q]);
    }
  }

  predicate Distinct(recs: seq<Rec>) {
    forall p, q :: 0 <= p < q < |recs| ==> recs[p].key != recs[q].key
  }

  predicate AllPuts(recs: seq<Rec>) {
    forall q :: 0 <= q < |recs| ==> recs[q].cell.Live?
  }

  /** Two live records of one key are the same record. */
  lemma OnlyOneLive(index: map<Key, Ptr>, files: seq<DataFile>, f: nat, i: nat, g: nat, j: nat, r: Rec, s: Rec)
    requires Ascending(files) && Member(index, files, f, i, r) && Member(index, files, g, j, s) && r.key == s.key
    ensures f == g && i == j
  {
    assert files[f].id == files[g].id;
    OffsetsDiffer(files[f].recs, i, j);
  }

  lemma {:induction false} LiveRecsDistinct(index: map<Key, Ptr>, files: seq<DataFile>, f: nat, n: nat)
    requires Ascending(files) && f < |files| && n <= |files[f].recs|
    ensures Distinct(LiveRecs(index, files[f].id, files[f].recs, n))
  {
    hide IsLive;
    if n > 0 {
      LiveRecsDistinct(index, files, f, n - 1);
      if IsLive(index, files[f].id, files[f].recs, n - 1) {
        var before := LiveRecs(index, files[f].id, files[f].recs, n - 1);
        forall p | 0 <= p < |before| ensures before[p].key != files[f].recs[n - 1].key {
          LiveRecsAre(index, files, f, n - 1, p);
          var i: nat :| i < n - 1 && Member(index, files, f, i, before[p]);
          if before[p].key == files[f].recs[n - 1].key {
            OnlyOneLive(index, files, f, i, f, n - 1, before[p], files[f].recs[n - 1]);
          }
        }
      }
    }
  }

  lemma {:induction false} CopiedDistinct(index: map<Key, Ptr>, files: seq<DataFile>, n: nat)
    requires Ascending(files) && n <= |files|
    ensures Distinct(Copied(files, index, n))
  {
    hide IsLive, LiveRecs;
    if n > 0 {
      CopiedDistinct(index, files, n - 1);
      LiveRecsDistinct(index, files, n - 1, |files[n - 1].recs|);
      var before := Copied(files, index, n - 1);
      var more := LiveRecs(index, files[n - 1].id, files[n - 1].recs, |files[n - 1].recs|);
      forall p, q | 0 <= p < |before| && 0 <= q < |more| ensures before[p].key != more[q].key {
        CopiedAre(index, files, n - 1, p);
        LiveRecsAre(index, files, n - 1, |files[n - 1].recs|, q);
        var f: nat, i: nat :| f < n - 1 && Member(index, files, f, i, before[p]);
        var j: nat :| j < |files[n - 1].recs| && Member(index, files, n - 1, j, more[q]);
        if before[p].key == more[q].key {
          OnlyOneLive(index, files, f, i, n - 1, j, before[p], more[q]);
        }
      }
    }
  }

  lemma CopiedPuts(index: map<Key, Ptr>, files: seq<DataFile>, n: nat)
    requires n <= |files|
    ensures AllPuts(Copied(files, index, n))
  {
    forall q | 0 <= q < |Copied(files, index, n)| ensures Copied(files, index, n)[q].cell.Live? {
      CopiedAre(index, files, n, q);
    }
  }

  // -- The pointers compaction stages as it copies ---------------------------------------------------

  function Staged(out: nat, recs: seq<Rec>, n: nat): map<Key, Ptr>
    requires n <= |recs|
  {
    if n == 0 then map[] else Staged(out, recs, n - 1)[recs[n - 1].key := PtrTo(out, recs, n - 1)]
  }

  lemma {:induction false} StagedKeys(out: nat, recs: seq<Rec>, n: nat, k: Key)
    requires n <= |recs|
    ensures k in Staged(out, recs, n) <==> exists q :: 0 <= q < n && recs[q].key == k
  {
    hide Offset;
    if n > 0 {
      StagedKeys(out, recs, n - 1, k);
    }
  }

  /** Replaying the merged file alone rebuilds exactly the staged pointers, and finds nothing dead. */
  lemma {:induction false} StagedIsReplay(out: nat, recs: seq<Rec>, n: nat)
    requires n <= |recs| && Distinct(recs) && AllPuts(recs)
    ensures ReplayRecs(out, recs, n, Fresh) == Store(Staged(out, recs, n), map[])
  {
    hide Offset;
    if n > 0 {
      StagedIsReplay(out, recs, n - 1);
      StagedKeys(out, recs, n - 1, recs[n - 1].key);
    }
  }

  lemma StagedPush(out: nat, recs: seq<Rec>, r: Rec)
    ensures Staged(out, recs + [r], |recs| + 1)
        == Staged(out, recs, |recs|)[r.key := Ptr(out, FileSize(recs), r.ts, RecSize(r))]
  {
    StagedSame(out, recs, recs + [r], |recs|);
    OffsetSame(recs, recs + [r], |recs|);
  }

  lemma {:induction false} StagedSame(out: nat, a: seq<Rec>, b: seq<Rec>, n: nat)
    requires n <= |a| && n <= |b| && forall i :: 0 <= i < n ==> a[i] == b[i]
    ensures Staged(out, a, n) == Staged(out, b, n)
  {
    if n > 0 {
      StagedSame(out, a, b, n - 1);
      OffsetSame(a, b, n - 1);
    }
  }

  lemma {:induction false} LastHas(h: seq<Write>, k: Key)
    requires Last(h, k).Some?
    ensures exists i :: 0 <= i < |h| && h[i].key == k
  {
    if h[|h| - 1].key != k {
      LastHas(h[..|h| - 1], k);
      var i :| 0 <= i < |h[..|h| - 1]| && h[..|h| - 1][i].key == k;
      assert h[i].key == k;
    } else {
      assert h[|h| - 1].key == k;
    }
  }

  /** Every live key gets a staged pointer, so applying them replaces the whole index. */
  lemma StagedCoversIndex(files: seq<DataFile>, k: Key)
    requires Ascending(files) && |files| >= 1 && files[|files| - 1].recs == []
    ensures var merged := Copied(files, Rebuilt(files).index, |files| - 1);
            k in Rebuilt(files).index ==> k in Staged(files[0].id, merged, |merged|)
  {
    hide Last, Copied, ReplayFiles, WritesIn, Offset, Staged;
    var index, n := Rebuilt(files).index, |files| - 1;
    var merged := Copied(files, index, n);
    ReplaySound(files, |files|, k);
    if k in index {
      var f: nat, i: nat :| Holds(files, k, index[k], f, i)
          && Last(WritesIn(files, |files|), k) == Some(files[f].recs[i].cell);
      CopiedOnce(files, index, n, k, f, i);
      LastHas(WritesOf(merged), k);
      var q :| 0 <= q < |WritesOf(merged)| && WritesOf(merged)[q].key == k;
      assert merged[q].key == k;
      StagedKeys(files[0].id, merged, |merged|, k);
    }
  }

  /** Adopting the merged file leaves memory exactly as reopening the result would. */
  lemma AdoptedIsRebuilt(files: seq<DataFile>)
    requires Ascending(files) && |files| >= 2 && files[|files| - 1].recs == []
    ensures var merged := Copied(files, Rebuilt(files).index, |files| - 1);
            && Rebuilt(files).index + Staged(files[0].id, merged, |merged|) == Staged(files[0].id, merged, |merged|)
            && Rebuilt(Partway(files, merged, |files| - 1)) == Store(Staged(files[0].id, merged, |merged|), map[])
  {
    hide Copied, Offset, Staged;
    var n := |files| - 1;
    var index := Rebuilt(files).index;
    var merged := Copied(files, index, n);
    var staged := Staged(files[0].id, merged, |merged|);
    CopiedDistinct(index, files, n);
    CopiedPuts(index, files, n);
    StagedIsReplay(files[0].id, merged, |merged|);
    assert (index + staged).Keys == staged.Keys by {
      forall k | k in index ensures k in staged {
        StagedCoversIndex(files, k);
      }
    }
    TwoFiles(DataFile(files[0].id, merged, 0), files[n]);
    assert Partway(files, merged, n) == [DataFile(files[0].id, merged, 0), files[n]];
  }

  lemma TwoFiles(a: DataFile, b: DataFile)
    requires b.recs == []
    ensures Rebuilt([a, b]) == ReplayRecs(a.id, a.recs, |a.recs|, Fresh)
  {
    assert ReplayFiles([a, b], 0) == Fresh;
    assert ReplayFiles([a, b], 1) == ReplayFile(a, Fresh);
    assert ReplayFiles([a, b], 2) == ReplayFile(b, ReplayFiles([a, b], 1));
  }

  // -- Hints -----------------------------------------------------------------------------------------

  datatype HintEntry = HintEntry(key: Key, ts: nat, offset: nat, size: nat)

  datatype Hint = Hint(entries: seq<HintEntry>, dataSize: nat)

  /** The hint written beside a merged file, one entry a record. */
  function HintOf(recs: seq<Rec>): Hint {
    Hint(seq(|recs|, i requires 0 <= i < |recs| =>
        HintEntry(recs[i].key, recs[i].ts, Offset(recs, i), RecSize(recs[i]))),
         FileSize(recs))
  }

  /** The bound put on an entry: where its record would end, in 64-bit arithmetic, is inside the file. */
  predicate EndsInside(e: HintEntry, size: nat) {
    (e.offset + e.size) % Word64 <= size
  }

  /** An entry is read in one piece whose length, 28 bytes and the key, is taken to 32 bits. */
  predicate KeyReadable(e: HintEntry) {
    28 + |e.key| <= 0xFFFF_FFFF
  }

  /** A hint is taken only whole: for a data file of this length, with every entry readable and passing the bound. */
  predicate Accepts(h: Hint, size: nat) {
    h.dataSize == size && forall i :: 0 <= i < |h.entries| ==>
      EndsInside(h.entries[i], size) && KeyReadable(h.entries[i])
  }

  function ReplayHint(id: nat, entries: seq<HintEntry>, n: nat, st: Store): Store
    requires n <= |entries|
  {
    if n == 0 then st
    else
      var before, e := ReplayHint(id, entries, n - 1, st), entries[n - 1];
      Store(before.index[e.key := Ptr(id, e.offset, e.ts, e.size)], Bury(before, e.key))
  }

  predicate Describes(h: Hint, recs: seq<Rec>) {
    h == HintOf(recs) && AllPuts(recs)
  }

  lemma HintPush(recs: seq<Rec>, r: Rec)
    ensures HintOf(recs + [r]).entries == HintOf(recs).entries + [HintEntry(r.key, r.ts, FileSize(recs), RecSize(r))]
    ensures FileSize(recs + [r]) == FileSize(recs) + RecSize(r)
  {
    forall i | 0 <= i <= |recs| ensures Offset(recs + [r], i) == Offset(recs, i) {
      OffsetSame(recs + [r], recs, i);
    }
  }

  /** A merged file's own hint is accepted beside it exactly when no key is within 28 bytes of 4 GiB. */
  lemma HintAccepted(recs: seq<Rec>)
    ensures Accepts(HintOf(recs), FileSize(recs)) <==> forall i :: 0 <= i < |recs| ==> 28 + |recs[i].key| <= 0xFFFF_FFFF
  {
    var h := HintOf(recs);
    forall i | 0 <= i < |h.entries| ensures EndsInside(h.entries[i], FileSize(recs)) {
      assert Offset(recs, i + 1) == Offset(recs, i) + RecSize(recs[i]);
      if i + 1 < |recs| {
        OffsetsIncrease(recs, i + 1, |recs|);
      }
    }
    if Accepts(h, FileSize(recs)) {
      forall i | 0 <= i < |recs| ensures 28 + |recs[i].key| <= 0xFFFF_FFFF {
        assert KeyReadable(h.entries[i]);
      }
    }
  }

  /** Replaying the hint rebuilds what scanning the data file would. */
  lemma {:induction false} HintReplaysTheFile(id: nat, recs: seq<Rec>, n: nat, st: Store)
    requires n <= |recs| && AllPuts(recs)
    ensures ReplayHint(id, HintOf(recs).entries, n, st) == ReplayRecs(id, recs, n, st)
  {
    hide Offset;
    if n > 0 {
      HintReplaysTheFile(id, recs, n - 1, st);
    }
  }
}
