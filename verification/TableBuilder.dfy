/** SSTableBuilder: entries in, blocks cut by size, and a file that serves exactly what was added. */
module TableBuilder {
  import opened Words
  import opened Keys
  import opened Entries
  import opened Bytes
  import opened Bloom
  import opened MergeIterator
  import opened SstableCodec
  import opened Sstable
  import opened TableSizes

  datatype Status = Ok | InvalidArgument

  /** Why an entry is turned away before anything is written. */
  predicate Refused(finished: bool, last: Option<Key>, e: Entry) {
    finished || e.key == [] || (last.Some? && !Less(last.value, e.key)) || EntrySize(e) > U32Max
  }

  ghost function HashesOf(hash: Hash, run: Run): seq<U64> {
    seq<U64>(|run|, i requires 0 <= i < |run| => hash(run[i].key))
  }

  /** Entries that have been let in, in order. */
  ghost predicate Admitted(run: Run) {
    Sorted(run) && forall i :: 0 <= i < |run| ==> EntryFits(run[i])
  }

  lemma AdmitOne(run: Run, e: Entry)
    requires Admitted(run) && !Refused(false, if run == [] then None else Some(LastKey(run)), e)
    ensures Admitted(run + [e])
  {
    forall i | 0 <= i < |run| ensures Less(run[i].key, e.key) {
      if i < |run| - 1 {
        Transitive(run[i].key, LastKey(run), e.key);
      }
    }
  }

  lemma HashPush(hash: Hash, run: Run, e: Entry)
    ensures HashesOf(hash, run + [e]) == HashesOf(hash, run) + [hash(e.key)]
  {
  }

  lemma BlockPush(es: Run, e: Entry)
    ensures BlockBytes(es + [e], |es| + 1) == BlockBytes(es, |es|) + EncodeEntry(e)
  {
    BlockSame(es, es + [e], |es|);
  }

  lemma {:induction false} BlockSame(a: Run, b: Run, n: nat)
    requires n <= |a| && n <= |b| && forall i :: 0 <= i < n ==> a[i] == b[i]
    ensures BlockBytes(a, n) == BlockBytes(b, n)
  {
    if n > 0 {
      BlockSame(a, b, n - 1);
    }
  }

  lemma DataPush(crc: Checksum, blocks: seq<Run>, b: Run)
    ensures Data(crc, blocks + [b], |blocks| + 1) == Data(crc, blocks, |blocks|) + SealedBlock(crc, b)
  {
    DataSame(crc, blocks, blocks + [b], |blocks|);
  }

  lemma {:induction false} DataSame(crc: Checksum, a: seq<Run>, b: seq<Run>, n: nat)
    requires n <= |a| && n <= |b| && forall i :: 0 <= i < n ==> a[i] == b[i]
    ensures Data(crc, a, n) == Data(crc, b, n)
  {
    hide SealedBlock;
    if n > 0 {
      DataSame(crc, a, b, n - 1);
    }
  }

  lemma IndexPush(crc: Checksum, blocks: seq<Run>, b: Run)
    requires NoEmptyBlock(blocks) && b != []
    ensures IndexOf(crc, blocks + [b])
         == IndexOf(crc, blocks) + [IndexEntry(LastKey(b), |Data(crc, blocks, |blocks|)|, |SealedBlock(crc, b)|)]
  {
    hide Data, SealedBlock;
    forall i | 0 <= i <= |blocks| ensures Data(crc, blocks + [b], i) == Data(crc, blocks, i) {
      DataSame(crc, blocks, blocks + [b], i);
    }
  }

  lemma BlocksFit(blocks: seq<Run>)
    requires Admitted(Flat(blocks)) && NoEmptyBlock(blocks)
    ensures Storable(blocks)
  {
    hide Flat, EntryFits;
    forall i, j | 0 <= i < |blocks| && 0 <= j < |blocks[i]| ensures EntryFits(blocks[i][j]) {
      FlatIndex(blocks, i, j);
    }
  }

  // -- Where blocks are cut -----------------------------------------------------------------------

  /** Sizes are sizes of bytes. */
  lemma {:induction false} BlockLength(es: Run, n: nat)
    requires n <= |es|
    ensures |BlockBytes(es, n)| == BlockSize(es, n)
  {
    hide EncodeEntry;
    if n > 0 {
      BlockLength(es, n - 1);
    }
  }

  lemma SealedLength(crc: Checksum, block: Run)
    ensures |SealedBlock(crc, block)| == BlockSize(block, |block|) + BlockTrailerSize
  {
    BlockLength(block, |block|);
  }

  lemma {:induction false} IndexLength(crc: Checksum, blocks: seq<Run>, n: nat)
    requires n <= |blocks| && NoEmptyBlock(blocks)
    ensures |IndexBytes(IndexOf(crc, blocks), n)| == IndexSize(blocks, n)
  {
    hide EncodeIndexEntry, Data, SealedBlock;
    if n > 0 {
      IndexLength(crc, blocks, n - 1);
      IndexStep(IndexOf(crc, blocks), n - 1);
    }
  }

  lemma SealedIndexLength(crc: Checksum, blocks: seq<Run>)
    requires NoEmptyBlock(blocks)
    ensures |SealedIndex(crc, blocks)| == IndexSize(blocks, |blocks|) + BlockTrailerSize
  {
    IndexLength(crc, blocks, |blocks|);
  }

  lemma {:induction false} SizeSame(a: Run, b: Run, n: nat)
    requires n <= |a| && n <= |b| && forall i :: 0 <= i < n ==> a[i] == b[i]
    ensures BlockSize(a, n) == BlockSize(b, n)
  {
    if n > 0 {
      SizeSame(a, b, n - 1);
    }
  }

  lemma {:induction false} FillFacts(run: Run, n: nat, blockSize: nat)
    requires n <= |run|
    ensures var f := Fill(run, n, blockSize);
            && NoEmptyBlock(f.blocks) && Flat(f.blocks) + f.pending == run[..n]
            && (forall i :: 0 <= i < |f.blocks| ==> JustFull(f.blocks[i], blockSize))
            && (forall m :: 0 < m <= |f.pending| ==> BlockSize(f.pending, m) < blockSize)
  {
    hide Flat, BlockSize;
    if n == 0 {
      FlatNone();
    } else {
      FillFacts(run, n - 1, blockSize);
      var f := Fill(run, n - 1, blockSize);
      var p := f.pending + [run[n - 1]];
      forall m | 0 < m <= |f.pending| ensures BlockSize(p, m) == BlockSize(f.pending, m) {
        SizeSame(p, f.pending, m);
      }
      FlatPush(f.blocks, p);
      assert run[..n] == run[..n - 1] + [run[n - 1]];
      assert Flat(f.blocks) + p == (Flat(f.blocks) + f.pending) + [run[n - 1]];
      assert Flat(f.blocks + [p]) + [] == Flat(f.blocks + [p]);
    }
  }

  /**
   * The cut loses nothing and keeps the order; every block but the last reaches the block size with
   * its last entry and not before.
   */
  lemma CutFacts(run: Run, blockSize: nat)
    ensures NoEmptyBlock(Cut(run, blockSize)) && Flat(Cut(run, blockSize)) == run
    ensures forall i :: 0 <= i < |Cut(run, blockSize)| - 1 ==> JustFull(Cut(run, blockSize)[i], blockSize)
  {
    hide Flat, BlockSize, Fill, JustFull;
    FillFacts(run, |run|, blockSize);
    var f := Fill(run, |run|, blockSize);
    FlatPush(f.blocks, f.pending);
    assert run[..|run|] == run;
    assert f.pending == [] ==> Flat(f.blocks) + f.pending == Flat(f.blocks);
  }

  lemma {:induction false} FillGrows(run: Run, n: nat, m: nat, blockSize: nat)
    requires n <= m <= |run|
    ensures Fill(run, n, blockSize).blocks <= Fill(run, m, blockSize).blocks
  {
    hide BlockSize;
    if n < m {
      FillGrows(run, n, m - 1, blockSize);
    }
  }

  class Builder {
    const crc: Checksum
    const hash: Hash
    const blockSize: nat
    const bitsPerKey: nat
    var file: seq<Byte>
    var block: seq<Byte>
    var blockLast: Key
    var last: Option<Key>
    var index: seq<IndexEntry>
    var hashes: seq<U64>
    var entries: nat
    var finished: bool

    /** The blocks already written, and the entries of the one being filled. */
    ghost var blocks: seq<Run>
    ghost var pending: Run

    ghost function Added(): Run
      reads this
    {
      Flat(blocks) + pending
    }

    ghost predicate Valid()
      reads this
    {
      && Admitted(Added()) && NoEmptyBlock(blocks)
      && (forall i :: 0 <= i < |blocks| ==> |SealedBlock(crc, blocks[i])| <= U32Max)
      && (!finished ==> file == Data(crc, blocks, |blocks|))
      && block == BlockBytes(pending, |pending|)
      && (pending != [] ==> blockLast == LastKey(pending))
      && last == (if Added() == [] then None else Some(LastKey(Added())))
      && index == IndexOf(crc, blocks)
      && hashes == HashesOf(hash, Added()) && entries == |Added()|
    }

    constructor (c: Checksum, h: Hash, size: nat, bits: nat)
      ensures Valid() && Added() == [] && blocks == [] && pending == [] && !finished && crc == c && hash == h
          && blockSize == size && bitsPerKey == bits
    {
      crc, hash, blockSize, bitsPerKey := c, h, size, bits;
      file, block, blockLast, last, index, hashes, entries, finished := [], [], [], None, [], [], 0, false;
      blocks, pending := [], [];
    }

    /** add: a block is cut as soon as it has grown to the block size. */
    method Add(e: Entry) returns (s: Status)
      requires Valid()
      modifies this
      ensures Valid() && finished == old(finished)
      ensures old(Refused(finished, last, e)) ==> s == InvalidArgument && Added() == old(Added()) && file == old(file)
      ensures !old(Refused(finished, last, e)) ==> Added() == old(Added()) + [e]
      ensures !old(Refused(finished, last, e)) ==>
          s == (if |block| + BlockTrailerSize > U32Max && |block| >= blockSize then InvalidArgument else Ok)
      ensures s == Ok ==> Filling(blocks, pending) == Fed(old(Filling(blocks, pending)), e, blockSize)
      ensures s != Ok && !old(Refused(finished, last, e)) ==> blocks == old(blocks) && pending == old(pending) + [e]
    {
      hide Flat, Data, Sorted, EntryFits, Less, SealedBlock, HashesOf, BlockBytes, Admitted, IndexOf;
      if Refused(finished, last, e) {
        return InvalidArgument;
      }
      Take(e);
      PendingBytes(pending);
      BlockLength(pending, |pending|);
      s := Ok;
      if |block| >= blockSize {
        s := FlushBlock();
      }
    }

    /** Into the block being filled. */
    method Take(e: Entry)
      requires Valid() && !Refused(finished, last, e)
      modifies this
      ensures Valid() && !finished && Added() == old(Added()) + [e] && pending == old(pending) + [e]
          && blocks == old(blocks)
    {
      hide Flat, Data, EncodeEntry, SealedBlock, HashesOf, IndexOf, BlockBytes, Admitted, Less;
      ghost var before := Added();
      AdmitOne(before, e);
      BlockPush(pending, e);
      assert Flat(blocks) + (pending + [e]) == before + [e];
      HashPush(hash, before, e);
      hashes := hashes + [hash(e.key)];
      block := block + EncodeEntry(e);
      pending := pending + [e];
      blockLast, last, entries := e.key, Some(e.key), entries + 1;
    }

    method FlushBlock() returns (s: Status)
      requires Valid() && !finished
      modifies this
      ensures Valid() && Added() == old(Added()) && finished == old(finished)
      ensures s == if old(|block|) + BlockTrailerSize > U32Max && old(pending) != [] then InvalidArgument else Ok
      ensures s == Ok ==> pending == [] && block == [] && blocks == Closed(old(Filling(blocks, pending)))
      ensures s != Ok ==> block == old(block) && pending == old(pending) && blocks == old(blocks)
    {
      hide Flat, Data, Sorted, EntryFits, Less, HashesOf, BlockBytes, Admitted, IndexOf;
      PendingBytes(pending);
      PendingBytes([]);
      if block == [] {
        return Ok;
      }
      if |block| + BlockTrailerSize > U32Max {
        return InvalidArgument;
      }
      DataPush(crc, blocks, pending);
      IndexPush(crc, blocks, pending);
      FlatPush(blocks, pending);
      assert Flat(blocks) + pending + [] == Added();
      var sealed := Seal(crc, block);
      index := index + [IndexEntry(blockLast, |file|, |sealed|)];
      file := file + sealed;
      blocks, pending := blocks + [pending], [];
      block, blockLast := [], [];
      s := Ok;
    }

    /** finish: the last block, the filter, the index, and the footer that finds them. */
    method Finish() returns (s: Status, f: Filter)
      requires Valid()
      modifies this
      ensures Valid() && Added() == old(Added())
      ensures s == Ok ==> !old(finished) && |SealedIndex(crc, blocks)| <= U32Max
      ensures s != Ok ==>
        || old(finished)
        || (pending == old(pending) != [] && blocks == old(blocks) && |block| + BlockTrailerSize > U32Max)
        || (blocks == Closed(old(Filling(blocks, pending))) && |SealedIndex(crc, blocks)| > U32Max)
      ensures s == Ok ==> blocks == Closed(old(Filling(blocks, pending)))
      ensures s == Ok ==> finished && pending == [] && Added() == Flat(blocks) && Storable(blocks)
      ensures s == Ok ==> FilterOk(f) && f.numBits <= U32Max && f.numProbes < 256
      ensures s == Ok ==> forall i :: 0 <= i < |Flat(blocks)| ==> Admits(f, hash(Flat(blocks)[i].key))
      ensures s == Ok ==>
        && |EncodeFilter(crc, f)| <= U32Max
        && |file| == |Data(crc, blocks, |blocks|)| + |EncodeFilter(crc, f)| + |SealedIndex(crc, blocks)| + FooterSize
      ensures s == Ok && |file| <= U64Max && entries <= U64Max ==>
        SizesFit(crc, blocks, |EncodeFilter(crc, f)|) && file == TableFile(crc, blocks, EncodeFilter(crc, f))
    {
      hide Flat, Data, Sorted, EntryFits, Less, SealedBlock, EncodeFilter, Admits, Marked, FilterOk, IndexBytes,
           EncodeFooter;
      f := Filter(0, 0, []);
      if finished {
        return InvalidArgument, f;
      }
      s := FlushBlock();
      if s != Ok {
        return;
      }
      assert Added() == Flat(blocks);
      BlocksFit(blocks);
      f := BuildFilter(hashes, bitsPerKey);
      EveryKeyAdmitted(f, hash, Flat(blocks));
      var filter := EncodeFilter(crc, f);
      FilterIsSmall(crc, f);
      if |filter| > U32Max {
        return InvalidArgument, f;
      }
      var sealed := Seal(crc, IndexBytes(index, |index|));
      if |sealed| > U32Max {
        return InvalidArgument, f;
      }
      var footer := Footer(Word(|file| + |filter|), |sealed|, Word(|file|), |filter|, Word(entries));
      file := file + filter + sealed + EncodeFooter(crc, footer);
      finished := true;
    }
  }

  lemma FilterIsSmall(crc: Checksum, f: Filter)
    requires f.numBits <= U32Max && f.numProbes < 256 && f.numBits == |f.bits| * 8
    ensures |EncodeFilter(crc, f)| <= U32Max
  {
  }

  /** A 64-bit field. */
  function Word(n: nat): (w: U64)
    ensures n <= U64Max ==> w == n
  {
    n % Word64
  }

  lemma EveryKeyAdmitted(f: Filter, hash: Hash, run: Run)
    requires FilterOk(f) && forall h :: 0 <= h < |HashesOf(hash, run)| ==> Admits(f, HashesOf(hash, run)[h])
    ensures forall i :: 0 <= i < |run| ==> Admits(f, hash(run[i].key))
  {
    hide Admits;
    forall i | 0 <= i < |run| ensures Admits(f, hash(run[i].key)) {
      assert Admits(f, HashesOf(hash, run)[i]);
    }
  }

  lemma PendingBytes(es: Run)
    ensures BlockBytes(es, |es|) == [] <==> es == []
  {
  }

  /** Room for the filter, the index and the footer, each under 4 GiB. */
  const Slack: nat := 0x3_0000_0000

  /** Every offset into the file, and the entry count, fits 64 bits. */
  predicate Addressable(crc: Checksum, blocks: seq<Run>) {
    |Data(crc, blocks, |blocks|)| + Slack <= U64Max && |Flat(blocks)| <= U64Max
  }

  /**
   * Write a run to a table and open it. It opens exactly when there is a block size, the run is in
   * order, and no block of the cut nor its index is too large; and then it serves exactly the run.
   */
  method BuildTable(c: Checksum, h: Hash, blockSize: nat, bitsPerKey: nat, run: Run) returns (r: Option<Opened>)
    ensures NoEmptyBlock(Cut(run, blockSize)) && Flat(Cut(run, blockSize)) == run
    ensures r.Some? ==> Admitted(run) && Buildable(run, blockSize)
    ensures Admitted(run) && Buildable(run, blockSize) && Addressable(c, Cut(run, blockSize)) ==>
      r.Some? && Serves(c, h, r.value, Cut(run, blockSize))
  {
    hide Flat, Data, Sorted, EntryFits, Less, SealedBlock, EncodeFilter, Admits, TableFile, Load, Serves,
         SealedIndex, BlockBytes, HashesOf, TooLarge, Addressable, IndexOf, Admitted, Fill, Closed;
    CutFacts(run, blockSize);
    if blockSize == 0 {
      return None;
    }
    var b := new Builder(c, h, blockSize, bitsPerKey);
    var s := AddAll(b, run);
    if s != Ok {
      return None;
    }
    var f;
    s, f := b.Finish();
    if s != Ok {
      TailTooLarge(c, run, blockSize, b.blocks, b.pending);
      return None;
    }
    r := Load(c, b.file);
    WithinFields(c, b.blocks);
    if Addressable(c, b.blocks) {
      FitsAll(c, b.blocks, f, b.file, b.entries);
      BuiltServes(c, h, b.blocks, f);
    }
  }

  /** Every entry of a run into a new builder, stopping at the first that fails. */
  method AddAll(b: Builder, run: Run) returns (s: Status)
    requires b.Valid() && b.Added() == [] && b.blocks == [] && b.pending == [] && !b.finished
    modifies b
    ensures b.Valid() && !b.finished
    ensures s == Ok ==> b.Added() == run && Filling(b.blocks, b.pending) == Fill(run, |run|, b.blockSize)
    ensures s != Ok ==> !Admitted(run) || TooLarge(Cut(run, b.blockSize))
  {
    hide Flat, Data, Sorted, EntryFits, Less, SealedBlock, BlockBytes, HashesOf, TooLarge, IndexOf, Admitted, Fed, Cut;
    var i := 0;
    while i < |run|
      invariant 0 <= i <= |run| && b.Valid() && !b.finished && b.Added() == run[..i]
      invariant Filling(b.blocks, b.pending) == Fill(run, i, b.blockSize)
    {
      assert run[..i + 1] == run[..i] + [run[i]];
      if Admitted(run) {
        NextIsLetIn(run, i);
      }
      s := b.Add(run[i]);
      if s != Ok {
        if Admitted(run) {
          BlockLength(b.pending, |b.pending|);
          BlockTooLarge(run, i + 1, b.blockSize);
        }
        return;
      }
      i := i + 1;
    }
    assert run[..|run|] == run;
    s := Ok;
  }

  lemma WithinFields(crc: Checksum, blocks: seq<Run>)
    requires NoEmptyBlock(blocks) && |SealedIndex(crc, blocks)| <= U32Max
    requires forall i :: 0 <= i < |blocks| ==> |SealedBlock(crc, blocks[i])| <= U32Max
    ensures !TooLarge(blocks)
  {
    hide SealedBlock, SealedIndex, BlockSize, IndexSize;
    SealedIndexLength(crc, blocks);
    forall i | 0 <= i < |blocks| ensures BlockSize(blocks[i], |blocks[i]|) + BlockTrailerSize <= U32Max {
      SealedLength(crc, blocks[i]);
    }
  }

  /** A block that was refused for its size is a block of the cut. */
  lemma BlockTooLarge(run: Run, n: nat, blockSize: nat)
    requires 0 < n <= |run|
    requires var p := Fill(run, n - 1, blockSize).pending + [run[n - 1]];
             BlockSize(p, |p|) >= blockSize && BlockSize(p, |p|) + BlockTrailerSize > U32Max
    ensures TooLarge(Cut(run, blockSize))
  {
    hide BlockSize, IndexSize;
    var f := Fill(run, n - 1, blockSize);
    var p := f.pending + [run[n - 1]];
    FillGrows(run, n, |run|, blockSize);
    assert Fill(run, n, blockSize).blocks[|f.blocks|] == p;
    assert Cut(run, blockSize)[|f.blocks|] == p;
  }

  lemma TailTooLarge(crc: Checksum, run: Run, blockSize: nat, blocks: seq<Run>, pending: Run)
    requires var f := Fill(run, |run|, blockSize);
             || (Filling(blocks, pending) == f && pending != []
                && |BlockBytes(pending, |pending|)| + BlockTrailerSize > U32Max)
             || (blocks == Closed(f) && NoEmptyBlock(blocks) && |SealedIndex(crc, blocks)| > U32Max)
    ensures TooLarge(Cut(run, blockSize))
  {
    hide BlockBytes, BlockSize, IndexSize, SealedIndex, Fill;
    var cut := Cut(run, blockSize);
    if cut != blocks {
      BlockLength(pending, |pending|);
      assert cut[|blocks|] == pending;
    } else {
      SealedIndexLength(crc, blocks);
    }
  }

  /** The finished file is within its fields. */
  lemma FitsAll(crc: Checksum, blocks: seq<Run>, f: Filter, file: seq<Byte>, entries: nat)
    requires NoEmptyBlock(blocks) && Addressable(crc, blocks) && |SealedIndex(crc, blocks)| <= U32Max
        && entries == |Flat(blocks)|
    requires FilterOk(f) && f.numBits <= U32Max && f.numProbes < 256 && |EncodeFilter(crc, f)| <= U32Max
    requires |file| == |Data(crc, blocks, |blocks|)| + |EncodeFilter(crc, f)| + |SealedIndex(crc, blocks)| + FooterSize
    ensures |file| <= U64Max && entries <= U64Max
  {
    hide Flat, Data, SealedIndex, EncodeFilter;
  }

  lemma NextIsLetIn(run: Run, i: nat)
    requires Admitted(run) && i < |run|
    ensures !Refused(false, if run[..i] == [] then None else Some(LastKey(run[..i])), run[i])
  {
    hide Less;
    if i > 0 {
      assert LastKey(run[..i]) == run[i - 1].key;
    }
  }
}
