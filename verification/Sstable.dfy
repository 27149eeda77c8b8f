/** Building a table file from a sorted run, opening it again, and looking keys up in it. */
module Sstable {
  import opened Keys
  import opened Entries
  import opened Bytes
  import opened Bloom
  import opened ReadPath
  import opened MergeIterator
  import opened SstableCodec
  import opened TableSizes

  // -- The file, as a function of its blocks -----------------------------------------------------

  function SealedBlock(crc: Checksum, block: Run): seq<Byte> {
    Seal(crc, BlockBytes(block, |block|))
  }

  /** The first n data blocks, back to back. */
  function Data(crc: Checksum, blocks: seq<Run>, n: nat): seq<Byte>
    requires n <= |blocks|
  {
    if n == 0 then [] else Data(crc, blocks, n - 1) + SealedBlock(crc, blocks[n - 1])
  }

  function LastKey(block: Run): Key
    requires block != []
  {
    block[|block| - 1].key
  }

  /** The index names each block by its last key. */
  function IndexOf(crc: Checksum, blocks: seq<Run>): seq<IndexEntry>
    requires NoEmptyBlock(blocks)
  {
    seq(|blocks|, i requires 0 <= i < |blocks| =>
      IndexEntry(LastKey(blocks[i]), |Data(crc, blocks, i)|, |SealedBlock(crc, blocks[i])|))
  }

  function SealedIndex(crc: Checksum, blocks: seq<Run>): seq<Byte>
    requires NoEmptyBlock(blocks)
  {
    Seal(crc, IndexBytes(IndexOf(crc, blocks), |blocks|))
  }

  /** Sizes a finished table is known to have: everything its fields must hold fits them. */
  predicate SizesFit(crc: Checksum, blocks: seq<Run>, filterSize: nat) {
    && NoEmptyBlock(blocks)
    && (forall i :: 0 <= i < |blocks| ==> |SealedBlock(crc, blocks[i])| <= U32Max)
    && |SealedIndex(crc, blocks)| <= U32Max && filterSize <= U32Max
    && |Data(crc, blocks, |blocks|)| + filterSize <= U64Max && |Flat(blocks)| <= U64Max
  }

  function FooterOf(crc: Checksum, blocks: seq<Run>, filterSize: nat): Footer
    requires SizesFit(crc, blocks, filterSize)
  {
    var data := |Data(crc, blocks, |blocks|)|;
    Footer(data + filterSize, |SealedIndex(crc, blocks)|, data, filterSize, |Flat(blocks)|)
  }

  function TableFile(crc: Checksum, blocks: seq<Run>, filter: seq<Byte>): seq<Byte>
    requires SizesFit(crc, blocks, |filter|)
  {
    Data(crc, blocks, |blocks|) + filter + SealedIndex(crc, blocks) + EncodeFooter(crc, FooterOf(crc, blocks, |filter|))
  }

  /** Blocks of a sorted run of entries that can be written. */
  ghost predicate Storable(blocks: seq<Run>) {
    && NoEmptyBlock(blocks) && Sorted(Flat(blocks))
    && forall i, j :: 0 <= i < |blocks| && 0 <= j < |blocks[i]| ==> EntryFits(blocks[i][j])
  }

  // -- Opening a file -------------------------------------------------------------------------------

  datatype Opened = Opened(file: seq<Byte>, index: seq<IndexEntry>, filter: Option<Filter>, minKey: Key, maxKey: Key)

  function ReadAt(file: seq<Byte>, offset: nat, size: nat): Option<seq<Byte>> {
    if offset + size > |file| then None else Some(file[offset..offset + size])
  }

  /** A block's payload, once its checksum agrees. */
  function ReadBlock(crc: Checksum, file: seq<Byte>, e: IndexEntry): Option<seq<Byte>> {
    var raw := ReadAt(file, e.offset, e.size);
    if raw.None? then None else Unseal(crc, raw.value)
  }

  /** The entries of a block, or none if anything about it is wrong. */
  function BlockEntries(crc: Checksum, file: seq<Byte>, e: IndexEntry): Option<Run> {
    var payload := ReadBlock(crc, file, e);
    if payload.None? then None else ParseFrom(payload.value, 0)
  }

  function LoadFilter(crc: Checksum, file: seq<Byte>, f: Footer): Option<Option<Filter>> {
    if f.filterSize == 0 then Some(None)
    else
      var raw := ReadAt(file, f.filterOffset, f.filterSize);
      if raw.None? || DecodeFilter(crc, raw.value).None? then None else Some(DecodeFilter(crc, raw.value))
  }

  function LoadFooter(crc: Checksum, file: seq<Byte>): (r: Option<Footer>) {
    if |file| < FooterSize then None
    else
      var f, meta := DecodeFooter(crc, file[|file| - FooterSize..]), |file| - FooterSize;
      if f.None? then None
      else if f.value.indexOffset + f.value.indexSize > meta
          || f.value.filterOffset + f.value.filterSize > meta then None
      else if f.value.indexSize < IndexHeaderSize + BlockTrailerSize then None
      else f
  }

  /** SSTable::load: none is corruption. */
  function Load(crc: Checksum, file: seq<Byte>): (r: Option<Opened>)
    ensures r.Some? && r.value.filter.Some? ==> FilterOk(r.value.filter.value)
  {
    var footer := LoadFooter(crc, file);
    if footer.None? then None
    else
      var f := footer.value;
      var raw := ReadAt(file, f.indexOffset, f.indexSize);
      if raw.None? || Unseal(crc, raw.value).None? then None
      else
        var index, filter := ParseIndex(Unseal(crc, raw.value).value, f.filterOffset), LoadFilter(crc, file, f);
        if index.None? || filter.None? then None
        else if index.value == [] then
          if f.entries != 0 then None else Some(Opened(file, [], filter.value, [], []))
        else
          var first := BlockEntries(crc, file, index.value[0]);
          if first.None? || first.value == [] then None
          else Some(Opened(file, index.value, filter.value, first.value[0].key, index.value[|index.value| - 1].key))
  }

  // -- What was built can be opened ------------------------------------------------------------------

  lemma {:induction false} DataExtent(crc: Checksum, blocks: seq<Run>, i: nat, n: nat)
    requires i < n <= |blocks|
    ensures |Data(crc, blocks, i)| + |SealedBlock(crc, blocks[i])| <= |Data(crc, blocks, n)|
    ensures Data(crc, blocks, n)[|Data(crc, blocks, i)|..|Data(crc, blocks, i)| + |SealedBlock(crc, blocks[i])|]
         == SealedBlock(crc, blocks[i])
  {
    hide SealedBlock;
    if i < n - 1 {
      DataExtent(crc, blocks, i, n - 1);
    }
  }

  lemma FlatFits(blocks: seq<Run>, i: nat)
    requires Storable(blocks) && i < |blocks|
    ensures ParseFrom(BlockBytes(blocks[i], |blocks[i]|), 0) == Some(blocks[i])
  {
    hide EntryFits, Flat, Sorted;
    ParseBlockBytes(blocks[i]);
  }

  lemma BlockReads(crc: Checksum, blocks: seq<Run>, rest: seq<Byte>, i: nat)
    requires i < |blocks|
    ensures ReadAt(Data(crc, blocks, |blocks|) + rest, |Data(crc, blocks, i)|, |SealedBlock(crc, blocks[i])|)
         == Some(SealedBlock(crc, blocks[i]))
  {
    hide Data, SealedBlock;
    var data := Data(crc, blocks, |blocks|);
    DataExtent(crc, blocks, i, |blocks|);
    var a, b := |Data(crc, blocks, i)|, |Data(crc, blocks, i)| + |SealedBlock(crc, blocks[i])|;
    assert (data + rest)[a..b] == data[a..b];
  }

  /** Every block reads back, whatever follows the data region. */
  lemma BlocksReadBack(crc: Checksum, blocks: seq<Run>, rest: seq<Byte>, i: nat)
    requires Storable(blocks) && i < |blocks|
    ensures BlockEntries(crc, Data(crc, blocks, |blocks|) + rest, IndexOf(crc, blocks)[i]) == Some(blocks[i])
  {
    hide Data, ReadAt, ParseFrom, Unseal, Seal, BlockBytes, Flat, Sorted, EntryFits, LastKey;
    BlockReads(crc, blocks, rest, i);
    UnsealSealed(crc, BlockBytes(blocks[i], |blocks[i]|));
    FlatFits(blocks, i);
  }

  lemma KeyFits(blocks: seq<Run>, i: nat)
    requires Storable(blocks) && i < |blocks|
    ensures 0 < |LastKey(blocks[i])| <= U32Max
  {
    hide Flat, Sorted;
    assert EntryFits(blocks[i][|blocks[i]| - 1]);
  }

  lemma LastKeysRise(blocks: seq<Run>, i: nat)
    requires Storable(blocks) && 0 < i < |blocks|
    ensures Less(LastKey(blocks[i - 1]), LastKey(blocks[i]))
  {
    hide Flat, Less;
    BlockOrder(blocks, i - 1, |blocks[i - 1]| - 1, i, |blocks[i]| - 1);
  }

  lemma BuiltIndexOk(crc: Checksum, blocks: seq<Run>, filterSize: nat)
    requires Storable(blocks) && SizesFit(crc, blocks, filterSize)
    ensures IndexOk(IndexOf(crc, blocks), |Data(crc, blocks, |blocks|)|)
  {
    hide Data, Flat, Sorted, EntryFits, Less, IndexBytes;
    var index, end := IndexOf(crc, blocks), |Data(crc, blocks, |blocks|)|;
    forall i | 0 <= i < |index| ensures IndexEntryFits(index[i]) && InData(index[i], end) {
      DataExtent(crc, blocks, i, |blocks|);
      KeyFits(blocks, i);
    }
    forall i | 0 < i < |index| ensures Less(index[i - 1].key, index[i].key) {
      LastKeysRise(blocks, i);
    }
    IndexGrows(index, |index|);
  }

  lemma FooterLoads(crc: Checksum, blocks: seq<Run>, filter: seq<Byte>)
    requires SizesFit(crc, blocks, |filter|)
    ensures LoadFooter(crc, TableFile(crc, blocks, filter)) == Some(FooterOf(crc, blocks, |filter|))
  {
    hide Data, Flat, DecodeFooter, EncodeFooter, IndexBytes;
    var file, f := TableFile(crc, blocks, filter), FooterOf(crc, blocks, |filter|);
    assert file[|file| - FooterSize..] == EncodeFooter(crc, f);
    FooterRoundTrip(crc, f);
    IndexGrows(IndexOf(crc, blocks), |blocks|);
  }

  lemma RegionsRead(crc: Checksum, blocks: seq<Run>, filter: seq<Byte>)
    requires SizesFit(crc, blocks, |filter|)
    ensures var file, f := TableFile(crc, blocks, filter), FooterOf(crc, blocks, |filter|);
            && ReadAt(file, f.indexOffset, f.indexSize) == Some(SealedIndex(crc, blocks))
            && ReadAt(file, f.filterOffset, f.filterSize) == Some(filter)
  {
    hide Data, Flat, EncodeFooter, SealedIndex;
    var d, x, e := Data(crc, blocks, |blocks|), SealedIndex(crc, blocks),
        EncodeFooter(crc, FooterOf(crc, blocks, |filter|));
    assert (d + filter + x + e)[|d|..|d| + |filter|] == filter;
    assert (d + filter + x + e)[|d| + |filter|..|d| + |filter| + |x|] == x;
  }

  /** Opening a finished table finds every part of it. */
  lemma LoadBuilt(crc: Checksum, blocks: seq<Run>, f: Filter)
    requires Storable(blocks) && FilterOk(f) && f.numBits <= U32Max && f.numProbes < 256
    requires SizesFit(crc, blocks, |EncodeFilter(crc, f)|)
    ensures Load(crc, TableFile(crc, blocks, EncodeFilter(crc, f)))
         == Some(Opened(TableFile(crc, blocks, EncodeFilter(crc, f)), IndexOf(crc, blocks), Some(f),
                        if blocks == [] then [] else blocks[0][0].key,
                        if blocks == [] then [] else LastKey(blocks[|blocks| - 1])))
  {
    hide Data, Flat, Sorted, EntryFits, EncodeFilter, DecodeFilter, LoadFooter, ReadAt, ParseIndex, Unseal,
         BlockEntries, IndexBytes, TableFile, Seal;
    var filter := EncodeFilter(crc, f);
    var file := TableFile(crc, blocks, filter);
    FooterLoads(crc, blocks, filter);
    RegionsRead(crc, blocks, filter);
    UnsealSealed(crc, IndexBytes(IndexOf(crc, blocks), |blocks|));
    BuiltIndexOk(crc, blocks, |filter|);
    ParseIndexBytes(IndexOf(crc, blocks), |Data(crc, blocks, |blocks|)|);
    FilterRoundTrip(crc, f);
    FilterSize(crc, f);
    if blocks == [] {
      FlatNone();
    } else {
      FileSplits(crc, blocks, filter);
      BlocksReadBack(crc, blocks, Rest(crc, blocks, filter), 0);
    }
  }

  lemma FilterSize(crc: Checksum, f: Filter)
    requires f.numBits <= U32Max && f.numProbes < 256
    ensures |EncodeFilter(crc, f)| > 0
  {
  }

  function Rest(crc: Checksum, blocks: seq<Run>, filter: seq<Byte>): seq<Byte>
    requires SizesFit(crc, blocks, |filter|)
  {
    filter + SealedIndex(crc, blocks) + EncodeFooter(crc, FooterOf(crc, blocks, |filter|))
  }

  lemma FileSplits(crc: Checksum, blocks: seq<Run>, filter: seq<Byte>)
    requires SizesFit(crc, blocks, |filter|)
    ensures TableFile(crc, blocks, filter) == Data(crc, blocks, |blocks|) + Rest(crc, blocks, filter)
  {
    hide Data, Flat, EncodeFooter, SealedIndex;
    var d, x, e := Data(crc, blocks, |blocks|), SealedIndex(crc, blocks),
        EncodeFooter(crc, FooterOf(crc, blocks, |filter|));
    assert d + filter + x + e == d + (filter + x + e);
  }

  // -- Lookup -----------------------------------------------------------------------------------------------

  /** An open table whose blocks are these, and whose filter denies none of their keys. */
  ghost predicate Serves(crc: Checksum, hash: Hash, t: Opened, blocks: seq<Run>) {
    && Sorted(Flat(blocks)) && NoEmptyBlock(blocks) && |t.index| == |blocks|
    && (forall i :: 0 <= i < |blocks| ==>
       t.index[i].key == LastKey(blocks[i]) && BlockEntries(crc, t.file, t.index[i]) == Some(blocks[i]))
    && (blocks != [] ==> t.minKey == blocks[0][0].key && t.maxKey == LastKey(blocks[|blocks| - 1]))
    && (t.filter.Some? ==> FilterOk(t.filter.value) && forall i :: 0 <= i < |Flat(blocks)| ==>
       Admits(t.filter.value, hash(Flat(blocks)[i].key)))
  }

  lemma BuiltServes(crc: Checksum, hash: Hash, blocks: seq<Run>, f: Filter)
    requires Storable(blocks) && FilterOk(f) && f.numBits <= U32Max && f.numProbes < 256
    requires SizesFit(crc, blocks, |EncodeFilter(crc, f)|)
    requires forall i :: 0 <= i < |Flat(blocks)| ==> Admits(f, hash(Flat(blocks)[i].key))
    ensures Load(crc, TableFile(crc, blocks, EncodeFilter(crc, f))).Some?
    ensures Serves(crc, hash, Load(crc, TableFile(crc, blocks, EncodeFilter(crc, f))).value, blocks)
  {
    hide Data, Flat, Sorted, EntryFits, EncodeFilter, Load, TableFile, BlockEntries, SealedIndex, Rest, Admits;
    LoadBuilt(crc, blocks, f);
    var filter := EncodeFilter(crc, f);
    FileSplits(crc, blocks, filter);
    forall i | 0 <= i < |blocks|
      ensures BlockEntries(crc, TableFile(crc, blocks, filter), IndexOf(crc, blocks)[i]) == Some(blocks[i])
    {
      BlocksReadBack(crc, blocks, Rest(crc, blocks, filter), i);
    }
  }

  /** The keys of an index, which lower_bound searches. */
  function IndexKeys(index: seq<IndexEntry>): seq<Key> {
    seq(|index|, i requires 0 <= i < |index| => index[i].key)
  }

  lemma IndexRises(crc: Checksum, hash: Hash, t: Opened, blocks: seq<Run>)
    requires Serves(crc, hash, t, blocks)
    ensures Increasing(IndexKeys(t.index))
  {
    hide Flat, Less, BlockEntries, Admits;
    forall i, j | 0 <= i < j < |t.index| ensures Less(t.index[i].key, t.index[j].key) {
      BlockOrder(blocks, i, |blocks[i]| - 1, j, |blocks[j]| - 1);
    }
  }

  lemma BlockRises(blocks: seq<Run>, b: nat)
    requires Sorted(Flat(blocks)) && b < |blocks|
    ensures Increasing(KeysOf(blocks[b]))
  {
    hide Flat, Less;
    BlockSorted(blocks, b);
  }

  /** Every entry of the run is in some block. */
  lemma {:induction false} InSomeBlock(blocks: seq<Run>, e: Entry)
    requires e in Flat(blocks)
    ensures exists b, i :: 0 <= b < |blocks| && 0 <= i < |blocks[b]| && blocks[b][i] == e
  {
    if e in blocks[0] {
      var i :| 0 <= i < |blocks[0]| && blocks[0][i] == e;
      assert blocks[0][i] == e;
    } else {
      InSomeBlock(blocks[1..], e);
      var b, i :| 0 <= b < |blocks[1..]| && 0 <= i < |blocks[1..][b]| && blocks[1..][b][i] == e;
      assert blocks[b + 1][i] == e;
    }
  }

  lemma FoundInBlock(blocks: seq<Run>, b: nat, i: nat)
    requires Sorted(Flat(blocks)) && b < |blocks| && i < |blocks[b]|
    ensures Find(Flat(blocks), blocks[b][i].key) == Some(blocks[b][i].cell)
  {
    hide Flat, Find;
    FlatIndex(blocks, b, i);
    FindIs(Flat(blocks), blocks[b][i]);
  }

  /** If the key is anywhere it is in the first block whose last key reaches it. */
  lemma OnlyThatBlock(blocks: seq<Run>, k: Key, at: nat)
    requires Sorted(Flat(blocks)) && NoEmptyBlock(blocks) && Find(Flat(blocks), k).Some? && at <= |blocks|
    requires forall i :: 0 <= i < at ==> Less(LastKey(blocks[i]), k)
    requires forall i :: at <= i < |blocks| ==> AtMost(k, LastKey(blocks[i]))
    ensures at < |blocks| && exists i :: 0 <= i < |blocks[at]| && blocks[at][i].key == k
  {
    hide Flat, Find, Less, Sorted;
    InSomeBlock(blocks, Entry(k, Find(Flat(blocks), k).value));
    var b, i :| 0 <= b < |blocks| && 0 <= i < |blocks[b]| && blocks[b][i] == Entry(k, Find(Flat(blocks), k).value);
    StrictTotalOrder();
    if b < at {
      if i < |blocks[b]| - 1 {
        BlockOrder(blocks, b, i, b, |blocks[b]| - 1);
      }
      assert false;
    } else if b > at {
      BlockOrder(blocks, at, |blocks[at]| - 1, b, i);
      assert false;
    }
  }

  lemma OutOfRange(blocks: seq<Run>, k: Key)
    requires Sorted(Flat(blocks)) && NoEmptyBlock(blocks)
    requires blocks == [] || Less(k, blocks[0][0].key) || Less(LastKey(blocks[|blocks| - 1]), k)
    ensures Find(Flat(blocks), k) == None
  {
    hide Flat, Find, Less, Sorted;
    if Find(Flat(blocks), k).Some? {
      InSomeBlock(blocks, Entry(k, Find(Flat(blocks), k).value));
      var b, i :| 0 <= b < |blocks| && 0 <= i < |blocks[b]| && blocks[b][i] == Entry(k, Find(Flat(blocks), k).value);
      var z := |blocks| - 1;
      StrictTotalOrder();
      if b > 0 || i > 0 {
        BlockOrder(blocks, 0, 0, b, i);
      }
      if b < z || i < |blocks[z]| - 1 {
        BlockOrder(blocks, b, i, z, |blocks[z]| - 1);
      }
      assert false;
    }
  }

  lemma Denied(crc: Checksum, hash: Hash, t: Opened, blocks: seq<Run>, k: Key)
    requires Serves(crc, hash, t, blocks) && t.filter.Some? && !Admits(t.filter.value, hash(k))
    ensures Find(Flat(blocks), k) == None
  {
    hide Flat, Admits, BlockEntries, Sorted;
    forall i | 0 <= i < |Flat(blocks)| ensures Flat(blocks)[i].key != k {
      assert Admits(t.filter.value, hash(Flat(blocks)[i].key));
    }
  }

  lemma NotInBlock(blocks: seq<Run>, k: Key, at: nat, hit: nat)
    requires Sorted(Flat(blocks)) && NoEmptyBlock(blocks) && at <= |blocks|
    requires forall i :: 0 <= i < at ==> Less(LastKey(blocks[i]), k)
    requires forall i :: at <= i < |blocks| ==> AtMost(k, LastKey(blocks[i]))
    requires at < |blocks| ==>
      && hit <= |blocks[at]| && (hit < |blocks[at]| ==> blocks[at][hit].key != k)
      && (forall i :: 0 <= i < hit ==> Less(blocks[at][i].key, k))
      && (forall i :: hit <= i < |blocks[at]| ==> AtMost(k, blocks[at][i].key))
    ensures Find(Flat(blocks), k) == None
  {
    hide Flat, Find, Less, Sorted;
    if Find(Flat(blocks), k).Some? {
      OnlyThatBlock(blocks, k, at);
      var i :| 0 <= i < |blocks[at]| && blocks[at][i].key == k;
      StrictTotalOrder();
      if hit < i {
        BlockOrder(blocks, at, hit, at, i);
      }
      assert false;
    }
  }

  /** A key the table answers for without reading a block: out of range, denied by the filter, or past the index. */
  ghost predicate RuledOut(hash: Hash, t: Opened, bloomEnabled: bool, key: Key)
    requires t.filter.Some? ==> FilterOk(t.filter.value)
  {
    || t.index == [] || Less(key, t.minKey) || Less(t.maxKey, key)
    || (bloomEnabled && t.filter.Some? && !Admits(t.filter.value, hash(key)))
    || (Increasing(IndexKeys(t.index)) ==> forall i :: 0 <= i < |t.index| ==> Less(t.index[i].key, key))
  }

  /** The first block whose last key reaches the key, in an index that is in order. */
  ghost predicate Candidate(t: Opened, key: Key, at: nat) {
    && at < |t.index|
    && (Increasing(IndexKeys(t.index)) ==>
          AtMost(key, t.index[at].key) && forall i :: 0 <= i < at ==> Less(t.index[i].key, key))
  }

  /** std::lower_bound over a block's entries. */
  method FindInBlock(es: Run, key: Key) returns (hit: nat)
    ensures hit <= |es|
    ensures Increasing(KeysOf(es)) ==> forall i :: 0 <= i < hit ==> Less(KeysOf(es)[i], key)
    ensures Increasing(KeysOf(es)) ==> forall i :: hit <= i < |es| ==> AtMost(key, KeysOf(es)[i])
    ensures Increasing(KeysOf(es)) && (hit == |es| || es[hit].key != key) ==> !HasKey(es, key)
  {
    hide Less;
    hit := LowerBound(KeysOf(es), key);
    if Increasing(KeysOf(es)) && (hit == |es| || es[hit].key != key) {
      AbsentBeside(es, key, hit);
    }
  }

  lemma AbsentBeside(es: Run, key: Key, hit: nat)
    requires hit <= |es| && Increasing(KeysOf(es)) && (hit == |es| || es[hit].key != key)
    requires forall i :: 0 <= i < hit ==> Less(KeysOf(es)[i], key)
    requires forall i :: hit <= i < |es| ==> AtMost(key, KeysOf(es)[i])
    ensures !HasKey(es, key)
  {
    hide Less;
    StrictTotalOrder();
    forall i | 0 <= i < |es| ensures es[i].key != key {
      assert KeysOf(es)[i] == es[i].key;
      if i > hit {
        assert Less(KeysOf(es)[hit], KeysOf(es)[i]) && KeysOf(es)[hit] == es[hit].key;
      }
    }
  }

  lemma {:induction false} ParsedInOrder(s: seq<Byte>, at: nat, count: nat, last: Option<Key>, dataEnd: nat)
    requires at <= |s| && IndexFrom(s, at, count, last, dataEnd).Some?
    ensures var index := IndexFrom(s, at, count, last, dataEnd).value;
            && (forall i :: 0 <= i < |index| ==>
                  BlockTrailerSize <= index[i].size && index[i].offset + index[i].size <= dataEnd)
            && (last.Some? ==> forall i :: 0 <= i < |index| ==> Less(last.value, index[i].key))
            && (forall i, j :: 0 <= i < j < |index| ==> Less(index[i].key, index[j].key))
    decreases count
  {
    hide U32At, U64At, Less;
    if count > 0 {
      var e := IndexEntryFrom(s, at).value;
      ParsedInOrder(s, at + IndexEntryFixedSize + |e.key|, count - 1, Some(e.key), dataEnd);
      StrictTotalOrder();
    }
  }

  /** Whatever bytes a table file holds, if it opens then its index is in order and names blocks inside the file. */
  lemma LoadedInOrder(crc: Checksum, file: seq<Byte>)
    requires Load(crc, file).Some?
    ensures var t := Load(crc, file).value;
            && t.file == file && Increasing(IndexKeys(t.index))
            && (forall i :: 0 <= i < |t.index| ==>
                  BlockTrailerSize <= t.index[i].size && t.index[i].offset + t.index[i].size + FooterSize <= |file|)
            && (t.index != [] ==> t.maxKey == t.index[|t.index| - 1].key)
  {
    hide Less, BlockEntries, IndexFrom, LoadFilter, DecodeFooter, Unseal;
    var f := LoadFooter(crc, file).value;
    var raw := Unseal(crc, ReadAt(file, f.indexOffset, f.indexSize).value).value;
    ParsedInOrder(raw, IndexHeaderSize, U32At(raw, 0), None, f.filterOffset);
    IndexKeysAre(Load(crc, file).value.index);
  }

  lemma IndexKeysAre(index: seq<IndexEntry>)
    ensures |IndexKeys(index)| == |index| && forall i :: 0 <= i < |index| ==> IndexKeys(index)[i] == index[i].key
  {
  }

  /** lookup: none is corruption; otherwise what the run says about the key. Of a table that may be damaged it is
      corruption when the one block that could hold the key cannot be read, and absence only when no block need be or
      that block was read and does not hold it. */
  method Lookup(crc: Checksum, hash: Hash, t: Opened, bloomEnabled: bool, key: Key, ghost blocks: seq<Run>)
      returns (r: Option<Option<Cell>>)
    requires t.filter.Some? ==> FilterOk(t.filter.value)
    ensures Serves(crc, hash, t, blocks) ==> r == Some(Find(Flat(blocks), key))
    ensures r == None ==> exists at: nat :: Candidate(t, key, at) && BlockEntries(crc, t.file, t.index[at]).None?
    ensures r == Some(None) ==>
      || RuledOut(hash, t, bloomEnabled, key)
      || exists at: nat ::
           && Candidate(t, key, at) && BlockEntries(crc, t.file, t.index[at]).Some?
           && (Increasing(KeysOf(BlockEntries(crc, t.file, t.index[at]).value)) ==>
                 !HasKey(BlockEntries(crc, t.file, t.index[at]).value, key))
    ensures r.Some? && r.value.Some? ==> exists at: nat ::
      && Candidate(t, key, at) && BlockEntries(crc, t.file, t.index[at]).Some?
      && Entry(key, r.value.value) in BlockEntries(crc, t.file, t.index[at]).value
  {
    hide Flat, Find, Less, Sorted, Admits, BlockEntries, HasKey;
    IndexKeysAre(t.index);
    ghost var good := Serves(crc, hash, t, blocks);
    if t.index == [] || Less(key, t.minKey) || Less(t.maxKey, key) {
      if good {
        OutOfRange(blocks, key);
      }
      return Some(None);
    }
    if bloomEnabled && t.filter.Some? {
      var maybe := MaybeContains(t.filter.value, hash(key));
      if !maybe {
        if good {
          Denied(crc, hash, t, blocks, key);
        }
        return Some(None);
      }
    }
    var at := LowerBound(IndexKeys(t.index), key);
    if good {
      IndexRises(crc, hash, t, blocks);
      LowerBoundOver(crc, hash, t, blocks, key, at);
    }
    if at == |t.index| {
      if good {
        assert false;
      }
      return Some(None);
    }
    assert Candidate(t, key, at);
    var es := BlockEntries(crc, t.file, t.index[at]);
    if es.None? {
      return None;
    }
    var hit := FindInBlock(es.value, key);
    if good {
      BlockRises(blocks, at);
    }
    if hit == |es.value| || es.value[hit].key != key {
      if good {
        InBlock(blocks[at], key, hit);
        NotInBlock(blocks, key, at, hit);
      }
      return Some(None);
    }
    if good {
      FoundInBlock(blocks, at, hit);
    }
    return Some(Some(es.value[hit].cell));
  }

  lemma LowerBoundOver(crc: Checksum, hash: Hash, t: Opened, blocks: seq<Run>, k: Key, at: nat)
    requires Serves(crc, hash, t, blocks) && at <= |t.index|
    requires forall i :: 0 <= i < at ==> Less(IndexKeys(t.index)[i], k)
    requires forall i :: at <= i < |t.index| ==> AtMost(k, IndexKeys(t.index)[i])
    ensures forall i :: 0 <= i < at ==> Less(LastKey(blocks[i]), k)
    ensures forall i :: at <= i < |blocks| ==> AtMost(k, LastKey(blocks[i]))
  {
    hide Flat, Less, Sorted, Admits, BlockEntries, AtMost;
    forall i | 0 <= i < at ensures Less(LastKey(blocks[i]), k) {
      assert Less(IndexKeys(t.index)[i], k);
    }
    forall i | at <= i < |blocks| ensures AtMost(k, LastKey(blocks[i])) {
      assert AtMost(k, IndexKeys(t.index)[i]);
    }
  }

  lemma InBlock(es: Run, k: Key, hit: nat)
    requires hit <= |es|
    requires forall i :: 0 <= i < hit ==> Less(KeysOf(es)[i], k)
    requires forall i :: hit <= i < |es| ==> AtMost(k, KeysOf(es)[i])
    ensures forall i :: 0 <= i < hit ==> Less(es[i].key, k)
    ensures forall i :: hit <= i < |es| ==> AtMost(k, es[i].key)
  {
    hide Less, AtMost;
    forall i | 0 <= i < hit ensures Less(es[i].key, k) {
      assert Less(KeysOf(es)[i], k);
    }
    forall i | hit <= i < |es| ensures AtMost(k, es[i].key) {
      assert AtMost(k, KeysOf(es)[i]);
    }
  }
}
