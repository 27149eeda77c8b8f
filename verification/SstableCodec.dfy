/** The table file: data blocks, the filter, the index of last keys, and the footer that finds them. */
module SstableCodec {
  import opened Keys
  import opened Entries
  import opened Bytes
  import opened TableSizes

  const FooterSize: nat := 44
  const FormatVersion: U32 := 1

  /** "KVST". */
  const TableMagic: seq<Byte> := [75, 86, 83, 84]

  // -- A payload and its checksum ---------------------------------------------------------------

  function Seal(crc: Checksum, s: seq<Byte>): (r: seq<Byte>)
    ensures |r| == |s| + 4
  {
    s + Le(crc(s), 4)
  }

  function Unseal(crc: Checksum, s: seq<Byte>): Option<seq<Byte>> {
    if |s| < 4 || U32At(s, |s| - 4) != crc(s[..|s| - 4]) then None else Some(s[..|s| - 4])
  }

  lemma UnsealSealed(crc: Checksum, s: seq<Byte>)
    ensures Unseal(crc, Seal(crc, s)) == Some(s)
  {
    hide U32At, Le;
    var r := Seal(crc, s);
    assert r[..|r| - 4] == s && r[|r| - 4..|r| - 4 + 4] == Le(crc(s), 4);
    U32RoundTrip(crc(s), r, |r| - 4);
  }

  /** What unseals was sealed: nothing but the sealed bytes passes. */
  lemma SealUnsealed(crc: Checksum, s: seq<Byte>)
    requires Unseal(crc, s).Some?
    ensures Seal(crc, Unseal(crc, s).value) == s
  {
    U32OfRead(s, |s| - 4);
    assert s == s[..|s| - 4] + s[|s| - 4..|s| - 4 + 4];
  }

  /** What was read so far, and then the rest, if the rest could be read. */
  function Then<T>(front: seq<T>, rest: Option<seq<T>>): Option<seq<T>> {
    if rest.None? then None else Some(front + rest.value)
  }

  lemma ThenMore<T>(front: seq<T>, x: T, rest: Option<seq<T>>)
    ensures Then(front, Then([x], rest)) == Then(front + [x], rest)
  {
    if rest.Some? {
      assert front + ([x] + rest.value) == front + [x] + rest.value;
    }
  }

  lemma ThenNone<T>(rest: Option<seq<T>>)
    ensures Then([], rest) == rest
  {
    if rest.Some? {
      assert [] + rest.value == rest.value;
    }
  }

  // -- Entries and blocks ------------------------------------------------------------------------

  function EncodeEntry(e: Entry): (s: seq<Byte>)
    ensures |s| == EntrySize(e)
  {
    Le(|e.key|, 4) + Le(|ValueBytes(e)|, 4) + [if e.cell.Tombstone? then 1 else 0] + e.key + ValueBytes(e)
  }

  /** The entry at an offset, if it is whole and has a key. */
  function EntryFrom(s: seq<Byte>, at: nat): Option<Entry> {
    if at + EntryHeaderSize > |s| then None
    else
      var keySize, valueSize := U32At(s, at), U32At(s, at + 4);
      var mid := at + EntryHeaderSize + keySize;
      if mid + valueSize > |s| || keySize == 0 then None
      else Some(Entry(s[at + EntryHeaderSize..mid], if s[at + 8] % 2 == 1 then Tombstone
          else Live(s[mid..mid + valueSize])))
  }

  /** How many bytes the entry at an offset takes: its declared sizes, whatever its flags. */
  function EntryExtent(s: seq<Byte>, at: nat): nat
    requires at + EntryHeaderSize <= |s|
  {
    EntryHeaderSize + U32At(s, at) + U32At(s, at + 4)
  }

  lemma EntryThere(e: Entry, s: seq<Byte>, at: nat)
    requires EntryFits(e) && at + EntrySize(e) <= |s| && s[at..at + EntrySize(e)] == EncodeEntry(e)
    ensures EntryFrom(s, at) == Some(e) && EntryExtent(s, at) == EntrySize(e)
  {
    hide U32At, Le;
    var n, c, k := EntrySize(e), EncodeEntry(e), |e.key|;
    SliceOfSlice(s, at, n, 0, 4);
    SliceOfSlice(s, at, n, 4, 8);
    SliceOfSlice(s, at, n, 9, 9 + k);
    SliceOfSlice(s, at, n, 9 + k, n);
    assert s[at + 8] == s[at..at + n][8];
    EntryPieces(e);
    U32RoundTrip(k, s, at);
    U32RoundTrip(|ValueBytes(e)|, s, at + 4);
  }

  /** Where each field of an encoded entry lies. */
  lemma EntryPieces(e: Entry)
    ensures var c, k, n := EncodeEntry(e), |e.key|, EntrySize(e);
            && c[0..4] == Le(k, 4) && c[4..8] == Le(|ValueBytes(e)|, 4)
            && c[8] == (if e.cell.Tombstone? then 1 else 0)
            && c[9..9 + k] == e.key && c[9 + k..n] == ValueBytes(e)
  {
    hide Le, ValueBytes;
    FivePieces(Le(|e.key|, 4), Le(|ValueBytes(e)|, 4), [if e.cell.Tombstone? then 1 else 0], e.key, ValueBytes(e));
    var c := EncodeEntry(e);
    assert c[8..9][0] == c[8];
  }

  lemma FivePieces(a: seq<Byte>, b: seq<Byte>, f: seq<Byte>, k: seq<Byte>, v: seq<Byte>)
    requires |a| == |b| == 4 && |f| == 1
    ensures var c := a + b + f + k + v;
            && c[0..4] == a && c[4..8] == b && c[8..9] == f && c[9..9 + |k|] == k && c[9 + |k|..9 + |k| + |v|] == v
  {
    var ab := a + b;
    var abf := ab + f;
    var abfk := abf + k;
    SlicesOfSum(a, b, 0, 4);
    SlicesOfSum(ab, f, 0, 4);
    SlicesOfSum(ab, f, 4, 8);
    SlicesOfSum(abf, k, 0, 4);
    SlicesOfSum(abf, k, 4, 8);
    SlicesOfSum(abf, k, 8, 9);
    SlicesOfSum(abfk, v, 0, 4);
    SlicesOfSum(abfk, v, 4, 8);
    SlicesOfSum(abfk, v, 8, 9);
    SlicesOfSum(abfk, v, 9, 9 + |k|);
    assert a[0..4] == a;
  }

  /** A slice inside the first part of a sum, and the second part whole. */
  lemma SlicesOfSum(x: seq<Byte>, y: seq<Byte>, i: nat, j: nat)
    requires i <= j <= |x|
    ensures (x + y)[i..j] == x[i..j] && (x + y)[|x|..|x| + |y|] == y
  {
  }

  lemma SliceOfSlice(s: seq<Byte>, at: nat, n: nat, i: nat, j: nat)
    requires i <= j <= n && at + n <= |s|
    ensures s[at..at + n][i..j] == s[at + i..at + j]
  {
    var t := s[at..at + n];
    assert forall q :: 0 <= q < n ==> t[q] == s[at + q];
    assert t[i..j] == s[at + i..at + j];
  }

  /** The first n entries of a block, back to back. */
  function BlockBytes(es: Run, n: nat): seq<Byte>
    requires n <= |es|
  {
    if n == 0 then [] else BlockBytes(es, n - 1) + EncodeEntry(es[n - 1])
  }

  function ParseFrom(s: seq<Byte>, at: nat): Option<Run>
    requires at <= |s|
    decreases |s| - at
  {
    if at == |s| then Some([])
    else if EntryFrom(s, at).None? then None
    else
      Then([EntryFrom(s, at).value], ParseFrom(s, at + EntryExtent(s, at)))
  }

  lemma {:induction false} BlockExtent(es: Run, i: nat, n: nat)
    requires i < n <= |es|
    ensures |BlockBytes(es, i)| + EntrySize(es[i]) <= |BlockBytes(es, n)|
    ensures BlockBytes(es, n)[|BlockBytes(es, i)|..|BlockBytes(es, i)| + EntrySize(es[i])] == EncodeEntry(es[i])
  {
    var s, p, e := BlockBytes(es, n), BlockBytes(es, n - 1), EncodeEntry(es[n - 1]);
    assert s == p + e && |e| == EntrySize(es[n - 1]);
    assert s[..|p|] == p && s[|p|..|p| + |e|] == e;
    if i < n - 1 {
      BlockExtent(es, i, n - 1);
      hide EncodeEntry, EntrySize, BlockBytes;
      SliceOfPrefix(s, |p|, |BlockBytes(es, i)|, |BlockBytes(es, i)| + EntrySize(es[i]));
    }
  }

  lemma BlockStep(es: Run, i: nat)
    requires i < |es|
    ensures |BlockBytes(es, i + 1)| == |BlockBytes(es, i)| + EntrySize(es[i])
  {
    hide EncodeEntry;
  }

  lemma {:induction false} ParseRest(es: Run, i: nat)
    requires i <= |es| && forall j :: 0 <= j < |es| ==> EntryFits(es[j])
    ensures |BlockBytes(es, i)| <= |BlockBytes(es, |es|)|
    ensures ParseFrom(BlockBytes(es, |es|), |BlockBytes(es, i)|) == Some(es[i..])
    decreases |es| - i
  {
    hide EncodeEntry, EntryFrom, EntryExtent, BlockBytes, EntryFits, EntrySize;
    if i < |es| {
      var s := BlockBytes(es, |es|);
      BlockExtent(es, i, |es|);
      EntryThere(es[i], s, |BlockBytes(es, i)|);
      ParseRest(es, i + 1);
      BlockStep(es, i);
      EntryInside(s, |BlockBytes(es, i)|);
      assert es[i..] == [es[i]] + es[i + 1..];
    }
  }

  /** A block parses to exactly the entries written to it. */
  lemma ParseBlockBytes(es: Run)
    requires forall j :: 0 <= j < |es| ==> EntryFits(es[j])
    ensures ParseFrom(BlockBytes(es, |es|), 0) == Some(es)
  {
    ParseRest(es, 0);
    assert es[0..] == es;
  }

  lemma EntryInside(s: seq<Byte>, at: nat)
    requires EntryFrom(s, at).Some?
    ensures at + EntryHeaderSize <= |s| && at + EntryExtent(s, at) <= |s| && EntryExtent(s, at) > 0
  {
  }

  /** parse_block. */
  method ParseBlock(s: seq<Byte>) returns (r: Option<Run>)
    ensures r == ParseFrom(s, 0)
  {
    hide EntryFrom, EntryExtent;
    var out: Run, at: nat := [], 0;
    ThenNone(ParseFrom(s, 0));
    while at < |s|
      invariant at <= |s|
      invariant ParseFrom(s, 0) == Then(out, ParseFrom(s, at))
    {
      var e := EntryFrom(s, at);
      if e.None? {
        return None;
      }
      EntryInside(s, at);
      ThenMore(out, e.value, ParseFrom(s, at + EntryExtent(s, at)));
      out, at := out + [e.value], at + EntryExtent(s, at);
    }
    assert out + [] == out;
    r := Some(out);
  }

  // -- The index ---------------------------------------------------------------------------------------

  datatype IndexEntry = IndexEntry(key: Key, offset: nat, size: nat)

  predicate IndexEntryFits(e: IndexEntry) {
    0 < |e.key| <= U32Max && e.offset <= U64Max && e.size <= U32Max
  }

  function EncodeIndexEntry(e: IndexEntry): (s: seq<Byte>)
    ensures |s| == IndexEntryFixedSize + |e.key|
  {
    Le(|e.key|, 4) + e.key + Le(e.offset, 8) + Le(e.size, 4)
  }

  function IndexBytes(index: seq<IndexEntry>, n: nat): seq<Byte>
    requires n <= |index|
  {
    if n == 0 then Le(|index|, 4) else IndexBytes(index, n - 1) + EncodeIndexEntry(index[n - 1])
  }

  function IndexEntryFrom(s: seq<Byte>, at: nat): Option<IndexEntry> {
    if at + IndexEntryFixedSize > |s| then None
    else
      var keySize := U32At(s, at);
      if keySize == 0 || at + 4 + keySize + 12 > |s| then None
      else Some(IndexEntry(s[at + 4..at + 4 + keySize], U64At(s, at + 4 + keySize), U32At(s, at + 12 + keySize)))
  }

  /** An index entry must name a whole block inside the data region. */
  predicate InData(e: IndexEntry, dataEnd: nat) {
    BlockTrailerSize <= e.size && e.offset + e.size <= dataEnd
  }

  /** The rest of the index from an offset, count entries of it, keys rising past the last one read. */
  function IndexFrom(s: seq<Byte>, at: nat, count: nat, last: Option<Key>, dataEnd: nat): Option<seq<IndexEntry>>
    requires at <= |s|
    decreases count
  {
    if count == 0 then if at == |s| then Some([]) else None
    else
      var e := IndexEntryFrom(s, at);
      if e.None? || !InData(e.value, dataEnd) || (last.Some? && !Less(last.value, e.value.key)) then None
      else
        Then([e.value], IndexFrom(s, at + IndexEntryFixedSize + |e.value.key|, count - 1, Some(e.value.key), dataEnd))
  }

  /** load_index. */
  function ParseIndex(s: seq<Byte>, dataEnd: nat): Option<seq<IndexEntry>> {
    if |s| < IndexHeaderSize || U32At(s, 0) * IndexEntryFixedSize > |s| - IndexHeaderSize then None
    else IndexFrom(s, IndexHeaderSize, U32At(s, 0), None, dataEnd)
  }

  lemma IndexEntryThere(e: IndexEntry, s: seq<Byte>, at: nat)
    requires IndexEntryFits(e) && at + 16 + |e.key| <= |s| && s[at..at + 16 + |e.key|] == EncodeIndexEntry(e)
    ensures IndexEntryFrom(s, at) == Some(e)
  {
    hide U32At, U64At, Le;
    var c, k := EncodeIndexEntry(e), |e.key|;
    var n := 16 + k;
    SliceOfSlice(s, at, n, 0, 4);
    SliceOfSlice(s, at, n, 4, 4 + k);
    SliceOfSlice(s, at, n, 4 + k, 12 + k);
    SliceOfSlice(s, at, n, 12 + k, 16 + k);
    assert c[0..4] == Le(k, 4) && c[4..4 + k] == e.key && c[4 + k..12 + k] == Le(e.offset, 8)
        && c[12 + k..16 + k] == Le(e.size, 4);
    U32RoundTrip(k, s, at);
    U64RoundTrip(e.offset, s, at + 4 + k);
    U32RoundTrip(e.size, s, at + 12 + k);
  }

  lemma {:induction false} IndexExtent(index: seq<IndexEntry>, i: nat, n: nat)
    requires i < n <= |index|
    ensures |IndexBytes(index, i)| + 16 + |index[i].key| <= |IndexBytes(index, n)|
    ensures IndexBytes(index, n)[|IndexBytes(index, i)|..|IndexBytes(index, i)| + 16 + |index[i].key|]
        == EncodeIndexEntry(index[i])
  {
    hide EncodeIndexEntry, Le;
    if i < n - 1 {
      IndexExtent(index, i, n - 1);
    }
  }

  /** What an index must be for reading it back to be possible. */
  ghost predicate IndexOk(index: seq<IndexEntry>, dataEnd: nat) {
    && |index| <= U32Max
    && (forall i :: 0 <= i < |index| ==> IndexEntryFits(index[i]) && InData(index[i], dataEnd))
    && (forall i :: 0 < i < |index| ==> Less(index[i - 1].key, index[i].key))
  }

  lemma IndexStep(index: seq<IndexEntry>, i: nat)
    requires i < |index|
    ensures |IndexBytes(index, i + 1)| == |IndexBytes(index, i)| + 16 + |index[i].key|
  {
    hide EncodeIndexEntry, Le;
  }

  lemma {:induction false} IndexRest(index: seq<IndexEntry>, i: nat, dataEnd: nat)
    requires i <= |index| && IndexOk(index, dataEnd)
    ensures |IndexBytes(index, i)| <= |IndexBytes(index, |index|)|
    ensures IndexFrom(IndexBytes(index, |index|), |IndexBytes(index, i)|, |index| - i,
                      if i == 0 then None else Some(index[i - 1].key), dataEnd) == Some(index[i..])
    decreases |index| - i
  {
    hide EncodeIndexEntry, IndexEntryFrom, Le, IndexBytes, IndexEntryFits, InData, Less;
    if i < |index| {
      var s := IndexBytes(index, |index|);
      IndexExtent(index, i, |index|);
      IndexEntryThere(index[i], s, |IndexBytes(index, i)|);
      IndexRest(index, i + 1, dataEnd);
      IndexStep(index, i);
      assert index[i..] == [index[i]] + index[i + 1..];
    } else {
      assert index[i..] == [];
    }
  }

  lemma {:induction false} IndexGrows(index: seq<IndexEntry>, n: nat)
    requires n <= |index|
    ensures |IndexBytes(index, n)| >= IndexHeaderSize + n * IndexEntryFixedSize
    ensures IndexBytes(index, n)[0..4] == Le(|index|, 4)
  {
    hide EncodeIndexEntry, Le;
    if n > 0 {
      IndexGrows(index, n - 1);
    }
  }

  lemma ParseIndexBytes(index: seq<IndexEntry>, dataEnd: nat)
    requires IndexOk(index, dataEnd)
    ensures ParseIndex(IndexBytes(index, |index|), dataEnd) == Some(index)
  {
    hide EncodeIndexEntry, IndexFrom, Le, U32At;
    var s := IndexBytes(index, |index|);
    IndexGrows(index, |index|);
    U32RoundTrip(|index|, s, 0);
    IndexRest(index, 0, dataEnd);
    assert index[0..] == index;
  }

  /** The loop of load_index. */
  method LoadIndex(s: seq<Byte>, dataEnd: nat) returns (r: Option<seq<IndexEntry>>)
    ensures r == ParseIndex(s, dataEnd)
  {
    hide IndexEntryFrom, Less;
    if |s| < IndexHeaderSize || U32At(s, 0) * IndexEntryFixedSize > |s| - IndexHeaderSize {
      return None;
    }
    var count := U32At(s, 0);
    var index: seq<IndexEntry>, at: nat, i: nat := [], IndexHeaderSize, 0;
    ThenNone(IndexFrom(s, at, count, None, dataEnd));
    while i < count
      invariant 0 <= i <= count && at <= |s|
      invariant ParseIndex(s, dataEnd)
             == Then(index, IndexFrom(s, at, count - i, if index == [] then None
                 else Some(index[|index| - 1].key), dataEnd))
    {
      var e := IndexEntryFrom(s, at);
      if e.None? || !InData(e.value, dataEnd) || (index != [] && !Less(index[|index| - 1].key, e.value.key)) {
        return None;
      }
      IndexEntryInside(s, at);
      ThenMore(index, e.value, IndexFrom(s, at + IndexEntryFixedSize + |e.value.key|, count - i - 1,
          Some(e.value.key), dataEnd));
      index, at, i := index + [e.value], at + IndexEntryFixedSize + |e.value.key|, i + 1;
    }
    if at != |s| {
      return None;
    }
    assert index + [] == index;
    r := Some(index);
  }

  lemma IndexEntryInside(s: seq<Byte>, at: nat)
    requires IndexEntryFrom(s, at).Some?
    ensures at + IndexEntryFixedSize + |IndexEntryFrom(s, at).value.key| <= |s|
  {
  }

  // -- The footer ------------------------------------------------------------------------------------------

  datatype Footer = Footer(indexOffset: U64, indexSize: U32, filterOffset: U64, filterSize: U32, entries: U64)

  function FooterPayload(f: Footer): (s: seq<Byte>)
    ensures |s| == 36
  {
    Le(f.indexOffset, 8) + Le(f.indexSize, 4) + Le(f.filterOffset, 8) + Le(f.filterSize, 4) + Le(f.entries, 8)
    + Le(FormatVersion, 4)
  }

  function EncodeFooter(crc: Checksum, f: Footer): (s: seq<Byte>)
    ensures |s| == FooterSize
  {
    FooterPayload(f) + Le(crc(FooterPayload(f)), 4) + TableMagic
  }

  function DecodeFooter(crc: Checksum, s: seq<Byte>): Option<Footer> {
    if |s| != FooterSize || s[40..] != TableMagic || U32At(s, 36) != crc(s[..36])
        || U32At(s, 32) != FormatVersion then None
    else Some(Footer(U64At(s, 0), U32At(s, 8), U64At(s, 12), U32At(s, 20), U64At(s, 24)))
  }

  lemma FooterRoundTrip(crc: Checksum, f: Footer)
    ensures DecodeFooter(crc, EncodeFooter(crc, f)) == Some(f)
  {
    hide Le, U32At, U64At;
    var s, p := EncodeFooter(crc, f), FooterPayload(f);
    assert s[..36] == p && s[36..36 + 4] == Le(crc(p), 4) && s[40..] == TableMagic;
    assert s[0..0 + 8] == Le(f.indexOffset, 8) && s[8..8 + 4] == Le(f.indexSize, 4);
    assert s[12..12 + 8] == Le(f.filterOffset, 8) && s[20..20 + 4] == Le(f.filterSize, 4);
    assert s[24..24 + 8] == Le(f.entries, 8) && s[32..32 + 4] == Le(FormatVersion, 4);
    U64RoundTrip(f.indexOffset, s, 0);
    U32RoundTrip(f.indexSize, s, 8);
    U64RoundTrip(f.filterOffset, s, 12);
    U32RoundTrip(f.filterSize, s, 20);
    U64RoundTrip(f.entries, s, 24);
    U32RoundTrip(FormatVersion, s, 32);
    U32RoundTrip(crc(p), s, 36);
  }

  /** Only an encoded footer decodes. */
  lemma FooterDecoded(crc: Checksum, s: seq<Byte>)
    requires DecodeFooter(crc, s).Some?
    ensures EncodeFooter(crc, DecodeFooter(crc, s).value) == s
  {
    hide Le, U32At, U64At;
    U64OfRead(s, 0);
    U32OfRead(s, 8);
    U64OfRead(s, 12);
    U32OfRead(s, 20);
    U64OfRead(s, 24);
    U32OfRead(s, 32);
    U32OfRead(s, 36);
    assert s[..36] == FooterPayload(DecodeFooter(crc, s).value);
  }
}
