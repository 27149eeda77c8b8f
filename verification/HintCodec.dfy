/** Hint files as bytes, and the validation that makes a hint all or nothing. */
module HintCodec {
  import opened Keys
  import opened Entries
  import opened Bytes
  import opened Records
  import opened BitcaskFiles
  import opened BitcaskHints
  import opened SstableCodec
  import RecordCodec
  import LogScan

  const HintHeaderSize: nat := 28
  const HintFooterSize: nat := 24
  const RecordHeaderSize: nat := 21

  /** "KVHT". */
  const HintMagic: seq<Byte> := [75, 86, 72, 84]

  /** An entry every field of which holds its number. */
  predicate HintEntryFits(e: HintEntry) {
    0 < |e.key| <= U32Max && e.ts <= U64Max && e.offset <= U64Max && RecordHeaderSize <= e.size <= U32Max
  }

  function EntryBody(e: HintEntry): seq<Byte> {
    Le(e.ts, 8) + Le(e.offset, 8) + Le(e.size, 4) + Le(|e.key|, 4) + e.key
  }

  function EncodeHintEntry(crc: Checksum, e: HintEntry): (s: seq<Byte>)
    ensures |s| == HintHeaderSize + |e.key|
  {
    Le(crc(EntryBody(e)), 4) + EntryBody(e)
  }

  /** hint::encode_entry, field by field into a buffer. */
  method WriteHintEntry(crc: Checksum, e: HintEntry) returns (out: array<Byte>)
    ensures fresh(out) && out[..] == EncodeHintEntry(crc, e)
  {
    hide Le;
    out := new Byte[HintHeaderSize + |e.key|](_ => 0);
    ghost var gap := out[..4];
    PutLe(out, 4, e.ts, 8);
    PutLe(out, 12, e.offset, 8);
    PutLe(out, 20, e.size, 4);
    PutLe(out, 24, |e.key|, 4);
    PutBytes(out, 28, e.key);
    assert out[..] == out[..28 + |e.key|] == gap + EntryBody(e);
    assert out[4..] == EntryBody(e);
    PutLe(out, 0, crc(out[4..]), 4);
    assert out[..] == out[..4] + out[4..];
  }

  /**
   * decode_entry, of the bytes the key length asks for. That length is narrowed to 32 bits on the
   * way to the read, so a key within 28 bytes of 4 GiB gets too few bytes to decode.
   */
  function HintEntryFrom(crc: Checksum, s: seq<Byte>, at: nat): Option<HintEntry> {
    if at + HintHeaderSize > |s| then None
    else
      var keySize, size := U32At(s, at + 24), U32At(s, at + 20);
      var end := at + HintHeaderSize + keySize;
      if keySize == 0 || HintHeaderSize + keySize > U32Max || size < RecordHeaderSize || end > |s|
          || crc(s[at + 4..end]) != U32At(s, at) then None
      else Some(HintEntry(s[at + HintHeaderSize..end], U64At(s, at + 4), U64At(s, at + 12), size))
  }

  lemma HintEntryThere(crc: Checksum, e: HintEntry, s: seq<Byte>, at: nat)
    requires HintEntryFits(e) && at + 28 + |e.key| <= |s| && s[at..at + 28 + |e.key|] == EncodeHintEntry(crc, e)
    ensures HintEntryFrom(crc, s, at) == if KeyReadable(e) then Some(e) else None
  {
    hide Le, U32At, U64At;
    var c, n := EncodeHintEntry(crc, e), 28 + |e.key|;
    SliceOfSlice(s, at, n, 0, 4);
    SliceOfSlice(s, at, n, 4, 12);
    SliceOfSlice(s, at, n, 12, 20);
    SliceOfSlice(s, at, n, 20, 24);
    SliceOfSlice(s, at, n, 24, 28);
    SliceOfSlice(s, at, n, 28, n);
    SliceOfSlice(s, at, n, 4, n);
    assert c[0..4] == Le(crc(EntryBody(e)), 4) && c[4..n] == EntryBody(e);
    assert c[4..12] == Le(e.ts, 8) && c[12..20] == Le(e.offset, 8) && c[20..24] == Le(e.size, 4);
    assert c[24..28] == Le(|e.key|, 4) && c[28..n] == e.key;
    U32RoundTrip(crc(EntryBody(e)), s, at);
    U64RoundTrip(e.ts, s, at + 4);
    U64RoundTrip(e.offset, s, at + 12);
    U32RoundTrip(e.size, s, at + 20);
    U32RoundTrip(|e.key|, s, at + 24);
  }

  function FooterBody(dataSize: nat, count: nat): (s: seq<Byte>)
    ensures |s| == 20
  {
    HintMagic + Le(dataSize, 8) + Le(count, 8)
  }

  function EntriesBytes(crc: Checksum, entries: seq<HintEntry>, n: nat): seq<Byte>
    requires n <= |entries|
  {
    if n == 0 then [] else EntriesBytes(crc, entries, n - 1) + EncodeHintEntry(crc, entries[n - 1])
  }

  /** The hint file: entries, then the footer that commits them. */
  function HintFile(crc: Checksum, h: Hint): seq<Byte> {
    EntriesBytes(crc, h.entries, |h.entries|) + Seal(crc, FooterBody(h.dataSize, |h.entries|))
  }

  datatype HintFooter = HintFooter(dataSize: nat, count: nat)

  function DecodeHintFooter(crc: Checksum, s: seq<Byte>): Option<HintFooter> {
    if |s| != HintFooterSize || s[..4] != HintMagic || Unseal(crc, s).None? then None
    else Some(HintFooter(U64At(s, 4), U64At(s, 12)))
  }

  lemma HintFooterRoundTrip(crc: Checksum, dataSize: U64, count: U64)
    ensures DecodeHintFooter(crc, Seal(crc, FooterBody(dataSize, count))) == Some(HintFooter(dataSize, count))
  {
    hide Le, U64At, Unseal;
    var p := FooterBody(dataSize, count);
    var s := Seal(crc, p);
    UnsealSealed(crc, p);
    assert s[..4] == p[..4] == HintMagic;
    assert s[4..4 + 8] == p[4..12] == Le(dataSize, 8);
    assert s[12..12 + 8] == p[12..20] == Le(count, 8);
    U64RoundTrip(dataSize, s, 4);
    U64RoundTrip(count, s, 12);
  }

  /** Entries from an offset to the end of their region, each passing the bound for a data file of this size. */
  function EntriesFrom(crc: Checksum, s: seq<Byte>, at: nat, dataSize: nat): Option<seq<HintEntry>>
    requires at <= |s|
    decreases |s| - at
  {
    if at == |s| then Some([])
    else
      var e := HintEntryFrom(crc, s, at);
      if e.None? || !EndsInside(e.value, dataSize) then None
      else Then([e.value], EntriesFrom(crc, s, at + HintHeaderSize + |e.value.key|, dataSize))
  }

  /** replay_hint's validation: the whole hint, or nothing of it. */
  function ReadHint(crc: Checksum, s: seq<Byte>, dataSize: nat): Option<seq<HintEntry>> {
    if |s| < HintFooterSize then None
    else
      var end := |s| - HintFooterSize;
      var footer := DecodeHintFooter(crc, s[end..]);
      if footer.None? || footer.value.dataSize != dataSize || footer.value.count > end / HintHeaderSize then None
      else
        var entries := EntriesFrom(crc, s[..end], 0, dataSize);
        if entries.None? || |entries.value| != footer.value.count then None else entries
  }

  /** replay_hint's loop. */
  method ReadEntries(crc: Checksum, s: seq<Byte>, dataSize: nat) returns (r: Option<seq<HintEntry>>)
    ensures r == EntriesFrom(crc, s, 0, dataSize)
  {
    hide HintEntryFrom;
    var entries: seq<HintEntry>, at: nat := [], 0;
    ThenNone(EntriesFrom(crc, s, 0, dataSize));
    while at < |s|
      invariant at <= |s| && EntriesFrom(crc, s, 0, dataSize) == Then(entries, EntriesFrom(crc, s, at, dataSize))
    {
      var e := HintEntryFrom(crc, s, at);
      if e.None? || !EndsInside(e.value, dataSize) {
        return None;
      }
      HintEntryInside(crc, s, at);
      ThenMore(entries, e.value, EntriesFrom(crc, s, at + HintHeaderSize + |e.value.key|, dataSize));
      entries, at := entries + [e.value], at + HintHeaderSize + |e.value.key|;
    }
    assert entries + [] == entries;
    r := Some(entries);
  }

  lemma HintEntryInside(crc: Checksum, s: seq<Byte>, at: nat)
    requires HintEntryFrom(crc, s, at).Some?
    ensures at + HintHeaderSize + |HintEntryFrom(crc, s, at).value.key| <= |s|
  {
  }

  // -- What compaction writes is read back ---------------------------------------------------------------

  lemma {:induction false} EntriesExtent(crc: Checksum, entries: seq<HintEntry>, i: nat, n: nat)
    requires i < n <= |entries|
    ensures |EntriesBytes(crc, entries, i)| + 28 + |entries[i].key| <= |EntriesBytes(crc, entries, n)|
    ensures EntriesBytes(crc, entries, n)[|EntriesBytes(crc, entries, i)|..|EntriesBytes(crc, entries, i)| + 28
        + |entries[i].key|]
         == EncodeHintEntry(crc, entries[i])
  {
    hide EncodeHintEntry;
    if i < n - 1 {
      EntriesExtent(crc, entries, i, n - 1);
    }
  }

  lemma EntriesStep(crc: Checksum, entries: seq<HintEntry>, i: nat)
    requires i < |entries|
    ensures |EntriesBytes(crc, entries, i + 1)| == |EntriesBytes(crc, entries, i)| + 28 + |entries[i].key|
  {
    hide EncodeHintEntry;
  }

  /** What reading asks of every entry from number i on. */
  predicate GoodFrom(h: Hint, i: nat, dataSize: nat)
    requires i <= |h.entries|
  {
    forall j :: i <= j < |h.entries| ==> EndsInside(h.entries[j], dataSize) && KeyReadable(h.entries[j])
  }

  lemma {:induction false} EntriesRest(crc: Checksum, h: Hint, i: nat, dataSize: nat)
    requires i <= |h.entries| && forall j :: 0 <= j < |h.entries| ==> HintEntryFits(h.entries[j])
    ensures |EntriesBytes(crc, h.entries, i)| <= |EntriesBytes(crc, h.entries, |h.entries|)|
    ensures EntriesFrom(crc, EntriesBytes(crc, h.entries, |h.entries|), |EntriesBytes(crc, h.entries, i)|, dataSize)
         == if GoodFrom(h, i, dataSize) then Some(h.entries[i..]) else None
    decreases |h.entries| - i
  {
    hide EncodeHintEntry, HintEntryFrom, EntriesBytes, HintEntryFits, EndsInside, KeyReadable;
    if i < |h.entries| {
      var s := EntriesBytes(crc, h.entries, |h.entries|);
      EntriesExtent(crc, h.entries, i, |h.entries|);
      HintEntryThere(crc, h.entries[i], s, |EntriesBytes(crc, h.entries, i)|);
      EntriesStep(crc, h.entries, i);
      EntriesRest(crc, h, i + 1, dataSize);
      assert GoodFrom(h, i, dataSize) <==>
        EndsInside(h.entries[i], dataSize) && KeyReadable(h.entries[i]) && GoodFrom(h, i + 1, dataSize);
      assert h.entries[i..] == [h.entries[i]] + h.entries[i + 1..];
    } else {
      assert h.entries[i..] == [];
    }
  }

  lemma {:induction false} EntriesSize(crc: Checksum, entries: seq<HintEntry>, n: nat)
    requires n <= |entries|
    ensures |EntriesBytes(crc, entries, n)| >= n * HintHeaderSize
  {
    hide EncodeHintEntry;
    if n > 0 {
      EntriesSize(crc, entries, n - 1);
    }
  }

  /** A finished hint file, found beside a data file of any size, is taken exactly when the hint is acceptable there,
      and as written. */
  lemma HintRoundTrip(crc: Checksum, h: Hint, dataSize: nat)
    requires h.dataSize <= U64Max && |h.entries| <= U64Max
    requires forall j :: 0 <= j < |h.entries| ==> HintEntryFits(h.entries[j])
    ensures ReadHint(crc, HintFile(crc, h), dataSize) == if Accepts(h, dataSize) then Some(h.entries) else None
  {
    hide EntriesBytes, HintEntryFits, FooterBody, Seal, DecodeHintFooter, EntriesFrom, EndsInside, KeyReadable;
    var s, body, tail := HintFile(crc, h), EntriesBytes(crc, h.entries, |h.entries|),
        Seal(crc, FooterBody(h.dataSize, |h.entries|));
    var end := |s| - HintFooterSize;
    assert end == |body| && s[..end] == body && s[end..] == tail;
    HintFooterRoundTrip(crc, h.dataSize, |h.entries|);
    EntriesSize(crc, h.entries, |h.entries|);
    EntriesRest(crc, h, 0, dataSize);
    EmptyPrefix(crc, h.entries);
    assert h.entries[0..] == h.entries;
    assert GoodFrom(h, 0, h.dataSize) <==> Accepts(h, h.dataSize);
  }

  lemma EmptyPrefix(crc: Checksum, entries: seq<HintEntry>)
    ensures EntriesBytes(crc, entries, 0) == []
  {
  }

  /** A hint for a data file of another length is never taken. */
  lemma StaleHintRefused(crc: Checksum, h: Hint, dataSize: nat)
    requires h.dataSize <= U64Max && |h.entries| <= U64Max && dataSize != h.dataSize
    ensures ReadHint(crc, HintFile(crc, h), dataSize) == None
  {
    hide EntriesBytes, FooterBody, Seal, DecodeHintFooter, EntriesFrom;
    var s, body, tail := HintFile(crc, h), EntriesBytes(crc, h.entries, |h.entries|),
        Seal(crc, FooterBody(h.dataSize, |h.entries|));
    assert s[|s| - HintFooterSize..] == tail;
    HintFooterRoundTrip(crc, h.dataSize, |h.entries|);
  }

  /**
   * Whatever bytes a hint file holds, an accepted entry is well formed; and its record lies inside
   * the data file exactly when the end of that record does not overflow 64 bits.
   */
  lemma {:induction false} AcceptedInside(crc: Checksum, s: seq<Byte>, at: nat, dataSize: U64, i: nat)
    requires at <= |s| && EntriesFrom(crc, s, at, dataSize).Some? && i < |EntriesFrom(crc, s, at, dataSize).value|
    ensures var e := EntriesFrom(crc, s, at, dataSize).value[i];
            HintEntryFits(e) && KeyReadable(e) && (e.offset + e.size <= dataSize <==> e.offset + e.size <= U64Max)
    decreases |s| - at
  {
    hide U32At, U64At;
    var e := HintEntryFrom(crc, s, at).value;
    if i > 0 {
      AcceptedInside(crc, s, at + HintHeaderSize + |e.key|, dataSize, i - 1);
    }
  }

  /** An entry whose record would start 21 bytes before the end of the 64-bit range. */
  const WrappingEntry: HintEntry := HintEntry([1], 0, U64Max - 20, 21)

  /** Such an entry is accepted beside any data file, though nothing it names is in one. */
  lemma OverflowIsAccepted(crc: Checksum, dataSize: U64)
    ensures ReadHint(crc, HintFile(crc, Hint([WrappingEntry], dataSize)), dataSize) == Some([WrappingEntry])
    ensures WrappingEntry.offset + WrappingEntry.size > dataSize
  {
    hide ReadHint, HintFile;
    HintRoundTrip(crc, Hint([WrappingEntry], dataSize), dataSize);
  }

  lemma HintOfFits(recs: seq<Rec>, i: nat)
    requires i < |recs| && RecordCodec.Fits(recs[i]) && FileSize(recs) <= U64Max
    ensures HintEntryFits(HintOf(recs).entries[i])
  {
    OffsetsIncrease(recs, i, |recs|);
  }

  /**
   * From bytes to index: the hint file compaction writes beside its output is taken exactly when no
   * key is within 28 bytes of 4 GiB, and then rebuilds what scanning the output's own bytes would,
   * which is what recovery does instead when the hint is refused.
   */
  lemma HintFileIsScan(crc: Checksum, id: nat, recs: seq<Rec>, st: Store)
    requires AllPuts(recs) && (forall i :: 0 <= i < |recs| ==> RecordCodec.Fits(recs[i]))
    requires FileSize(recs) <= U64Max && |recs| <= U64Max
    ensures var data := LogScan.EncodeAll(crc, recs, |recs|);
            var hint, scan := ReadHint(crc, HintFile(crc, HintOf(recs)), |data|), LogScan.ScanFrom(crc, data, 0);
            && scan == LogScan.Scanned(recs, |data|)
            && (hint.Some? <==> forall i :: 0 <= i < |recs| ==> 28 + |recs[i].key| <= U32Max)
            && (hint.Some? ==>
               ReplayHint(id, hint.value, |hint.value|, st) == ReplayRecs(id, scan.recs, |scan.recs|, st))
  {
    hide ReplayHint, ReplayRecs, ReadHint, HintFile, Accepts, HintEntryFits, AllPuts;
    HintAccepted(recs);
    forall i | 0 <= i < |recs| ensures HintEntryFits(HintOf(recs).entries[i]) {
      HintOfFits(recs, i);
    }
    HintRoundTrip(crc, HintOf(recs), FileSize(recs));
    LogScan.EncodeAllSize(crc, recs, |recs|);
    LogScan.AllRecords(crc, recs, |recs|);
    assert recs[..|recs|] == recs;
    HintReplaysTheFile(id, recs, |recs|, st);
  }

  /** Keys of these seven lengths can be put, and the hint of a merged file holding one is refused. */
  lemma LongKeyHintRefused(crc: Checksum, key: Key, ts: U64)
    requires U32Max - 28 < |key| <= U32Max - 21
    ensures var r := Rec(key, Live([]), ts);
            RecordCodec.Fits(r) && ReadHint(crc, HintFile(crc, HintOf([r])), FileSize([r])) == None
  {
    hide ReadHint, HintFile, ReplayHint, ReplayRecs;
    var r := Rec(key, Live([]), ts);
    assert Offset([r], 0) == 0 && FileSize([r]) == RecSize(r);
    LogScan.EncodeAllSize(crc, [r], 1);
    HintFileIsScan(crc, 0, [r], Fresh);
    assert [r][0].key == key;
  }
}
