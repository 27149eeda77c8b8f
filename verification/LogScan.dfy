/** Scanning a log: the records it holds, and where the last whole one ends. */
module LogScan {
  import opened Keys
  import opened Entries
  import opened Bytes
  import opened Records
  import opened BitcaskFiles
  import opened RecordCodec

  datatype Scanned = Scanned(recs: seq<Rec>, end: nat)

  /** The whole record that starts at an offset, if there is one. */
  function RecordFrom(crc: Checksum, s: seq<Byte>, at: nat): Option<Rec> {
    if at + HeaderSize > |s| || Announced(s[at..]).None? || at + Announced(s[at..]).value > |s| then None
    else Decode(crc, s[at..at + Announced(s[at..]).value])
  }

  lemma RecordFromSize(crc: Checksum, s: seq<Byte>, at: nat)
    requires RecordFrom(crc, s, at).Some?
    ensures HeaderSize < RecSize(RecordFrom(crc, s, at).value)
    ensures at + RecSize(RecordFrom(crc, s, at).value) == at + Announced(s[at..]).value <= |s|
    ensures Fits(RecordFrom(crc, s, at).value)
  {
    hide Decode, Announced, RecSize;
    var n := Announced(s[at..]).value;
    EncodeDecoded(crc, s[at..at + n]);
    SliceOfPrefix(s[at..], n, 0, HeaderSize);
    assert s[at..][..n] == s[at..at + n];
    DecodeLocal(crc, s[at..], s[at..at + n]);
  }

  /** Everything readable from an offset on: records back to back until one does not verify. */
  function ScanFrom(crc: Checksum, s: seq<Byte>, at: nat): Scanned
    decreases |s| - at
  {
    if RecordFrom(crc, s, at).None? then Scanned([], at)
    else
      RecordFromSize(crc, s, at);
      var r := RecordFrom(crc, s, at).value;
      var rest := ScanFrom(crc, s, at + RecSize(r));
      Scanned([r] + rest.recs, rest.end)
  }

  /** scan_records, handing each record on as it goes. */
  method ScanRecords(crc: Checksum, s: seq<Byte>) returns (recs: seq<Rec>, goodEnd: nat)
    ensures Scanned(recs, goodEnd) == ScanFrom(crc, s, 0)
  {
    hide RecordFrom, Decode, Announced, RecSize;
    recs, goodEnd := [], 0;
    var offset := 0;
    while offset + HeaderSize <= |s|
      invariant offset == goodEnd && offset <= |s|
      invariant ScanFrom(crc, s, 0).recs == recs + ScanFrom(crc, s, offset).recs
      invariant ScanFrom(crc, s, 0).end == ScanFrom(crc, s, offset).end
    {
      StopsOrGoesOn(crc, s, offset);
      var size := Announced(s[offset..offset + HeaderSize]);
      if size.None? || offset + size.value > |s| {
        break;
      }
      var rec := Decode(crc, s[offset..offset + size.value]);
      if rec.None? {
        break;
      }
      recs, offset := recs + [rec.value], offset + size.value;
      goodEnd := offset;
    }
    if offset + HeaderSize > |s| {
      NoRoom(crc, s, offset);
    }
  }

  lemma NoRoom(crc: Checksum, s: seq<Byte>, at: nat)
    requires at + HeaderSize > |s|
    ensures RecordFrom(crc, s, at).None?
  {
  }

  lemma StopsOrGoesOn(crc: Checksum, s: seq<Byte>, at: nat)
    requires at + HeaderSize <= |s|
    ensures var size := Announced(s[at..at + HeaderSize]);
            if size.None? || at + size.value > |s| then RecordFrom(crc, s, at).None?
            else && RecordFrom(crc, s, at) == Decode(crc, s[at..at + size.value])
                 && (RecordFrom(crc, s, at).Some? ==> RecSize(RecordFrom(crc, s, at).value) == size.value)
  {
    hide Decode, Announced, RecSize;
    assert s[at..][..HeaderSize] == s[at..at + HeaderSize] == s[at..at + HeaderSize][..HeaderSize];
    DecodeLocal(crc, s[at..], s[at..at + HeaderSize]);
    if RecordFrom(crc, s, at).Some? {
      RecordFromSize(crc, s, at);
    }
  }

  // -- What the scan of any bytes means --------------------------------------------------------------

  lemma {:induction false} EndInside(crc: Checksum, s: seq<Byte>, at: nat)
    requires at <= |s|
    ensures at <= ScanFrom(crc, s, at).end <= |s|
    decreases |s| - at
  {
    hide RecordFrom;
    if RecordFrom(crc, s, at).Some? {
      RecordFromSize(crc, s, at);
      EndInside(crc, s, at + RecSize(RecordFrom(crc, s, at).value));
    }
  }

  lemma RecordFromLocal(crc: Checksum, s: seq<Byte>, t: seq<Byte>, at: nat)
    requires RecordFrom(crc, s, at).Some?
    requires var n := at + RecSize(RecordFrom(crc, s, at).value); n <= |s| && n <= |t| && s[..n] == t[..n]
    ensures RecordFrom(crc, t, at) == RecordFrom(crc, s, at)
  {
    hide Decode, Announced, RecSize;
    RecordFromSize(crc, s, at);
    var size := Announced(s[at..]).value;
    var n := at + size;
    SliceOfPrefix(s, n, at, at + HeaderSize);
    SliceOfPrefix(t, n, at, at + HeaderSize);
    SliceOfPrefix(s, n, at, n);
    SliceOfPrefix(t, n, at, n);
    assert s[at..][..HeaderSize] == s[at..at + HeaderSize] && t[at..][..HeaderSize] == t[at..at + HeaderSize];
    DecodeLocal(crc, s[at..], t[at..]);
  }

  /**
   * Whatever bytes a log holds, keeping them only up to where the scan stopped and going on from
   * there keeps every record: nothing before the cut changes, and the cut is where reading resumes.
   */
  lemma {:induction false} ScanResumes(crc: Checksum, s: seq<Byte>, t: seq<Byte>, at: nat)
    requires at <= |s| && ScanFrom(crc, s, at).end <= |s|
    requires ScanFrom(crc, s, at).end <= |t| && t[..ScanFrom(crc, s, at).end] == s[..ScanFrom(crc, s, at).end]
    ensures var before, after := ScanFrom(crc, s, at), ScanFrom(crc, t, ScanFrom(crc, s, at).end);
            ScanFrom(crc, t, at) == Scanned(before.recs + after.recs, after.end)
    decreases |s| - at
  {
    hide RecordFrom, RecSize, ScanFrom;
    ScanStep(crc, s, at);
    if RecordFrom(crc, s, at).Some? {
      var e := ScanFrom(crc, s, at).end;
      RecordFromSize(crc, s, at);
      var r := RecordFrom(crc, s, at).value;
      var n := at + RecSize(r);
      EndInside(crc, s, n);
      SliceOfPrefix(s, e, 0, n);
      SliceOfPrefix(t, e, 0, n);
      RecordFromLocal(crc, s, t, at);
      ScanStep(crc, t, at);
      ScanResumes(crc, s, t, n);
      var before, after := ScanFrom(crc, s, n), ScanFrom(crc, t, e);
      assert [r] + (before.recs + after.recs) == [r] + before.recs + after.recs;
    } else {
      assert [] + ScanFrom(crc, t, at).recs == ScanFrom(crc, t, at).recs;
    }
  }

  lemma ScanStep(crc: Checksum, s: seq<Byte>, at: nat)
    ensures RecordFrom(crc, s, at).None? ==> ScanFrom(crc, s, at) == Scanned([], at)
    ensures RecordFrom(crc, s, at).Some? ==>
      var r := RecordFrom(crc, s, at).value;
      var rest := ScanFrom(crc, s, at + RecSize(r));
      ScanFrom(crc, s, at) == Scanned([r] + rest.recs, rest.end)
  {
    hide RecordFrom, RecSize;
  }

  /** Truncated to where the scan stopped, a log is clean: the same records, and nothing after them. */
  lemma TruncateCleans(crc: Checksum, s: seq<Byte>)
    ensures var found := ScanFrom(crc, s, 0);
            found.end <= |s| && ScanFrom(crc, s[..found.end], 0) == found
  {
    hide RecordFrom;
    EndInside(crc, s, 0);
    var e := ScanFrom(crc, s, 0).end;
    ScanResumes(crc, s, s[..e], 0);
    NoRoom(crc, s[..e], e);
  }

  lemma OneRecord(crc: Checksum, r: Rec, s: seq<Byte>, at: nat)
    requires Fits(r) && at + RecSize(r) <= |s| && s[at..at + RecSize(r)] == Encode(crc, r)
    ensures RecordFrom(crc, s, at) == Some(r)
  {
    hide Encode, Decode, Announced, RecSize;
    assert s[at..][..RecSize(r)] == Encode(crc, r);
    DecodeEncoded(crc, r, s[at..]);
    DecodeEncoded(crc, r, s[at..at + RecSize(r)]);
  }

  /** A record appended after the cut is found again, after exactly the records that were there. */
  lemma AppendSurvives(crc: Checksum, s: seq<Byte>, r: Rec)
    requires Fits(r)
    ensures var found := ScanFrom(crc, s, 0);
            && found.end <= |s|
            && ScanFrom(crc, s[..found.end] + Encode(crc, r), 0) == Scanned(found.recs + [r], found.end + RecSize(r))
  {
    hide RecordFrom, Encode, ScanFrom, RecSize;
    EndInside(crc, s, 0);
    var e := ScanFrom(crc, s, 0).end;
    var t := s[..e] + Encode(crc, r);
    assert t[..e] == s[..e] && t[e..] == Encode(crc, r);
    ScanResumes(crc, s, t, 0);
    LastRecord(crc, r, t, e);
  }

  lemma LastRecord(crc: Checksum, r: Rec, s: seq<Byte>, at: nat)
    requires Fits(r) && at <= |s| && s[at..] == Encode(crc, r)
    ensures ScanFrom(crc, s, at) == Scanned([r], at + RecSize(r))
  {
    hide RecordFrom, Encode, RecSize;
    assert |s| == at + RecSize(r) && s[at..at + RecSize(r)] == s[at..];
    OneRecord(crc, r, s, at);
    NoRoom(crc, s, at + RecSize(r));
    assert ScanFrom(crc, s, at + RecSize(r)) == Scanned([], at + RecSize(r));
  }

  // -- What the scan of a log a crash cut means -----------------------------------------------------------

  function EncodeAll(crc: Checksum, recs: seq<Rec>, n: nat): seq<Byte>
    requires n <= |recs|
  {
    if n == 0 then [] else EncodeAll(crc, recs, n - 1) + Encode(crc, recs[n - 1])
  }

  /** A record's offset in a data file is where its bytes start. */
  lemma {:induction false} EncodeAllSize(crc: Checksum, recs: seq<Rec>, n: nat)
    requires n <= |recs|
    ensures |EncodeAll(crc, recs, n)| == Offset(recs, n)
  {
    hide Encode;
    if n > 0 {
      EncodeAllSize(crc, recs, n - 1);
    }
  }

  lemma {:induction false} AllRecords(crc: Checksum, recs: seq<Rec>, n: nat)
    requires n <= |recs| && forall i :: 0 <= i < n ==> Fits(recs[i])
    ensures ScanFrom(crc, EncodeAll(crc, recs, n), 0) == Scanned(recs[..n], Offset(recs, n))
  {
    hide Encode, RecordFrom, ScanFrom, RecSize;
    EncodeAllSize(crc, recs, n);
    if n == 0 {
      ScanNothing(crc);
    } else {
      AllRecords(crc, recs, n - 1);
      AppendSurvives(crc, EncodeAll(crc, recs, n - 1), recs[n - 1]);
      var s := EncodeAll(crc, recs, n - 1);
      EncodeAllSize(crc, recs, n - 1);
      assert s[..Offset(recs, n - 1)] == s;
      assert recs[..n] == recs[..n - 1] + [recs[n - 1]];
    }
  }

  lemma ScanNothing(crc: Checksum)
    ensures ScanFrom(crc, [], 0) == Scanned([], 0)
  {
  }

  /** The write a crash cut short is never read as a record. */
  lemma CutIsNoRecord(crc: Checksum, s: seq<Byte>, at: nat, r: Rec, n: nat)
    requires Fits(r) && n < RecSize(r) && at <= |s| && s[at..] == Encode(crc, r)[..n]
    ensures RecordFrom(crc, s, at).None?
  {
    hide Encode;
    CutNeverDecodes(crc, r, n);
  }

  /**
   * Cut a log anywhere inside the record being written, and a scan finds exactly the records before
   * it and says where they end.
   */
  lemma TornTailIsDropped(crc: Checksum, recs: seq<Rec>, r: Rec, n: nat)
    requires Fits(r) && n < RecSize(r) && forall i :: 0 <= i < |recs| ==> Fits(recs[i])
    ensures ScanFrom(crc, EncodeAll(crc, recs, |recs|) + Encode(crc, r)[..n], 0) == Scanned(recs, FileSize(recs))
  {
    hide Encode, RecordFrom, EncodeAll, Offset;
    var s := EncodeAll(crc, recs, |recs|);
    var t := s + Encode(crc, r)[..n];
    AllRecords(crc, recs, |recs|);
    EncodeAllSize(crc, recs, |recs|);
    assert recs[..|recs|] == recs && t[..|s|] == s == s[..|s|] && t[|s|..] == Encode(crc, r)[..n];
    ScanResumes(crc, s, t, 0);
    CutIsNoRecord(crc, t, |s|, r, n);
  }

  /** The bytes a pointer names are the record it was made for. */
  lemma PointerReads(crc: Checksum, recs: seq<Rec>, i: nat, tail: seq<Byte>)
    requires i < |recs| && Fits(recs[i])
    ensures var s := EncodeAll(crc, recs, |recs|) + tail;
            && Offset(recs, i) + RecSize(recs[i]) <= |s|
            && Decode(crc, s[Offset(recs, i)..Offset(recs, i) + RecSize(recs[i])]) == Some(recs[i])
  {
    hide Encode, Decode;
    Extent(crc, recs, i, |recs|);
    EncodeAllSize(crc, recs, |recs|);
    var s := EncodeAll(crc, recs, |recs|) + tail;
    assert s[Offset(recs, i)..Offset(recs, i + 1)] == Encode(crc, recs[i]);
    DecodeEncoded(crc, recs[i], Encode(crc, recs[i]));
    assert Encode(crc, recs[i])[..RecSize(recs[i])] == Encode(crc, recs[i]);
  }

  lemma {:induction false} Extent(crc: Checksum, recs: seq<Rec>, i: nat, n: nat)
    requires i < n <= |recs|
    ensures Offset(recs, i + 1) <= |EncodeAll(crc, recs, n)|
    ensures EncodeAll(crc, recs, n)[Offset(recs, i)..Offset(recs, i + 1)] == Encode(crc, recs[i])
  {
    hide Encode;
    EncodeAllSize(crc, recs, n - 1);
    if i < n - 1 {
      Extent(crc, recs, i, n - 1);
    }
  }
}
