/** The log record: [crc 4 | timestamp 8 | flags 1 | key size 4 | value size 4 | key | value]. */
module RecordCodec {
  import opened Keys
  import opened Entries
  import opened Bytes
  import opened Records

  const HeaderSize: nat := 21

  function ValueOf(r: Rec): Value {
    if r.cell.Live? then r.cell.value else []
  }

  /** What check_record_fits and the empty-key check let through. */
  predicate Fits(r: Rec) {
    r.key != [] && RecSize(r) <= U32Max && r.ts <= U64Max
  }

  /** Everything the checksum covers: all but the checksum itself. */
  function Payload(r: Rec): seq<Byte> {
    Le(r.ts, 8) + [if r.cell.Tombstone? then 1 else 0] + Le(|r.key|, 4) + Le(|ValueOf(r)|, 4) + r.key + ValueOf(r)
  }

  function Encode(crc: Checksum, r: Rec): (s: seq<Byte>)
    ensures |s| == RecSize(r)
  {
    Le(crc(Payload(r)), 4) + Payload(r)
  }

  /** decode_header: the size of the record a header announces, unless the header is malformed. */
  function Announced(s: seq<Byte>): (size: Option<nat>)
    requires |s| >= HeaderSize
    ensures size.Some? ==> HeaderSize < size.value <= U32Max
  {
    var keySize, valueSize := U32At(s, 13), U32At(s, 17);
    if keySize == 0 then None
    else if s[12] % 2 == 1 && valueSize != 0 then None
    else if HeaderSize + keySize + valueSize > U32Max then None
    else Some(HeaderSize + keySize + valueSize)
  }

  function Decode(crc: Checksum, s: seq<Byte>): Option<Rec> {
    if |s| < HeaderSize || Announced(s).None? then None
    else
      var total := Announced(s).value;
      if |s| < total || crc(s[4..total]) != U32At(s, 0) then None
      else
        var mid := HeaderSize + U32At(s, 13);
        Some(Rec(s[HeaderSize..mid], if s[12] % 2 == 1 then Tombstone else Live(s[mid..total]), U64At(s, 4)))
  }

  /** Where each field of an encoded record lies. */
  lemma Layout(crc: Checksum, r: Rec, s: seq<Byte>)
    requires |s| >= RecSize(r) && s[..RecSize(r)] == Encode(crc, r)
    ensures s[0..4] == Le(crc(Payload(r)), 4) && s[4..12] == Le(r.ts, 8)
    ensures s[12] == if r.cell.Tombstone? then 1 else 0
    ensures s[13..17] == Le(|r.key|, 4) && s[17..21] == Le(|ValueOf(r)|, 4)
    ensures s[21..21 + |r.key|] == r.key && s[21 + |r.key|..RecSize(r)] == ValueOf(r)
    ensures s[4..RecSize(r)] == Payload(r)
  {
    hide Le, Payload;
    var n, m := RecSize(r), 21 + |r.key|;
    Pieces(crc, r);
    SliceOfPrefix(s, n, 0, 4);
    SliceOfPrefix(s, n, 4, 12);
    SliceOfPrefix(s, n, 13, 17);
    SliceOfPrefix(s, n, 17, 21);
    SliceOfPrefix(s, n, 21, m);
    SliceOfPrefix(s, n, m, n);
    SliceOfPrefix(s, n, 4, n);
    assert s[12] == s[..n][12];
  }

  lemma Pieces(crc: Checksum, r: Rec)
    ensures var e, m, n := Encode(crc, r), 21 + |r.key|, RecSize(r);
            && e[0..4] == Le(crc(Payload(r)), 4) && e[4..12] == Le(r.ts, 8)
            && e[12] == (if r.cell.Tombstone? then 1 else 0)
            && e[13..17] == Le(|r.key|, 4) && e[17..21] == Le(|ValueOf(r)|, 4)
            && e[21..m] == r.key && e[m..n] == ValueOf(r) && e[4..n] == Payload(r)
  {
    hide Le;
    var p, e, k, n := Payload(r), Encode(crc, r), |r.key|, RecSize(r);
    assert p[0..8] == Le(r.ts, 8) && p[9..13] == Le(k, 4) && p[13..17] == Le(|ValueOf(r)|, 4);
    assert p[17..17 + k] == r.key && p[17 + k..n - 4] == ValueOf(r);
    AfterFour(Le(crc(p), 4), p, 0, 8);
    AfterFour(Le(crc(p), 4), p, 9, 13);
    AfterFour(Le(crc(p), 4), p, 13, 17);
    AfterFour(Le(crc(p), 4), p, 17, 17 + k);
    AfterFour(Le(crc(p), 4), p, 17 + k, n - 4);
    AfterFour(Le(crc(p), 4), p, 0, n - 4);
    assert p[0..n - 4] == p && e[0..4] == Le(crc(p), 4);
  }

  lemma AfterFour(a: seq<Byte>, p: seq<Byte>, i: nat, j: nat)
    requires |a| == 4 && i <= j <= |p|
    ensures (a + p)[4 + i..4 + j] == p[i..j]
  {
  }

  lemma Sizes(crc: Checksum, r: Rec, s: seq<Byte>)
    requires Fits(r) && |s| >= HeaderSize && s[..HeaderSize] == Encode(crc, r)[..HeaderSize]
    ensures U32At(s, 13) == |r.key| && U32At(s, 17) == |ValueOf(r)| && Announced(s) == Some(RecSize(r))
  {
    hide Le, U32At;
    var e := Encode(crc, r);
    Layout(crc, r, e);
    assert s[13..17] == s[..21][13..17] == e[..21][13..17] == e[13..17];
    assert s[17..21] == s[..21][17..21] == e[..21][17..21] == e[17..21];
    assert s[12] == s[..21][12] == e[..21][12] == e[12];
    U32RoundTrip(|r.key|, s, 13);
    U32RoundTrip(|ValueOf(r)|, s, 17);
  }

  /** A record decodes to itself, whatever follows it. */
  lemma DecodeEncoded(crc: Checksum, r: Rec, s: seq<Byte>)
    requires Fits(r) && |s| >= RecSize(r) && s[..RecSize(r)] == Encode(crc, r)
    ensures Announced(s) == Some(RecSize(r)) && Decode(crc, s) == Some(r)
  {
    hide Le, U32At, U64At, Payload;
    assert s[..HeaderSize] == Encode(crc, r)[..HeaderSize];
    Sizes(crc, r, s);
    Layout(crc, r, s);
    U64RoundTrip(r.ts, s, 4);
    U32RoundTrip(crc(Payload(r)), s, 0);
    assert s[21 + |r.key|..RecSize(r)] == ValueOf(r);
  }

  /** A record cut short anywhere, as a crash cuts it, never decodes. */
  lemma CutNeverDecodes(crc: Checksum, r: Rec, n: nat)
    requires Fits(r) && n < RecSize(r)
    ensures Decode(crc, Encode(crc, r)[..n]) == None
    ensures n >= HeaderSize ==> Announced(Encode(crc, r)[..n]) == Some(RecSize(r))
  {
    if n >= HeaderSize {
      assert Encode(crc, r)[..n][..HeaderSize] == Encode(crc, r)[..HeaderSize];
      Sizes(crc, r, Encode(crc, r)[..n]);
    }
  }

  /**
   * What decodes was encoded: the decoded record re-encodes to the bytes it came from exactly when
   * the seven flag bits that decoding does not look at are clear.
   */
  lemma EncodeDecoded(crc: Checksum, s: seq<Byte>)
    requires Decode(crc, s).Some?
    ensures var r := Decode(crc, s).value;
            && Fits(r) && RecSize(r) == Announced(s).value <= |s|
            && (Encode(crc, r) == s[..RecSize(r)] <==> s[12] <= 1)
  {
    hide Le, U32At, U64At;
    var r := Decode(crc, s).value;
    var t := s[..RecSize(r)];
    var keySize, valueSize := U32At(s, 13), U32At(s, 17);
    U32OfRead(s, 0);
    U64OfRead(s, 4);
    U32OfRead(s, 13);
    U32OfRead(s, 17);
    assert valueSize == |ValueOf(r)| && keySize == |r.key|;
    if s[12] <= 1 {
      assert s[4..RecSize(r)] == Payload(r);
      assert t == s[0..4] + s[4..RecSize(r)];
    } else if Encode(crc, r) == t {
      Layout(crc, r, s);
      assert false;
    }
  }

  /** Decoding looks only at the bytes the header announces. */
  lemma DecodeLocal(crc: Checksum, a: seq<Byte>, b: seq<Byte>)
    requires |a| >= HeaderSize && |b| >= HeaderSize && a[..HeaderSize] == b[..HeaderSize]
    ensures Announced(a) == Announced(b)
    ensures (Announced(a).Some? && Announced(a).value <= |a| && Announced(a).value <= |b|
             && a[..Announced(a).value] == b[..Announced(a).value]) ==> Decode(crc, a) == Decode(crc, b)
  {
    hide U32At, U64At;
    assert a[13..17] == a[..21][13..17] == b[..21][13..17] == b[13..17];
    assert a[17..21] == a[..21][17..21] == b[..21][17..21] == b[17..21];
    assert a[0..4] == a[..21][0..4] == b[..21][0..4] == b[0..4];
    assert a[4..12] == a[..21][4..12] == b[..21][4..12] == b[4..12];
    assert a[12] == a[..21][12] == b[..21][12] == b[12];
    U32Same(a, 13, b, 13);
    U32Same(a, 17, b, 17);
    U32Same(a, 0, b, 0);
    U64Same(a, 4, b, 4);
    if Announced(a).Some? && Announced(a).value <= |a| && Announced(a).value <= |b| {
      var n, mid := Announced(a).value, 21 + U32At(a, 13);
      if a[..n] == b[..n] {
        SliceOfPrefix(a, n, 4, n);
        SliceOfPrefix(b, n, 4, n);
        SliceOfPrefix(a, n, 21, mid);
        SliceOfPrefix(b, n, 21, mid);
        SliceOfPrefix(a, n, mid, n);
        SliceOfPrefix(b, n, mid, n);
      }
    }
  }

  /** The fixed fields, after room for the checksum. */
  method PutHeader(out: array<Byte>, r: Rec)
    requires out.Length >= HeaderSize
    modifies out
    ensures out[..21] == old(out[..4]) + Le(r.ts, 8) + [if r.cell.Tombstone? then 1 else 0] + Le(|r.key|, 4)
        + Le(|ValueOf(r)|, 4)
  {
    hide Le;
    PutLe(out, 4, r.ts, 8);
    PutBytes(out, 12, [if r.cell.Tombstone? then 1 else 0]);
    PutLe(out, 13, |r.key|, 4);
    PutLe(out, 17, |ValueOf(r)|, 4);
  }

  lemma PayloadPieces(gap: seq<Byte>, r: Rec)
    ensures gap + Le(r.ts, 8) + [if r.cell.Tombstone? then 1 else 0] + Le(|r.key|, 4) + Le(|ValueOf(r)|, 4) + r.key
        + ValueOf(r)
         == gap + Payload(r)
  {
    hide Le, ValueOf;
  }

  /** record::encode, field by field into a buffer: the checksum goes in last, over what follows it. */
  method EncodeRecord(crc: Checksum, r: Rec) returns (out: array<Byte>)
    ensures fresh(out) && out[..] == Encode(crc, r)
  {
    hide Le, ValueOf, Payload;
    var value := ValueOf(r);
    out := new Byte[HeaderSize + |r.key| + |value|](_ => 0);
    ghost var gap := out[..4];
    PutHeader(out, r);
    PutBytes(out, 21, r.key);
    PutBytes(out, 21 + |r.key|, value);
    PayloadPieces(gap, r);
    assert out[..] == out[..21 + |r.key| + |value|];
    assert out[4..] == (gap + Payload(r))[4..];
    PutLe(out, 0, crc(out[4..]), 4);
    assert out[..] == out[..4] + out[4..];
  }
}
