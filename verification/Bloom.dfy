/** The per-table Bloom filter: what building sets, what a query tests, and that no added key is denied. */
module Bloom {
  import opened Words
  import opened Keys
  import opened Entries
  import opened Bytes

  const FilterHeaderSize: nat := 5
  const FilterTrailerSize: nat := 4
  const MinBits: nat := 64
  const MaxBits: nat := 0xFFFF_FFF8
  const DefaultBitsPerKey: nat := 10

  /** A 64-bit hash of a key: any function at all. */
  type Hash = Key -> U64

  // -- Bits in bytes ------------------------------------------------------------------------------

  /** Bit j of b, shifting down. */
  predicate Bit(b: nat, j: nat) {
    if j == 0 then b % 2 == 1 else Bit(b / 2, j - 1)
  }

  /** b with bit j set. */
  function SetBit(b: nat, j: nat): nat {
    if j == 0 then (if b % 2 == 1 then b else b + 1) else 2 * SetBit(b / 2, j - 1) + b % 2
  }

  lemma {:induction false} SetBitSets(b: nat, j: nat, i: nat)
    ensures Bit(SetBit(b, j), i) <==> i == j || Bit(b, i)
  {
    if j == 0 {
      assert i > 0 ==> SetBit(b, 0) / 2 == b / 2;
    } else {
      assert SetBit(b, j) / 2 == SetBit(b / 2, j - 1) && SetBit(b, j) % 2 == b % 2;
      if i > 0 {
        SetBitSets(b / 2, j - 1, i - 1);
      }
    }
  }

  function Power(k: nat): nat {
    if k == 0 then 1 else 2 * Power(k - 1)
  }

  lemma {:induction false} SetBitFits(b: nat, j: nat, k: nat)
    requires b < Power(k) && j < k
    ensures SetBit(b, j) < Power(k)
  {
    if j > 0 {
      assert b / 2 < Power(k - 1);
      SetBitFits(b / 2, j - 1, k - 1);
    } else {
      assert Power(k) == 2 * Power(k - 1);
    }
  }

  function WithBit(b: Byte, j: nat): Byte
    requires j < 8
  {
    assert Power(4) == 16 && Power(8) == 256;
    SetBitFits(b, j, 8);
    SetBit(b, j)
  }

  predicate BitAt(bits: seq<Byte>, p: nat)
    requires p / 8 < |bits|
  {
    Bit(bits[p / 8], p % 8)
  }

  // -- Probes -----------------------------------------------------------------------------------------

  function Delta(hash: U64): U32 {
    if hash / Word32 == 0 then 0x9E37_79B9 else hash / Word32
  }

  /** The i-th probe of a hash: 32-bit double hashing, wrapping. */
  function ProbeAt(hash: U64, i: nat): U32 {
    if i == 0 then hash % Word32 else (ProbeAt(hash, i - 1) + Delta(hash)) % Word32
  }

  /** In closed form: the low half of the hash and i times its high half, a fixed odd number standing in for a high
      half of zero, modulo 2^32. */
  lemma ProbeIs(hash: U64, i: nat)
    ensures ProbeAt(hash, i)
         == (hash + i * (if hash < Word32 then 0x9E37_79B9 else hash / Word32)) % Word32
  {
    hide ProbeAt;
    var d := if hash < Word32 then 0x9E37_79B9 else hash / Word32;
    assert d == Delta(hash);
    ProbeSum(hash, i, d);
  }

  lemma {:induction false} ProbeSum(hash: U64, i: nat, d: nat)
    requires d == Delta(hash)
    ensures ProbeAt(hash, i) == (hash + Times(i, d)) % Word32
    ensures Times(i, d) == i * d
  {
    hide Delta;
    if i > 0 {
      ProbeSum(hash, i - 1, d);
      WrapAdd(hash + Times(i - 1, d), d);
      OneMoreTime(i, d);
    }
  }

  function Times(i: nat, d: nat): nat {
    if i == 0 then 0 else Times(i - 1, d) + d
  }

  lemma OneMoreTime(i: nat, d: nat)
    requires i > 0
    ensures i * d == (i - 1) * d + d
  {
  }

  lemma WrapAdd(a: nat, b: nat)
    ensures (a % Word32 + b) % Word32 == (a + b) % Word32
  {
  }

  /** The whole number nearest to bits per key times ln 2, from 1 to 30. */
  function ProbesFor(bitsPerKey: nat): (n: nat)
    ensures 1 <= n <= 30
    ensures n < 30 ==> bitsPerKey as real * 0.69314718055994531 < n as real + 0.5
    ensures n > 1 ==> n as real - 0.5 <= bitsPerKey as real * 0.69314718055994531
  {
    var rounded := (bitsPerKey as real * 0.69314718055994531 + 0.5).Floor;
    if rounded < 1 then 1 else if rounded > 30 then 30 else rounded
  }

  /** The positions the first n hashes mark, and the first k probes of the next one. */
  function Marks(hashes: seq<U64>, n: nat, k: nat, probes: nat, modulus: nat): set<nat>
    requires n <= |hashes| && modulus > 0 && (k > 0 ==> n < |hashes|)
    decreases n, k
  {
    if k > 0 then Marks(hashes, n, k - 1, probes, modulus) + {ProbeAt(hashes[n], k - 1) % modulus}
    else if n > 0 then Marks(hashes, n - 1, probes, probes, modulus)
    else {}
  }

  lemma {:induction false} MarksProbe(hashes: seq<U64>, n: nat, k: nat, probes: nat, modulus: nat, h: nat, i: nat)
    requires n <= |hashes| && modulus > 0 && (k > 0 ==> n < |hashes|)
    requires (h < n && i < probes) || (h == n && i < k)
    ensures ProbeAt(hashes[h], i) % modulus in Marks(hashes, n, k, probes, modulus)
    decreases n, k
  {
    hide ProbeAt;
    if k > 0 {
      if !(h == n && i == k - 1) {
        MarksProbe(hashes, n, k - 1, probes, modulus, h, i);
      }
    } else {
      MarksProbe(hashes, n - 1, probes, probes, modulus, h, i);
    }
  }

  // -- The filter ----------------------------------------------------------------------------------------

  datatype Filter = Filter(numBits: nat, numProbes: nat, bits: seq<Byte>)

  predicate FilterOk(f: Filter) {
    0 < f.numBits && 0 < f.numProbes && (f.numBits + 7) / 8 == |f.bits|
  }

  function FilterPayload(f: Filter): seq<Byte>
    requires f.numBits <= U32Max && f.numProbes < 256
  {
    Le(f.numBits, 4) + [f.numProbes] + f.bits
  }

  function EncodeFilter(crc: Checksum, f: Filter): seq<Byte>
    requires f.numBits <= U32Max && f.numProbes < 256
  {
    FilterPayload(f) + Le(crc(FilterPayload(f)), 4)
  }

  function DecodeFilter(crc: Checksum, s: seq<Byte>): Option<Filter> {
    if |s| < FilterHeaderSize + FilterTrailerSize then None
    else
      var end := |s| - FilterTrailerSize;
      if U32At(s, end) != crc(s[..end]) then None
      else
        var f := Filter(U32At(s, 0), s[4], s[FilterHeaderSize..end]);
        if FilterOk(f) then Some(f) else None
  }

  lemma FilterRoundTrip(crc: Checksum, f: Filter)
    requires FilterOk(f) && f.numBits <= U32Max && f.numProbes < 256
    ensures DecodeFilter(crc, EncodeFilter(crc, f)) == Some(f)
  {
    hide Le, U32At;
    var s := EncodeFilter(crc, f);
    var end := |s| - FilterTrailerSize;
    assert s[..end] == FilterPayload(f) && s[end..end + 4] == Le(crc(FilterPayload(f)), 4);
    assert s[0..4] == Le(f.numBits, 4) && s[4] == f.numProbes && s[FilterHeaderSize..end] == f.bits;
    U32RoundTrip(f.numBits, s, 0);
    U32RoundTrip(crc(FilterPayload(f)), s, end);
  }

  /** Does the filter admit a key? */
  ghost predicate Admits(f: Filter, hash: U64)
    requires FilterOk(f)
  {
    forall i :: 0 <= i < f.numProbes ==> BitAt(f.bits, ProbeAt(hash, i) % f.numBits)
  }

  /** maybe_contains: no, as soon as one probed bit is clear. */
  method MaybeContains(f: Filter, hash: U64) returns (yes: bool)
    requires FilterOk(f)
    ensures yes <==> Admits(f, hash)
  {
    hide Bit;
    var i, position := 0, hash % Word32;
    while i < f.numProbes
      invariant 0 <= i <= f.numProbes && position == ProbeAt(hash, i)
      invariant forall j :: 0 <= j < i ==> BitAt(f.bits, ProbeAt(hash, j) % f.numBits)
    {
      if !BitAt(f.bits, position % f.numBits) {
        return false;
      }
      position, i := (position + Delta(hash)) % Word32, i + 1;
    }
    return true;
  }

  /** How many bytes of bits a filter of n keys gets: a 64-bit product, clamped, in whole bytes. */
  function FilterBytes(n: nat, bitsPerKey: nat): (bytes: nat)
    ensures 8 <= bytes && bytes * 8 <= MaxBits
    ensures n * bitsPerKey < Word64 && bytes * 8 < MaxBits ==> n * bitsPerKey <= bytes * 8
    ensures n * bitsPerKey < Word64 && bytes > 8 ==> bytes * 8 < n * bitsPerKey + 8
  {
    var bits := n * bitsPerKey % Word64;
    ((if bits < MinBits then MinBits else if bits > MaxBits then MaxBits else bits) + 7) / 8
  }

  /** A bit is set exactly when some hash probes it. */
  ghost predicate Marked(bits: seq<Byte>, marks: set<nat>) {
    forall p :: 0 <= p < |bits| * 8 ==> (BitAt(bits, p) <==> p in marks)
  }

  /** BloomBuilder::finish. */
  method BuildFilter(hashes: seq<U64>, bitsPerKey: nat) returns (f: Filter)
    ensures FilterOk(f) && f.numBits <= U32Max && f.numProbes < 256 && f.numBits == |f.bits| * 8
    ensures Marked(f.bits, Marks(hashes, |hashes|, 0, f.numProbes, f.numBits))
    ensures forall h :: 0 <= h < |hashes| ==> Admits(f, hashes[h])
  {
    hide Bit, ProbeAt;
    var perKey := if bitsPerKey == 0 then DefaultBitsPerKey else bitsPerKey;
    var bytes, probes := FilterBytes(|hashes|, perKey), ProbesFor(perKey);
    var modulus := bytes * 8;
    var bits := new Byte[bytes](_ => 0);
    NothingMarked(bits[..]);
    var n := 0;
    while n < |hashes|
      invariant 0 <= n <= |hashes|
      invariant Marked(bits[..], Marks(hashes, n, 0, probes, modulus))
    {
      MarkOne(bits, hashes, n, probes);
      n := n + 1;
    }
    f := Filter(modulus, probes, bits[..]);
    AllAdmitted(f, hashes);
  }

  method MarkOne(bits: array<Byte>, hashes: seq<U64>, n: nat, probes: nat)
    requires n < |hashes| && bits.Length > 0
    requires Marked(bits[..], Marks(hashes, n, 0, probes, bits.Length * 8))
    modifies bits
    ensures Marked(bits[..], Marks(hashes, n, probes, probes, bits.Length * 8))
  {
    hide Bit, BitAt, SetBit, Marked, Delta;
    var i, position, modulus := 0, hashes[n] % Word32, bits.Length * 8;
    while i < probes
      invariant 0 <= i <= probes && position == ProbeAt(hashes[n], i)
      invariant Marked(bits[..], Marks(hashes, n, i, probes, modulus))
    {
      var p := position % modulus;
      MarkBit(bits[..], p, Marks(hashes, n, i, probes, modulus));
      ghost var after := bits[..][p / 8 := WithBit(bits[p / 8], p % 8)];
      bits[p / 8] := WithBit(bits[p / 8], p % 8);
      assert bits[..] == after;
      position, i := (position + Delta(hashes[n])) % Word32, i + 1;
    }
  }

  lemma MarkBit(bits: seq<Byte>, p: nat, marks: set<nat>)
    requires p < |bits| * 8 && Marked(bits, marks)
    ensures Marked(bits[p / 8 := WithBit(bits[p / 8], p % 8)], marks + {p})
  {
    hide Bit, SetBit;
    var after := bits[p / 8 := WithBit(bits[p / 8], p % 8)];
    forall q | 0 <= q < |bits| * 8 ensures BitAt(after, q) <==> q in marks + {p} {
      SetBitSets(bits[p / 8], p % 8, q % 8);
      assert BitAt(bits, q) <==> q in marks;
    }
  }

  lemma NothingMarked(bits: seq<Byte>)
    requires forall i :: 0 <= i < |bits| ==> bits[i] == 0
    ensures Marked(bits, {})
  {
    forall p | 0 <= p < |bits| * 8 ensures !BitAt(bits, p) {
      NoBits(p % 8);
    }
  }

  lemma {:induction false} NoBits(j: nat)
    ensures !Bit(0, j)
  {
    if j > 0 {
      NoBits(j - 1);
    }
  }

  /** No false negatives: every key that was added is admitted. */
  lemma AllAdmitted(f: Filter, hashes: seq<U64>)
    requires FilterOk(f) && f.numBits == |f.bits| * 8
    requires Marked(f.bits, Marks(hashes, |hashes|, 0, f.numProbes, f.numBits))
    ensures forall h :: 0 <= h < |hashes| ==> Admits(f, hashes[h])
  {
    hide Bit, ProbeAt;
    forall h, i | 0 <= h < |hashes| && 0 <= i < f.numProbes ensures BitAt(f.bits, ProbeAt(hashes[h], i) % f.numBits) {
      MarksProbe(hashes, |hashes|, 0, f.numProbes, f.numBits, h, i);
    }
  }
}
