/** Fixed-width unsigned integers as bytes: little-endian on disk, big-endian on the wire. */
module Bytes {
  import opened Keys

  const U32Max: nat := 0xFFFF_FFFF
  const U64Max: nat := 0xFFFF_FFFF_FFFF_FFFF

  type U32 = x: int | 0 <= x <= 0xFFFF_FFFF
  type U64 = x: int | 0 <= x <= 0xFFFF_FFFF_FFFF_FFFF

  /** A checksum of bytes: any function at all, since nothing below depends on which. */
  type Checksum = seq<Byte> -> U32

  lemma SliceOfPrefix(s: seq<Byte>, n: nat, i: nat, j: nat)
    requires i <= j <= n <= |s|
    ensures s[..n][i..j] == s[i..j]
  {
  }

  function Pow256(w: nat): nat {
    if w == 0 then 1 else 256 * Pow256(w - 1)
  }

  /** The w low bytes of v, lowest first. */
  function Le(v: nat, w: nat): (s: seq<Byte>)
    ensures |s| == w
  {
    if w == 0 then [] else [v % 256] + Le(v / 256, w - 1)
  }

  /** The number the w bytes from at on spell, lowest first. */
  function ReadLe(s: seq<Byte>, at: nat, w: nat): nat
    requires at + w <= |s|
    decreases w
  {
    if w == 0 then 0 else s[at] + 256 * ReadLe(s, at + 1, w - 1)
  }

  lemma {:induction false} ReadLeBound(s: seq<Byte>, at: nat, w: nat)
    requires at + w <= |s|
    ensures ReadLe(s, at, w) < Pow256(w)
    decreases w
  {
    if w > 0 {
      ReadLeBound(s, at + 1, w - 1);
    }
  }

  lemma LeStep(v: nat, w: nat)
    requires w > 0
    ensures Le(v, w) == [v % 256] + Le(v / 256, w - 1)
  {
  }

  lemma ReadStep(s: seq<Byte>, at: nat, w: nat)
    requires 0 < w && at + w <= |s|
    ensures ReadLe(s, at, w) == s[at] + 256 * ReadLe(s, at + 1, w - 1)
  {
  }

  lemma SplitByte(b: Byte, rest: nat)
    ensures (b + 256 * rest) % 256 == b && (b + 256 * rest) / 256 == rest
  {
  }

  lemma JoinByte(v: nat, w: nat)
    requires w > 0 && v < Pow256(w)
    ensures v / 256 < Pow256(w - 1) && v % 256 + 256 * (v / 256) == v
  {
  }

  /** Reading back what was written, wherever in a buffer it landed. */
  lemma {:induction false} LeRoundTrip(v: nat, w: nat, s: seq<Byte>, at: nat)
    requires at + w <= |s| && s[at..at + w] == Le(v, w) && v < Pow256(w)
    ensures ReadLe(s, at, w) == v
    decreases w
  {
    if w > 0 {
      hide Le, ReadLe, Pow256;
      LeStep(v, w);
      ReadStep(s, at, w);
      JoinByte(v, w);
      assert s[at] == s[at..at + w][0] == v % 256;
      assert s[at + 1..at + w] == s[at..at + w][1..] == Le(v / 256, w - 1);
      LeRoundTrip(v / 256, w - 1, s, at + 1);
    }
  }

  /** Writing what was read gives the bytes back. */
  lemma {:induction false} LeOfRead(s: seq<Byte>, at: nat, w: nat)
    requires at + w <= |s|
    ensures Le(ReadLe(s, at, w), w) == s[at..at + w]
    decreases w
  {
    if w > 0 {
      hide Le, ReadLe;
      var rest := ReadLe(s, at + 1, w - 1);
      LeOfRead(s, at + 1, w - 1);
      ReadStep(s, at, w);
      LeStep(ReadLe(s, at, w), w);
      SplitByte(s[at], rest);
      assert s[at..at + w] == [s[at]] + s[at + 1..at + w];
    }
  }

  lemma {:induction false} ReadLeSame(a: seq<Byte>, i: nat, b: seq<Byte>, j: nat, w: nat)
    requires i + w <= |a| && j + w <= |b| && a[i..i + w] == b[j..j + w]
    ensures ReadLe(a, i, w) == ReadLe(b, j, w)
    decreases w
  {
    LeOfRead(a, i, w);
    ReadLeBound(b, j, w);
    LeOfRead(b, j, w);
    LeRoundTrip(ReadLe(b, j, w), w, a, i);
  }

  lemma Powers()
    ensures Pow256(1) == 256 && Pow256(4) == U32Max + 1 && Pow256(8) == U64Max + 1
  {
    assert Pow256(2) == 0x1_0000 && Pow256(3) == 0x100_0000;
    assert Pow256(5) == 0x100_0000_0000 && Pow256(6) == 0x1_0000_0000_0000 && Pow256(7) == 0x100_0000_0000_0000;
  }

  function U32At(s: seq<Byte>, at: nat): (v: U32)
    requires at + 4 <= |s|
  {
    Powers();
    ReadLeBound(s, at, 4);
    ReadLe(s, at, 4)
  }

  function U64At(s: seq<Byte>, at: nat): (v: U64)
    requires at + 8 <= |s|
  {
    Powers();
    ReadLeBound(s, at, 8);
    ReadLe(s, at, 8)
  }

  lemma U32RoundTrip(v: U32, s: seq<Byte>, at: nat)
    requires at + 4 <= |s| && s[at..at + 4] == Le(v, 4)
    ensures U32At(s, at) == v
  {
    Powers();
    LeRoundTrip(v, 4, s, at);
  }

  lemma U64RoundTrip(v: U64, s: seq<Byte>, at: nat)
    requires at + 8 <= |s| && s[at..at + 8] == Le(v, 8)
    ensures U64At(s, at) == v
  {
    Powers();
    LeRoundTrip(v, 8, s, at);
  }

  lemma U32OfRead(s: seq<Byte>, at: nat)
    requires at + 4 <= |s|
    ensures Le(U32At(s, at), 4) == s[at..at + 4]
  {
    LeOfRead(s, at, 4);
  }

  lemma U64OfRead(s: seq<Byte>, at: nat)
    requires at + 8 <= |s|
    ensures Le(U64At(s, at), 8) == s[at..at + 8]
  {
    LeOfRead(s, at, 8);
  }

  lemma U32Same(a: seq<Byte>, i: nat, b: seq<Byte>, j: nat)
    requires i + 4 <= |a| && j + 4 <= |b| && a[i..i + 4] == b[j..j + 4]
    ensures U32At(a, i) == U32At(b, j)
  {
    ReadLeSame(a, i, b, j, 4);
  }

  lemma U64Same(a: seq<Byte>, i: nat, b: seq<Byte>, j: nat)
    requires i + 8 <= |a| && j + 8 <= |b| && a[i..i + 8] == b[j..j + 8]
    ensures U64At(a, i) == U64At(b, j)
  {
    ReadLeSame(a, i, b, j, 8);
  }

  /** get_u64: eight shifts and ors, lowest byte first. */
  method GetU64(s: seq<Byte>, at: nat) returns (v: nat)
    requires at + 8 <= |s|
    ensures v == U64At(s, at)
  {
    hide ReadLe;
    v := 0;
    var i: nat, scale: nat := 0, 1;
    while i < 8
      invariant 0 <= i <= 8
      invariant v + scale * ReadLe(s, at + i, 8 - i) == ReadLe(s, at, 8)
    {
      Shift(scale, s, at + i, 8 - i);
      v, scale, i := v + scale * s[at + i], scale * 256, i + 1;
    }
    NoBytesLeft(s, at + 8, scale);
  }

  lemma NoBytesLeft(s: seq<Byte>, at: nat, scale: nat)
    requires at <= |s|
    ensures scale * ReadLe(s, at, 0) == 0
  {
  }

  lemma Shift(scale: nat, s: seq<Byte>, at: nat, w: nat)
    requires 0 < w && at + w <= |s|
    ensures scale * s[at] >= 0
    ensures scale * ReadLe(s, at, w) == scale * s[at] + (scale * 256) * ReadLe(s, at + 1, w - 1)
  {
    var byte, rest := s[at], ReadLe(s, at + 1, w - 1);
    assert scale * (byte + 256 * rest) == scale * byte + (scale * 256) * rest;
  }

  /** put_u32 and put_u64: the byte at each position is the number shifted down that far. */
  method PutLe(out: array<Byte>, at: nat, v: nat, w: nat)
    requires at + w <= out.Length
    modifies out
    ensures out[..at + w] == old(out[..at]) + Le(v, w)
    ensures out[at + w..] == old(out[at + w..])
  {
    var i, left: nat := 0, v;
    while i < w
      invariant 0 <= i <= w
      invariant out[..at + i] + Le(left, w - i) == old(out[..at]) + Le(v, w)
      invariant out[at + i..] == old(out[at + i..])
    {
      ghost var done := out[..at + i];
      out[at + i] := left % 256;
      assert out[..at + i + 1] == done + [left % 256];
      assert done + Le(left, w - i) == done + [left % 256] + Le(left / 256, w - i - 1);
      i, left := i + 1, left / 256;
    }
  }

  /** memcpy of a string into a buffer. */
  method PutBytes(out: array<Byte>, at: nat, data: seq<Byte>)
    requires at + |data| <= out.Length
    modifies out
    ensures out[..at + |data|] == old(out[..at]) + data
    ensures out[at + |data|..] == old(out[at + |data|..])
  {
    var i := 0;
    while i < |data|
      invariant 0 <= i <= |data|
      invariant out[..at + i] == old(out[..at]) + data[..i]
      invariant out[at + i..] == old(out[at + i..])
    {
      ghost var done := out[..at + i];
      out[at + i] := data[i];
      assert out[..at + i + 1] == done + [data[i]];
      i := i + 1;
    }
  }
}
