/** The manifest file: encoding and decoding are exact inverses of each other. */
module ManifestCodec {
  import opened Keys
  import opened Entries
  import opened Bytes
  import opened Engine
  import opened Levels
  import opened SstableCodec

  /** "KVMF". */
  const ManifestMagic: seq<Byte> := [75, 86, 77, 70]
  const ManifestVersion: U32 := 1
  const ManifestHeaderSize: nat := 16
  const ManifestTrailerSize: nat := 4
  const TableFixedSize: nat := 28

  /** Something read, and where reading goes on. */
  datatype Taken<T> = Taken(value: T, next: nat)

  // -- What a manifest may hold --------------------------------------------------------------------

  predicate MetaOk(m: Meta) {
    && 1 <= m.id <= U32Max && m.size <= U64Max && m.count <= U64Max
    && |m.minKey| <= U32Max && |m.maxKey| <= U32Max && AtMost(m.minKey, m.maxKey)
  }

  predicate LevelOk(level: seq<Meta>) {
    |level| <= U32Max && forall i :: 0 <= i < |level| ==> MetaOk(level[i])
  }

  predicate ManifestOk(m: Manifest) {
    m.nextId <= U32Max && |m.levels| <= U32Max && forall i :: 0 <= i < |m.levels| ==> LevelOk(m.levels[i])
  }

  // -- Encoding ---------------------------------------------------------------------------------------

  function StringBytes(s: seq<Byte>): seq<Byte> {
    Le(|s|, 4) + s
  }

  function MetaBytes(m: Meta): (s: seq<Byte>)
    ensures |s| == TableFixedSize + |m.minKey| + |m.maxKey|
  {
    Le(m.id, 4) + Le(m.size, 8) + Le(m.count, 8) + StringBytes(m.minKey) + StringBytes(m.maxKey)
  }

  /** Tables from number i on. */
  function TablesBytes(level: seq<Meta>, i: nat): (s: seq<Byte>)
    requires i <= |level|
    ensures |s| >= TableFixedSize * (|level| - i)
    decreases |level| - i
  {
    if i == |level| then [] else MetaBytes(level[i]) + TablesBytes(level, i + 1)
  }

  function LevelBytes(level: seq<Meta>): seq<Byte> {
    Le(|level|, 4) + TablesBytes(level, 0)
  }

  /** Levels from number i on. */
  function LevelsBytes(levels: seq<seq<Meta>>, i: nat): (s: seq<Byte>)
    requires i <= |levels|
    ensures |s| >= 4 * (|levels| - i)
    decreases |levels| - i
  {
    if i == |levels| then [] else LevelBytes(levels[i]) + LevelsBytes(levels, i + 1)
  }

  function HeaderBytes(m: Manifest): (s: seq<Byte>)
    ensures |s| == ManifestHeaderSize
  {
    ManifestMagic + Le(ManifestVersion, 4) + Le(m.nextId, 4) + Le(|m.levels|, 4)
  }

  function Encoded(crc: Checksum, m: Manifest): seq<Byte> {
    Seal(crc, HeaderBytes(m) + LevelsBytes(m.levels, 0))
  }

  // -- Decoding ----------------------------------------------------------------------------------------

  function TakeString(s: seq<Byte>, at: nat): Option<Taken<seq<Byte>>> {
    if at + 4 > |s| || at + 4 + U32At(s, at) > |s| then None
    else Some(Taken(s[at + 4..at + 4 + U32At(s, at)], at + 4 + U32At(s, at)))
  }

  function TakeMeta(s: seq<Byte>, at: nat): Option<Taken<Meta>> {
    if at + 20 > |s| then None
    else
      var lo := TakeString(s, at + 20);
      if lo.None? then None
      else
        var hi := TakeString(s, lo.value.next);
        if hi.None? then None
        else
          var m := Meta(U32At(s, at), U64At(s, at + 4), U64At(s, at + 12), lo.value.value, hi.value.value);
          if m.id < 1 || Less(m.maxKey, m.minKey) then None else Some(Taken(m, hi.value.next))
  }

  function TakeTables(s: seq<Byte>, at: nat, count: nat): Option<Taken<seq<Meta>>>
    decreases count
  {
    if count == 0 then Some(Taken([], at))
    else
      var m := TakeMeta(s, at);
      if m.None? then None
      else
        var rest := TakeTables(s, m.value.next, count - 1);
        if rest.None? then None else Some(Taken([m.value.value] + rest.value.value, rest.value.next))
  }

  function TakeLevel(s: seq<Byte>, at: nat): Option<Taken<seq<Meta>>> {
    if at + 4 > |s| || U32At(s, at) * TableFixedSize > |s| - (at + 4) then None
    else TakeTables(s, at + 4, U32At(s, at))
  }

  function TakeLevels(s: seq<Byte>, at: nat, count: nat): Option<Taken<seq<seq<Meta>>>>
    decreases count
  {
    if count == 0 then Some(Taken([], at))
    else
      var level := TakeLevel(s, at);
      if level.None? then None
      else
        var rest := TakeLevels(s, level.value.next, count - 1);
        if rest.None? then None else Some(Taken([level.value.value] + rest.value.value, rest.value.next))
  }

  /** manifest::decode: none is corruption. */
  function Decoded(crc: Checksum, s: seq<Byte>): Option<Manifest> {
    if |s| < ManifestHeaderSize + ManifestTrailerSize || s[..4] != ManifestMagic || Unseal(crc, s).None? then None
    else
      var p := Unseal(crc, s).value;
      var count := U32At(p, 12);
      if U32At(p, 4) != ManifestVersion || count * 4 > |p| - ManifestHeaderSize then None
      else
        var levels := TakeLevels(p, ManifestHeaderSize, count);
        if levels.None? || levels.value.next != |p| then None else Some(Manifest(U32At(p, 8), levels.value.value))
  }

  // -- What was encoded decodes -------------------------------------------------------------------------

  /** x's bytes stand at an offset. */
  predicate Stands(s: seq<Byte>, at: nat, x: seq<Byte>) {
    at + |x| <= |s| && s[at..at + |x|] == x
  }

  lemma StandsSplit(s: seq<Byte>, at: nat, x: seq<Byte>, y: seq<Byte>)
    ensures Stands(s, at, x + y) <==> Stands(s, at, x) && Stands(s, at + |x|, y)
  {
    if at + |x| + |y| <= |s| {
      var whole, left, right := s[at..at + |x| + |y|], s[at..at + |x|], s[at + |x|..at + |x| + |y|];
      assert whole == left + right;
      assert (x + y)[..|x|] == x && (x + y)[|x|..] == y;
      assert (left + right)[..|x|] == left && (left + right)[|x|..] == right;
    }
  }

  lemma TakesString(s: seq<Byte>, at: nat, x: seq<Byte>)
    requires |x| <= U32Max && Stands(s, at, StringBytes(x))
    ensures TakeString(s, at) == Some(Taken(x, at + |StringBytes(x)|))
  {
    hide Le, U32At;
    StandsSplit(s, at, Le(|x|, 4), x);
    U32RoundTrip(|x|, s, at);
  }

  /** The fixed fields and the two keys of a table's bytes, each where it starts. */
  lemma MetaLayout(s: seq<Byte>, at: nat, m: Meta)
    ensures Stands(s, at, MetaBytes(m)) <==>
      && Stands(s, at, Le(m.id, 4)) && Stands(s, at + 4, Le(m.size, 8)) && Stands(s, at + 12, Le(m.count, 8))
      && Stands(s, at + 20, StringBytes(m.minKey)) && Stands(s, at + 24 + |m.minKey|, StringBytes(m.maxKey))
  {
    hide Le, Stands;
    var a, b, c, d, e := Le(m.id, 4), Le(m.size, 8), Le(m.count, 8), StringBytes(m.minKey), StringBytes(m.maxKey);
    StandsSplit(s, at, a + b + c + d, e);
    StandsSplit(s, at, a + b + c, d);
    StandsSplit(s, at, a + b, c);
    StandsSplit(s, at, a, b);
  }

  lemma TakesMeta(s: seq<Byte>, at: nat, m: Meta)
    requires MetaOk(m) && Stands(s, at, MetaBytes(m))
    ensures TakeMeta(s, at) == Some(Taken(m, at + |MetaBytes(m)|))
  {
    hide Le, U32At, U64At, StringBytes, TakeString, Less;
    MetaLayout(s, at, m);
    U32RoundTrip(m.id, s, at);
    U64RoundTrip(m.size, s, at + 4);
    U64RoundTrip(m.count, s, at + 12);
    StringSize(m.minKey);
    StringSize(m.maxKey);
    TakesString(s, at + 20, m.minKey);
    TakesString(s, at + 24 + |m.minKey|, m.maxKey);
  }

  lemma StringSize(x: seq<Byte>)
    ensures |StringBytes(x)| == 4 + |x|
  {
  }

  lemma {:induction false} TakesTables(s: seq<Byte>, at: nat, level: seq<Meta>, i: nat)
    requires i <= |level| && LevelOk(level) && Stands(s, at, TablesBytes(level, i))
    ensures TakeTables(s, at, |level| - i) == Some(Taken(level[i..], at + |TablesBytes(level, i)|))
    decreases |level| - i
  {
    hide MetaBytes, TakeMeta, MetaOk, Stands;
    if i < |level| {
      StandsSplit(s, at, MetaBytes(level[i]), TablesBytes(level, i + 1));
      TakesMeta(s, at, level[i]);
      TakesTables(s, at + |MetaBytes(level[i])|, level, i + 1);
      assert level[i..] == [level[i]] + level[i + 1..];
    } else {
      assert level[i..] == [];
    }
  }

  lemma TakesLevel(s: seq<Byte>, at: nat, level: seq<Meta>)
    requires LevelOk(level) && Stands(s, at, LevelBytes(level))
    ensures TakeLevel(s, at) == Some(Taken(level, at + |LevelBytes(level)|))
  {
    hide Le, U32At, TakeTables, MetaOk;
    StandsSplit(s, at, Le(|level|, 4), TablesBytes(level, 0));
    U32RoundTrip(|level|, s, at);
    TakesTables(s, at + 4, level, 0);
    assert level[0..] == level;
  }

  lemma {:induction false} TakesLevels(s: seq<Byte>, at: nat, levels: seq<seq<Meta>>, i: nat)
    requires i <= |levels| && Stands(s, at, LevelsBytes(levels, i))
    requires forall j :: 0 <= j < |levels| ==> LevelOk(levels[j])
    ensures TakeLevels(s, at, |levels| - i) == Some(Taken(levels[i..], at + |LevelsBytes(levels, i)|))
    decreases |levels| - i
  {
    hide LevelBytes, TakeLevel, LevelOk, Stands;
    if i < |levels| {
      StandsSplit(s, at, LevelBytes(levels[i]), LevelsBytes(levels, i + 1));
      TakesLevel(s, at, levels[i]);
      TakesLevels(s, at + |LevelBytes(levels[i])|, levels, i + 1);
      assert levels[i..] == [levels[i]] + levels[i + 1..];
    }
  }

  lemma HeaderFields(p: seq<Byte>, m: Manifest)
    requires ManifestOk(m) && |p| >= 16 && p[..16] == HeaderBytes(m)
    ensures p[..4] == ManifestMagic && U32At(p, 4) == ManifestVersion && U32At(p, 8) == m.nextId
        && U32At(p, 12) == |m.levels|
  {
    hide Le, U32At, LevelOk;
    var h := HeaderBytes(m);
    assert p[..4] == h[..4] == ManifestMagic;
    assert p[4..4 + 4] == h[4..8] == Le(ManifestVersion, 4);
    assert p[8..8 + 4] == h[8..12] == Le(m.nextId, 4);
    assert p[12..12 + 4] == h[12..16] == Le(|m.levels|, 4);
    U32RoundTrip(ManifestVersion, p, 4);
    U32RoundTrip(m.nextId, p, 8);
    U32RoundTrip(|m.levels|, p, 12);
  }

  /** Every manifest that can be written reads back as itself. */
  lemma DecodeEncoded(crc: Checksum, m: Manifest)
    requires ManifestOk(m)
    ensures Decoded(crc, Encoded(crc, m)) == Some(m)
  {
    hide Le, U32At, HeaderBytes, LevelOk, TakeLevels, Unseal;
    var h, body := HeaderBytes(m), LevelsBytes(m.levels, 0);
    var p := h + body;
    UnsealSealed(crc, p);
    assert p[..16] == h && p[16..16 + |body|] == body;
    HeaderFields(p, m);
    TakesLevels(p, 16, m.levels, 0);
    assert m.levels[0..] == m.levels;
    assert Encoded(crc, m)[..4] == p[..4];
  }

  // -- What decodes was encoded ---------------------------------------------------------------------------

  lemma TookString(s: seq<Byte>, at: nat)
    requires TakeString(s, at).Some?
    ensures var t := TakeString(s, at).value;
            |t.value| <= U32Max && t.next == at + |StringBytes(t.value)| && Stands(s, at, StringBytes(t.value))
  {
    hide Le, U32At;
    var x := TakeString(s, at).value.value;
    U32OfRead(s, at);
    StandsSplit(s, at, Le(|x|, 4), x);
  }

  lemma TookMeta(s: seq<Byte>, at: nat)
    requires TakeMeta(s, at).Some?
    ensures var t := TakeMeta(s, at).value;
            MetaOk(t.value) && t.next == at + |MetaBytes(t.value)| && Stands(s, at, MetaBytes(t.value))
  {
    hide Le, U32At, U64At, StringBytes, TakeString, Less, Stands;
    var m := TakeMeta(s, at).value.value;
    TookString(s, at + 20);
    StringSize(m.minKey);
    StringSize(m.maxKey);
    TookString(s, at + 24 + |m.minKey|);
    StandsNumber(s, at);
    StandsNumbers(s, at + 4);
    StandsNumbers(s, at + 12);
    MetaLayout(s, at, m);
  }

  lemma StandsNumber(s: seq<Byte>, at: nat)
    requires at + 4 <= |s|
    ensures Stands(s, at, Le(U32At(s, at), 4))
  {
    hide Le, U32At;
    U32OfRead(s, at);
  }

  lemma StandsNumbers(s: seq<Byte>, at: nat)
    requires at + 8 <= |s|
    ensures Stands(s, at, Le(U64At(s, at), 8))
  {
    hide Le, U64At;
    U64OfRead(s, at);
  }

  lemma {:induction false} TookTables(s: seq<Byte>, at: nat, count: nat)
    requires at <= |s| && TakeTables(s, at, count).Some?
    ensures var t := TakeTables(s, at, count).value;
            && |t.value| == count && (forall i :: 0 <= i < count ==> MetaOk(t.value[i]))
            && t.next == at + |TablesBytes(t.value, 0)| && Stands(s, at, TablesBytes(t.value, 0))
    decreases count
  {
    hide TakeMeta, MetaOk, MetaBytes, Stands;
    if count == 0 {
      StandsNothing(s, at);
    } else {
      TookMeta(s, at);
      var m := TakeMeta(s, at).value;
      StandsInside(s, at, MetaBytes(m.value));
      TookTables(s, m.next, count - 1);
      var rest := TakeTables(s, m.next, count - 1).value.value;
      TablesCons(m.value, rest);
      StandsSplit(s, at, MetaBytes(m.value), TablesBytes(rest, 0));
    }
  }

  lemma StandsNothing(s: seq<Byte>, at: nat)
    requires at <= |s|
    ensures Stands(s, at, [])
  {
  }

  lemma StandsInside(s: seq<Byte>, at: nat, x: seq<Byte>)
    requires Stands(s, at, x)
    ensures at + |x| <= |s|
  {
  }

  lemma TablesCons(m: Meta, rest: seq<Meta>)
    ensures TablesBytes([m] + rest, 0) == MetaBytes(m) + TablesBytes(rest, 0)
  {
    hide MetaBytes;
    TablesShift([m] + rest, 1, rest, 0);
  }

  lemma {:induction false} TablesShift(a: seq<Meta>, i: nat, b: seq<Meta>, j: nat)
    requires i <= |a| && j <= |b| && a[i..] == b[j..]
    ensures TablesBytes(a, i) == TablesBytes(b, j)
    decreases |a| - i
  {
    hide MetaBytes;
    if i < |a| {
      assert a[i] == a[i..][0] == b[j..][0] == b[j];
      assert a[i + 1..] == a[i..][1..] == b[j..][1..] == b[j + 1..];
      TablesShift(a, i + 1, b, j + 1);
    }
  }

  lemma TookLevel(s: seq<Byte>, at: nat)
    requires TakeLevel(s, at).Some?
    ensures var t := TakeLevel(s, at).value;
            LevelOk(t.value) && t.next == at + |LevelBytes(t.value)| && Stands(s, at, LevelBytes(t.value))
  {
    hide Le, U32At, MetaOk, Stands, TakeTables;
    TookTables(s, at + 4, U32At(s, at));
    StandsNumber(s, at);
    var level := TakeLevel(s, at).value.value;
    StandsSplit(s, at, Le(|level|, 4), TablesBytes(level, 0));
  }

  lemma {:induction false} TookLevels(s: seq<Byte>, at: nat, count: nat)
    requires at <= |s| && TakeLevels(s, at, count).Some?
    ensures var t := TakeLevels(s, at, count).value;
            && |t.value| == count && (forall i :: 0 <= i < count ==> LevelOk(t.value[i]))
            && t.next == at + |LevelsBytes(t.value, 0)| && Stands(s, at, LevelsBytes(t.value, 0))
    decreases count
  {
    hide TakeLevel, LevelOk, LevelBytes, Stands;
    if count == 0 {
      StandsNothing(s, at);
    } else {
      TookLevel(s, at);
      var level := TakeLevel(s, at).value;
      StandsInside(s, at, LevelBytes(level.value));
      TookLevels(s, level.next, count - 1);
      var rest := TakeLevels(s, level.next, count - 1).value.value;
      LevelsCons(level.value, rest);
      StandsSplit(s, at, LevelBytes(level.value), LevelsBytes(rest, 0));
    }
  }

  lemma LevelsCons(level: seq<Meta>, rest: seq<seq<Meta>>)
    ensures LevelsBytes([level] + rest, 0) == LevelBytes(level) + LevelsBytes(rest, 0)
  {
    hide LevelBytes;
    LevelsShift([level] + rest, 1, rest, 0);
  }

  lemma {:induction false} LevelsShift(a: seq<seq<Meta>>, i: nat, b: seq<seq<Meta>>, j: nat)
    requires i <= |a| && j <= |b| && a[i..] == b[j..]
    ensures LevelsBytes(a, i) == LevelsBytes(b, j)
    decreases |a| - i
  {
    hide LevelBytes;
    if i < |a| {
      assert a[i] == a[i..][0] == b[j..][0] == b[j];
      assert a[i + 1..] == a[i..][1..] == b[j..][1..] == b[j + 1..];
      LevelsShift(a, i + 1, b, j + 1);
    }
  }

  /** Only the encoding of a manifest decodes: there is one way to write each. */
  lemma EncodeDecoded(crc: Checksum, s: seq<Byte>)
    requires Decoded(crc, s).Some?
    ensures ManifestOk(Decoded(crc, s).value) && Encoded(crc, Decoded(crc, s).value) == s
  {
    hide Le, U32At, LevelOk, TakeLevels, Unseal, Seal, LevelsBytes;
    var m, p := Decoded(crc, s).value, Unseal(crc, s).value;
    SealUnsealed(crc, s);
    UnsealedPrefix(crc, s);
    TookLevels(p, 16, U32At(p, 12));
    var body := LevelsBytes(m.levels, 0);
    assert p[16..16 + |body|] == body;
    assert p[..4] == ManifestMagic;
    U32OfRead(p, 4);
    U32OfRead(p, 8);
    U32OfRead(p, 12);
    assert p[..16] == p[..4] + p[4..4 + 4] + p[8..8 + 4] + p[12..12 + 4];
    assert p == p[..16] + p[16..16 + |body|];
  }

  lemma UnsealedPrefix(crc: Checksum, s: seq<Byte>)
    requires |s| >= 8 && Unseal(crc, s).Some?
    ensures |Unseal(crc, s).value| == |s| - 4 && Unseal(crc, s).value[..4] == s[..4]
  {
  }

  /** Distinct manifests have distinct files. */
  lemma EncodedDiffer(crc: Checksum, a: Manifest, b: Manifest)
    requires ManifestOk(a) && ManifestOk(b) && Encoded(crc, a) == Encoded(crc, b)
    ensures a == b
  {
    hide Encoded, Decoded;
    DecodeEncoded(crc, a);
    DecodeEncoded(crc, b);
  }

  /** A table whose numbers and keys fit the manifest's fields. */
  predicate Recordable(t: Table) {
    && 1 <= t.id <= U32Max && t.size <= U64Max && |t.run| <= U64Max
    && (t.run != [] ==> |MinKey(t)| <= U32Max && |MaxKey(t)| <= U32Max)
  }

  lemma MetaOfOk(t: Table)
    requires TableOk(t) && Recordable(t)
    ensures MetaOk(MetaOf(t))
  {
    hide Less;
    Irreflexive(MinKey(t));
    if |t.run| > 1 {
      Asymmetric(MinKey(t), MaxKey(t));
    }
  }

  lemma {:induction false} TablesLength(level: seq<Meta>, i: nat)
    requires i <= |level|
    ensures |TablesBytes(level, i)| == TablesSize(level, i)
    decreases |level| - i
  {
    hide MetaBytes;
    if i < |level| {
      TablesLength(level, i + 1);
    }
  }

  lemma {:induction false} LevelsLength(levels: seq<seq<Meta>>, i: nat)
    requires i <= |levels|
    ensures |LevelsBytes(levels, i)| == LevelsSize(levels, i)
    decreases |levels| - i
  {
    hide TablesBytes;
    if i < |levels| {
      TablesLength(levels[i], 0);
      LevelsLength(levels, i + 1);
    }
  }

  /** The size the engine reckons with is the length of the file. */
  lemma EncodedLength(crc: Checksum, m: Manifest)
    ensures |Encoded(crc, m)| == ManifestSize(m)
  {
    hide LevelsBytes, HeaderBytes;
    LevelsLength(m.levels, 0);
  }

  /** manifest::read of a file that is there. */
  function ReadManifest(crc: Checksum, file: seq<Byte>): Option<Manifest> {
    if |file| < ManifestHeaderSize + ManifestTrailerSize || |file| > MaxManifestSize then None else Decoded(crc, file)
  }

  /** The manifest a flush or a compaction commits reads back as the one committed, unless it is over the limit. */
  lemma CommittedReadsBack(crc: Checksum, levels: LevelSet, nextId: U32)
    requires LevelsOk(levels) && |levels| <= U32Max
    requires forall l :: 0 <= l < |levels| ==> |levels[l]| <= U32Max
    requires forall l, i :: 0 <= l < |levels| && 0 <= i < |levels[l]| ==> Recordable(levels[l][i])
    ensures var m := Manifest(nextId, Metas(levels));
            ReadManifest(crc, Encoded(crc, m)) == if ManifestSize(m) <= MaxManifestSize then Some(m) else None
  {
    hide MetaOk, MetaOf, Encoded, Decoded, Recordable, TableOk, LevelsSize;
    var m := Manifest(nextId, Metas(levels));
    forall l | 0 <= l < |m.levels| ensures LevelOk(m.levels[l]) {
      forall i | 0 <= i < |m.levels[l]| ensures MetaOk(m.levels[l][i]) {
        MetaOfOk(levels[l][i]);
      }
    }
    DecodeEncoded(crc, m);
    EncodedLength(crc, m);
  }

  // -- The loops -----------------------------------------------------------------------------------------

  function After<T>(front: seq<T>, rest: Option<Taken<seq<T>>>): Option<Taken<seq<T>>> {
    if rest.None? then None else Some(Taken(front + rest.value.value, rest.value.next))
  }

  lemma AfterMore<T>(front: seq<T>, x: T, rest: Option<Taken<seq<T>>>)
    ensures After(front, After([x], rest)) == After(front + [x], rest)
  {
    if rest.Some? {
      assert front + ([x] + rest.value.value) == front + [x] + rest.value.value;
    }
  }

  lemma AfterNone<T>(rest: Option<Taken<seq<T>>>)
    ensures After([], rest) == rest
  {
    if rest.Some? {
      assert [] + rest.value.value == rest.value.value;
    }
  }

  method ReadTables(s: seq<Byte>, start: nat, count: nat) returns (r: Option<Taken<seq<Meta>>>)
    ensures r == TakeTables(s, start, count)
  {
    hide TakeMeta;
    var level: seq<Meta>, at: nat, i: nat := [], start, 0;
    AfterNone(TakeTables(s, start, count));
    while i < count
      invariant 0 <= i <= count
      invariant TakeTables(s, start, count) == After(level, TakeTables(s, at, count - i))
    {
      var m := TakeMeta(s, at);
      if m.None? {
        return None;
      }
      AfterMore(level, m.value.value, TakeTables(s, m.value.next, count - i - 1));
      level, at, i := level + [m.value.value], m.value.next, i + 1;
    }
    assert level + [] == level;
    r := Some(Taken(level, at));
  }

  method ReadLevels(s: seq<Byte>, start: nat, count: nat) returns (r: Option<Taken<seq<seq<Meta>>>>)
    ensures r == TakeLevels(s, start, count)
  {
    hide TakeTables;
    var levels: seq<seq<Meta>>, at: nat, i: nat := [], start, 0;
    AfterNone(TakeLevels(s, start, count));
    while i < count
      invariant 0 <= i <= count
      invariant TakeLevels(s, start, count) == After(levels, TakeLevels(s, at, count - i))
    {
      if at + 4 > |s| || U32At(s, at) * TableFixedSize > |s| - (at + 4) {
        return None;
      }
      var level := ReadTables(s, at + 4, U32At(s, at));
      if level.None? {
        return None;
      }
      AfterMore(levels, level.value.value, TakeLevels(s, level.value.next, count - i - 1));
      levels, at, i := levels + [level.value.value], level.value.next, i + 1;
    }
    assert levels + [] == levels;
    r := Some(Taken(levels, at));
  }

  /** manifest::decode, loop by loop. */
  method Decode(crc: Checksum, s: seq<Byte>) returns (r: Option<Manifest>)
    ensures r == Decoded(crc, s)
  {
    hide TakeLevels;
    if |s| < ManifestHeaderSize + ManifestTrailerSize || s[..4] != ManifestMagic || Unseal(crc, s).None? {
      return None;
    }
    var p := Unseal(crc, s).value;
    var count := U32At(p, 12);
    if U32At(p, 4) != ManifestVersion || count * 4 > |p| - ManifestHeaderSize {
      return None;
    }
    var levels := ReadLevels(p, ManifestHeaderSize, count);
    if levels.None? || levels.value.next != |p| {
      return None;
    }
    r := Some(Manifest(U32At(p, 8), levels.value.value));
  }

  /** manifest::encode, loop by loop. */
  method Encode(crc: Checksum, m: Manifest) returns (out: seq<Byte>)
    ensures out == Encoded(crc, m)
  {
    hide Le, MetaBytes, Seal;
    out := ManifestMagic + Le(ManifestVersion, 4) + Le(m.nextId, 4) + Le(|m.levels|, 4);
    var l := 0;
    while l < |m.levels|
      invariant 0 <= l <= |m.levels| && out + LevelsBytes(m.levels, l) == HeaderBytes(m) + LevelsBytes(m.levels, 0)
    {
      ghost var before := out;
      var level := m.levels[l];
      out := out + Le(|level|, 4);
      var i := 0;
      while i < |level|
        invariant 0 <= i <= |level| && out + TablesBytes(level, i) == before + LevelBytes(level)
      {
        assert out + (MetaBytes(level[i]) + TablesBytes(level, i + 1))
            == out + MetaBytes(level[i]) + TablesBytes(level, i + 1);
        out := out + MetaBytes(level[i]);
        i := i + 1;
      }
      assert out + [] == out;
      assert before + (LevelBytes(level) + LevelsBytes(m.levels, l + 1))
          == before + LevelBytes(level) + LevelsBytes(m.levels, l + 1);
      l := l + 1;
    }
    assert out + [] == out;
    out := Seal(crc, out);
  }
}
