/** Leveled compaction: what is picked, what installing it does to the level set, and why no
    reader can tell. */
module Compaction {
  import opened Words
  import opened Keys
  import opened Entries
  import opened Levels

  datatype Options = Options(l0Trigger: nat, levelBaseBytes: nat, levelMultiplier: nat, maxLevels: nat)

  /** What one compaction will merge: tables of one level, those they touch one level down, and
      the widened key range. */
  datatype Work = Work(level: nat, inputs: seq<Table>, overlaps: seq<Table>, begin: Key, end: Key, drop: bool)

  // -- Ranges ---------------------------------------------------------------------

  /** Neither closed range ends before the other begins. */
  predicate RangesOverlap(aMin: Key, aMax: Key, bMin: Key, bMax: Key) {
    !(Less(aMax, bMin) || Less(bMax, aMin))
  }

  predicate Touches(t: Table, begin: Key, end: Key)
    requires t.run != []
  {
    RangesOverlap(begin, end, MinKey(t), MaxKey(t))
  }

  function Lower(a: Key, b: Key): Key {
    if Less(b, a) then b else a
  }

  function Higher(a: Key, b: Key): Key {
    if Less(a, b) then b else a
  }

  function LowerAll(begin: Key, ts: seq<Table>): Key
    requires TablesOk(ts)
    decreases |ts|
  {
    if ts == [] then begin else LowerAll(Lower(begin, MinKey(ts[0])), ts[1..])
  }

  function HigherAll(end: Key, ts: seq<Table>): Key
    requires TablesOk(ts)
    decreases |ts|
  {
    if ts == [] then end else HigherAll(Higher(end, MaxKey(ts[0])), ts[1..])
  }

  /** The hull reaches below the start and below every table. */
  lemma {:induction false} LowerAllBounds(begin: Key, ts: seq<Table>)
    requires TablesOk(ts)
    ensures AtMost(LowerAll(begin, ts), begin)
    ensures forall t :: t in ts ==> AtMost(LowerAll(begin, ts), MinKey(t))
    decreases |ts|
  {
    StrictTotalOrder();
    if ts != [] {
      LowerAllBounds(Lower(begin, MinKey(ts[0])), ts[1..]);
      assert ts == [ts[0]] + ts[1..];
    }
  }

  lemma {:induction false} HigherAllBounds(end: Key, ts: seq<Table>)
    requires TablesOk(ts)
    ensures AtMost(end, HigherAll(end, ts))
    ensures forall t :: t in ts ==> AtMost(MaxKey(t), HigherAll(end, ts))
    decreases |ts|
  {
    StrictTotalOrder();
    if ts != [] {
      HigherAllBounds(Higher(end, MaxKey(ts[0])), ts[1..]);
      assert ts == [ts[0]] + ts[1..];
    }
  }

  function Overlapping(ts: seq<Table>, begin: Key, end: Key): (r: seq<Table>)
    requires TablesOk(ts)
    ensures TablesOk(r)
  {
    if ts == [] then []
    else if Touches(ts[0], begin, end) then [ts[0]] + Overlapping(ts[1..], begin, end)
    else Overlapping(ts[1..], begin, end)
  }

  lemma {:induction false} OverlappingMembers(ts: seq<Table>, begin: Key, end: Key)
    requires TablesOk(ts)
    ensures forall t :: t in Overlapping(ts, begin, end) <==> t in ts && TableOk(t) && Touches(t, begin, end)
  {
    if ts != [] {
      OverlappingMembers(ts[1..], begin, end);
      assert ts == [ts[0]] + ts[1..];
    }
  }

  /** A tombstone may go only if nothing deeper can still hold what it buries. */
  predicate CanDropTombstones(levels: LevelSet, outputLevel: nat, begin: Key, end: Key)
    requires LevelsOk(levels)
  {
    forall l, i :: outputLevel < l < |levels| && 0 <= i < |levels[l]| ==> !Touches(levels[l][i], begin, end)
  }

  // -- Picking --------------------------------------------------------------------

  function LevelBudget(options: Options, level: nat): nat {
    if level <= 1 then options.levelBaseBytes % Word64
    else (LevelBudget(options, level - 1) * options.levelMultiplier) % Word64
  }

  function LevelBytes(ts: seq<Table>): nat {
    if ts == [] then 0 else (LevelBytes(ts[..|ts| - 1]) + ts[|ts| - 1].size) % Word64
  }

  predicate AnyBelow(levels: LevelSet, l: nat) {
    exists m :: l < m < |levels| && levels[m] != []
  }

  predicate ForcedCandidate(levels: LevelSet, l: nat)
    requires l < |levels|
  {
    levels[l] != [] && AnyBelow(levels, l)
  }

  /** The first non-empty level from l on with a non-empty one below it. */
  function ForcedFrom(levels: LevelSet, l: nat): (r: Option<nat>)
    requires l <= |levels|
    ensures r.Some? ==> l <= r.value < |levels| && ForcedCandidate(levels, r.value)
    ensures r.None? ==> forall i :: l <= i < |levels| ==> !ForcedCandidate(levels, i)
    decreases |levels| - l
  {
    if l == |levels| then None
    else if ForcedCandidate(levels, l) then Some(l)
    else ForcedFrom(levels, l + 1)
  }

  predicate OverBudget(levels: LevelSet, options: Options, l: nat)
    requires l < |levels|
  {
    levels[l] != [] && LevelBytes(levels[l]) > LevelBudget(options, l)
  }

  /** From l on, the first level larger than its budget allows, short of the deepest permitted. */
  function OverBudgetFrom(levels: LevelSet, options: Options, l: nat): (r: Option<nat>)
    ensures r.Some? ==>
      l <= r.value < |levels| && r.value + 1 < options.maxLevels && OverBudget(levels, options, r.value)
    decreases |levels| - l
  {
    if l >= |levels| || l + 1 >= options.maxLevels then None
    else if OverBudget(levels, options, l) then Some(l)
    else OverBudgetFrom(levels, options, l + 1)
  }

  /** The first table past the pointer, for round-robin progress around the key space. */
  function FirstPast(ts: seq<Table>, pointer: Key): (r: Option<Table>)
    requires TablesOk(ts)
    ensures r.Some? ==> r.value in ts
  {
    if ts == [] then None
    else if Less(pointer, MinKey(ts[0])) then Some(ts[0])
    else FirstPast(ts[1..], pointer)
  }

  function PickTable(ts: seq<Table>, pointer: Key): (t: Table)
    requires TablesOk(ts) && ts != []
    ensures t in ts
  {
    if pointer != [] && FirstPast(ts, pointer).Some? then FirstPast(ts, pointer).value else ts[0]
  }

  function PointerOf(pointers: seq<Key>, l: nat): Key {
    if l < |pointers| then pointers[l] else []
  }

  /** Which tables of which level to push down. */
  function Select(levels: LevelSet, pointers: seq<Key>, options: Options, force: bool): (r: Option<(nat, seq<Table>)>)
    requires LevelsOk(levels)
  {
    if force then
      match ForcedFrom(levels, 0)
      case None => None
      case Some(l) => Some((l, levels[l]))
    else if levels != [] && |levels[0]| >= options.l0Trigger then
      Some((0, levels[0]))
    else
      match OverBudgetFrom(levels, options, 1)
      case None => None
      case Some(l) => Some((l, [PickTable(levels[l], PointerOf(pointers, l))]))
  }

  /** The range of the inputs alone, before it is widened. */
  function InputBegin(inputs: seq<Table>): Key
    requires TablesOk(inputs) && inputs != []
  {
    LowerAll(MinKey(inputs[0]), inputs)
  }

  function InputEnd(inputs: seq<Table>): Key
    requires TablesOk(inputs) && inputs != []
  {
    HigherAll(MaxKey(inputs[0]), inputs)
  }

  /** The selected tables with everything they touch below, and the range widened once. */
  function Expand(levels: LevelSet, level: nat, inputs: seq<Table>): Work
    requires LevelsOk(levels) && TablesOk(inputs) && inputs != []
  {
    var begin := InputBegin(inputs);
    var end := InputEnd(inputs);
    var overlaps := Overlapping(At(levels, level + 1), begin, end);
    var wideBegin := LowerAll(begin, overlaps);
    var wideEnd := HigherAll(end, overlaps);
    Work(level, inputs, overlaps, wideBegin, wideEnd, CanDropTombstones(levels, level + 1, wideBegin, wideEnd))
  }

  function Pick(levels: LevelSet, pointers: seq<Key>, options: Options, force: bool): (r: Option<Work>)
    requires LevelsOk(levels) && options.l0Trigger >= 1
  {
    match Select(levels, pointers, options, force)
    case None => None
    case Some((level, inputs)) => Some(Expand(levels, level, inputs))
  }

  // -- What a picked unit of work is good for ---------------------------------------

  /** The overlaps are exactly the tables of the output level that touch the input range. */
  predicate CollectsOverlaps(level: seq<Table>, work: Work)
    requires TablesOk(level) && TablesOk(work.inputs) && work.inputs != []
  {
    work.overlaps == Overlapping(level, InputBegin(work.inputs), InputEnd(work.inputs))
  }

  /** All of L0, or some tables of a deeper level. */
  ghost predicate InputsOk(levels: LevelSet, level: nat, inputs: seq<Table>)
    requires LevelsOk(levels)
  {
    && level < |levels|
    && inputs != []
    && TablesOk(inputs)
    && (level == 0 ==> inputs == levels[0])
    && (level > 0 ==> Disjoint(inputs) && forall t :: t in inputs ==> t in levels[level])
  }

  /** What compaction relies on: proper inputs, every table they touch below, the range widened
      over both, and tombstones dropped exactly when nothing deeper touches that range. */
  ghost predicate WorkOk(levels: LevelSet, work: Work) {
    && LevelsOk(levels)
    && InputsOk(levels, work.level, work.inputs)
    && CollectsOverlaps(At(levels, work.level + 1), work)
    && work.begin == LowerAll(InputBegin(work.inputs), work.overlaps)
    && work.end == HigherAll(InputEnd(work.inputs), work.overlaps)
    && (work.drop <==> CanDropTombstones(levels, work.level + 1, work.begin, work.end))
  }

  lemma {:induction false} OverlappingDisjoint(ts: seq<Table>, begin: Key, end: Key)
    requires TablesOk(ts) && Disjoint(ts)
    ensures Disjoint(Overlapping(ts, begin, end))
  {
    if ts != [] {
      var rest := Overlapping(ts[1..], begin, end);
      OverlappingMembers(ts[1..], begin, end);
      OverlappingDisjoint(ts[1..], begin, end);
      forall j | 0 <= j < |rest| ensures Less(MaxKey(ts[0]), MinKey(rest[j])) {
        assert rest[j] in ts[1..];
        var i :| 0 <= i < |ts[1..]| && ts[1..][i] == rest[j];
        assert ts[i + 1] == rest[j];
      }
    }
  }

  /** Every pick, forced or not, is sound work. */
  lemma PickIsSound(levels: LevelSet, pointers: seq<Key>, options: Options, force: bool)
    requires LevelsOk(levels) && options.l0Trigger >= 1
    ensures Pick(levels, pointers, options, force).Some? ==>
        WorkOk(levels, Pick(levels, pointers, options, force).value)
  {
    hide Less, Overlapping, LowerAll, HigherAll, CanDropTombstones, InputBegin, InputEnd, OverBudget, FirstPast;
    match Select(levels, pointers, options, force)
    case None =>
    case Some((level, inputs)) =>
      assert InputsOk(levels, level, inputs);
  }

  // -- Installing -------------------------------------------------------------------

  /** The entries the outputs must carry. */
  function Surviving(work: Work): Run {
    var merged := Merge(Runs(work.inputs + work.overlaps));
    if work.drop then WithoutTombstones(merged) else merged
  }

  function Concat(ts: seq<Table>): Run {
    if ts == [] then [] else ts[0].run + Concat(ts[1..])
  }

  /** Output tables are non-empty and, end to end, the surviving entries; where one output
      stops and the next begins is a matter of file size and does not matter here. */
  ghost predicate OutputsOf(work: Work, outs: seq<Table>) {
    && (forall i :: 0 <= i < |outs| ==> outs[i].run != [])
    && Concat(outs) == Surviving(work)
  }

  function Ids(ts: seq<Table>): set<nat> {
    set t | t in ts :: t.id
  }

  function Keep(ts: seq<Table>, retired: set<nat>): (r: seq<Table>)
    ensures TablesOk(ts) ==> TablesOk(r)
  {
    if ts == [] then []
    else if ts[0].id in retired then Keep(ts[1..], retired)
    else [ts[0]] + Keep(ts[1..], retired)
  }

  lemma {:induction false} KeepMembers(ts: seq<Table>, retired: set<nat>)
    ensures forall t :: t in Keep(ts, retired) <==> t in ts && t.id !in retired
  {
    if ts != [] {
      KeepMembers(ts[1..], retired);
      assert ts == [ts[0]] + ts[1..];
    }
  }

  function Insert(t: Table, ts: seq<Table>): (r: seq<Table>)
    requires TableOk(t) && TablesOk(ts)
    ensures TablesOk(r)
  {
    if ts == [] || Less(MinKey(t), MinKey(ts[0])) then [t] + ts else [ts[0]] + Insert(t, ts[1..])
  }

  lemma {:induction false} InsertMembers(t: Table, ts: seq<Table>)
    requires TableOk(t) && TablesOk(ts)
    ensures forall u :: u in Insert(t, ts) <==> u == t || u in ts
  {
    if !(ts == [] || Less(MinKey(t), MinKey(ts[0]))) {
      InsertMembers(t, ts[1..]);
      assert ts == [ts[0]] + ts[1..];
    }
  }

  function SortByMinKey(ts: seq<Table>): (r: seq<Table>)
    requires TablesOk(ts)
    ensures TablesOk(r)
  {
    if ts == [] then [] else Insert(ts[0], SortByMinKey(ts[1..]))
  }

  lemma {:induction false} SortMembers(ts: seq<Table>)
    requires TablesOk(ts)
    ensures forall t :: t in SortByMinKey(ts) <==> t in ts
  {
    if ts != [] {
      SortMembers(ts[1..]);
      InsertMembers(ts[0], SortByMinKey(ts[1..]));
      assert ts == [ts[0]] + ts[1..];
    }
  }

  /** At least n levels, the missing ones empty. */
  function Pad(levels: LevelSet, n: nat): (r: LevelSet)
    ensures |r| == if |levels| < n then n else |levels|
    ensures forall l :: 0 <= l < |r| ==> r[l] == At(levels, l)
  {
    if |levels| < n then levels + seq(n - |levels|, i => []) else levels
  }

  /** The level set without the empty levels at its end. */
  function Trim(levels: LevelSet): (r: LevelSet)
    ensures |r| <= |levels| && r == levels[..|r|]
    ensures forall l :: |r| <= l < |levels| ==> levels[l] == []
    ensures r != [] ==> r[|r| - 1] != []
  {
    if levels != [] && levels[|levels| - 1] == [] then Trim(levels[..|levels| - 1]) else levels
  }

  function Retired(work: Work): set<nat> {
    Ids(work.inputs) + Ids(work.overlaps)
  }

  /** The output level: what is kept and the new tables, sorted by key. */
  function TargetLevel(levels: LevelSet, work: Work, outs: seq<Table>): seq<Table>
    requires LevelsOk(levels) && TablesOk(outs)
  {
    SortByMinKey(KeptBelow(levels, work) + outs)
  }

  /** Level m once the inputs and overlaps are gone and the outputs are in their place. */
  function Slot(levels: LevelSet, work: Work, outs: seq<Table>, m: nat): seq<Table>
    requires LevelsOk(levels) && TablesOk(outs)
  {
    if m == work.level then Keep(At(levels, m), Retired(work))
    else if m == work.level + 1 then TargetLevel(levels, work, outs)
    else At(levels, m)
  }

  function Replace(levels: LevelSet, work: Work, outs: seq<Table>): (next: LevelSet)
    requires LevelsOk(levels) && TablesOk(outs)
    ensures |next| >= work.level + 2 && |next| >= |levels|
    ensures |next| == |levels| || |next| == work.level + 2
    ensures forall m :: 0 <= m < |next| ==> next[m] == Slot(levels, work, outs, m)
  {
    Pad(levels, work.level + 2)
      [work.level := Keep(At(levels, work.level), Retired(work))]
      [work.level + 1 := TargetLevel(levels, work, outs)]
  }

  function Install(levels: LevelSet, work: Work, outs: seq<Table>): LevelSet
    requires LevelsOk(levels) && TablesOk(outs)
  {
    Trim(Replace(levels, work, outs))
  }

  /** No installed level set ends in an empty level. */
  lemma InstallTrims(levels: LevelSet, work: Work, outs: seq<Table>)
    requires LevelsOk(levels) && TablesOk(outs)
    ensures var next := Install(levels, work, outs); next != [] ==> next[|next| - 1] != []
  {
    hide Replace, LevelsOk, TablesOk;
  }

  lemma InstallAt(levels: LevelSet, work: Work, outs: seq<Table>, m: nat)
    requires LevelsOk(levels) && TablesOk(outs)
    ensures At(Install(levels, work, outs), m) == Slot(levels, work, outs, m)
  {
    var next := Replace(levels, work, outs);
    if m < |next| {
      assert next[m] == Slot(levels, work, outs, m);
    }
  }

  // -- Padding and trimming are invisible ---------------------------------------------

  lemma {:induction false} EmptyLevelsAreSilent(levels: LevelSet)
    requires forall l :: 0 <= l < |levels| ==> levels[l] == []
    ensures Stack(levels) == []
  {
    if levels != [] {
      EmptyLevelsAreSilent(levels[1..]);
    }
  }

  lemma TrimStack(levels: LevelSet)
    ensures Stack(Trim(levels)) == Stack(levels)
  {
    var r := Trim(levels);
    assert levels == r + levels[|r|..];
    StackConcat(r, levels[|r|..]);
    EmptyLevelsAreSilent(levels[|r|..]);
  }

  lemma PadStack(levels: LevelSet, n: nat)
    ensures Stack(Pad(levels, n)) == Stack(levels)
  {
    var r := Pad(levels, n);
    assert r == levels + r[|levels|..];
    StackConcat(levels, r[|levels|..]);
    EmptyLevelsAreSilent(r[|levels|..]);
  }

  // -- The outputs --------------------------------------------------------------------

  lemma SurvivingFacts(work: Work, k: Key)
    requires TablesOk(work.inputs) && TablesOk(work.overlaps)
    ensures Sorted(Surviving(work))
    ensures var c := Or(Look(Runs(work.inputs), k), Look(Runs(work.overlaps), k));
            Find(Surviving(work), k) == if work.drop && c == Some(Tombstone) then None else c
  {
    var ts := work.inputs + work.overlaps;
    assert Runs(ts) == Runs(work.inputs) + Runs(work.overlaps);
    MergeCorrect(Runs(ts));
    LookConcat(Runs(work.inputs), Runs(work.overlaps), k);
    WithoutTombstonesSorted(Merge(Runs(ts)));
    WithoutTombstonesFind(Merge(Runs(ts)), k);
  }

  /** Cutting a sorted run into pieces gives disjoint tables that together say what it says. */
  lemma {:induction false} PiecesOfSorted(outs: seq<Table>)
    requires Sorted(Concat(outs)) && forall i :: 0 <= i < |outs| ==> outs[i].run != []
    ensures TablesOk(outs) && Disjoint(outs)
    ensures forall e :: e in Concat(outs) <==> exists t :: t in outs && e in t.run
  {
    if outs != [] {
      var head, rest := outs[0].run, Concat(outs[1..]);
      var whole := Concat(outs);
      assert whole == head + rest;
      SortedParts(head, rest);
      PiecesOfSorted(outs[1..]);
      forall j | 1 <= j < |outs| ensures Less(MaxKey(outs[0]), MinKey(outs[j])) {
        var first := outs[j].run[0];
        assert outs[1..][j - 1] == outs[j];
        assert first in rest;
        var p :| 0 <= p < |rest| && rest[p] == first;
        assert whole[|head| - 1] == head[|head| - 1] && whole[|head| + p] == first;
      }
      assert outs == [outs[0]] + outs[1..];
    }
  }

  lemma SortedParts(a: Run, b: Run)
    requires Sorted(a + b)
    ensures Sorted(a) && Sorted(b)
  {
    forall i, j | 0 <= i < j < |a| ensures Less(a[i].key, a[j].key) {
      assert (a + b)[i] == a[i] && (a + b)[j] == a[j];
    }
    forall i, j | 0 <= i < j < |b| ensures Less(b[i].key, b[j].key) {
      assert (a + b)[|a| + i] == b[i] && (a + b)[|a| + j] == b[j];
    }
  }

  /** The outputs speak of exactly the surviving entries. */
  lemma OutputsSay(work: Work, outs: seq<Table>, k: Key)
    requires TablesOk(work.inputs) && TablesOk(work.overlaps) && OutputsOf(work, outs)
    ensures TablesOk(outs) && Disjoint(outs)
    ensures Look(Runs(outs), k) == Find(Surviving(work), k)
  {
    SurvivingFacts(work, k);
    PiecesOfSorted(outs);
    if Look(Runs(outs), k).Some? {
      var t := LookTable(outs, k);
      FindIs(Surviving(work), Entry(k, Look(Runs(outs), k).value));
    } else if Find(Surviving(work), k).Some? {
      var e := Entry(k, Find(Surviving(work), k).value);
      assert e in Concat(outs);
      var t :| t in outs && e in t.run;
      LookDisjoint(outs, t, e);
    }
  }

  /** Every key of an output comes from an input or an overlap. */
  lemma OutputKeySource(work: Work, outs: seq<Table>, t: Table, e: Entry) returns (u: Table, f: Entry)
    requires TablesOk(work.inputs) && TablesOk(work.overlaps) && OutputsOf(work, outs)
    requires t in outs && e in t.run
    ensures Reads(work, u) && f in u.run && f.key == e.key
  {
    OutputsSay(work, outs, e.key);
    LookDisjoint(outs, t, e);
    SurvivingFacts(work, e.key);
    if Look(Runs(work.inputs), e.key).Some? {
      u := LookTable(work.inputs, e.key);
      f := Entry(e.key, Look(Runs(work.inputs), e.key).value);
    } else {
      u := LookTable(work.overlaps, e.key);
      f := Entry(e.key, Look(Runs(work.overlaps), e.key).value);
    }
  }

  // -- The output level stays disjoint --------------------------------------------------

  predicate Separate(t: Table, u: Table)
    requires t.run != [] && u.run != []
  {
    Less(MaxKey(t), MinKey(u)) || Less(MaxKey(u), MinKey(t))
  }

  /** The tables a unit of work reads. */
  predicate Reads(work: Work, t: Table) {
    t in work.inputs || t in work.overlaps
  }

  /** Every key a unit of work reads lies below k. */
  ghost predicate KeysBelow(work: Work, k: Key) {
    forall v, f :: Reads(work, v) && f in v.run ==> Less(f.key, k)
  }

  ghost predicate KeysAbove(work: Work, k: Key) {
    forall v, f :: Reads(work, v) && f in v.run ==> Less(k, f.key)
  }

  /** Widening once is enough: a table of the output level that did not touch the input range
      lies wholly to one side of every key read, so nothing needs re-collecting. */
  lemma KeptIsClear(level: seq<Table>, work: Work, r: Table)
    requires TablesOk(level) && Disjoint(level) && TablesOk(work.inputs) && work.inputs != []
    requires CollectsOverlaps(level, work)
    requires r in level && r !in work.overlaps
    ensures TableOk(r)
    ensures KeysBelow(work, MinKey(r)) || KeysAbove(work, MaxKey(r))
  {
    OverlappingMembers(level, InputBegin(work.inputs), InputEnd(work.inputs));
    var i :| 0 <= i < |level| && level[i] == r;
    if Less(InputEnd(work.inputs), MinKey(r)) {
      forall v, f | Reads(work, v) && f in v.run ensures Less(f.key, MinKey(r)) {
        BelowKept(level, work, i, v, f);
      }
    } else {
      forall v, f | Reads(work, v) && f in v.run ensures Less(MaxKey(r), f.key) {
        AboveKept(level, work, i, v, f);
      }
    }
  }

  lemma BelowKept(level: seq<Table>, work: Work, i: nat, v: Table, f: Entry)
    requires TablesOk(level) && Disjoint(level) && TablesOk(work.inputs) && work.inputs != []
    requires CollectsOverlaps(level, work)
    requires i < |level| && Less(InputEnd(work.inputs), MinKey(level[i]))
    requires Reads(work, v) && f in v.run
    ensures Less(f.key, MinKey(level[i]))
  {
    StrictTotalOrder();
    HigherAllBounds(MaxKey(work.inputs[0]), work.inputs);
    InRange(v, f);
    if v in work.overlaps {
      OverlappingMembers(level, InputBegin(work.inputs), InputEnd(work.inputs));
      var j :| 0 <= j < |level| && level[j] == v;
      RangeOrdered(v);
      RangeOrdered(level[i]);
      assert j < i;
    }
  }

  lemma AboveKept(level: seq<Table>, work: Work, i: nat, v: Table, f: Entry)
    requires TablesOk(level) && Disjoint(level) && TablesOk(work.inputs) && work.inputs != []
    requires CollectsOverlaps(level, work)
    requires i < |level| && Less(MaxKey(level[i]), InputBegin(work.inputs))
    requires Reads(work, v) && f in v.run
    ensures Less(MaxKey(level[i]), f.key)
  {
    StrictTotalOrder();
    LowerAllBounds(MinKey(work.inputs[0]), work.inputs);
    InRange(v, f);
    if v in work.overlaps {
      OverlappingMembers(level, InputBegin(work.inputs), InputEnd(work.inputs));
      var j :| 0 <= j < |level| && level[j] == v;
      RangeOrdered(v);
      RangeOrdered(level[i]);
      assert i < j;
    }
  }

  /** Pairwise apart, whatever the order. */
  predicate Apart(ts: seq<Table>)
    requires TablesOk(ts)
  {
    forall i, j :: 0 <= i < j < |ts| ==> Separate(ts[i], ts[j])
  }

  lemma {:induction false} InsertDisjoint(t: Table, ts: seq<Table>)
    requires TableOk(t) && TablesOk(ts) && Disjoint(ts)
    requires forall u :: u in ts ==> Separate(t, u)
    ensures Disjoint(Insert(t, ts))
  {
    StrictTotalOrder();
    RangeOrdered(t);
    if ts != [] {
      RangeOrdered(ts[0]);
      assert Separate(t, ts[0]);
      if Less(MinKey(t), MinKey(ts[0])) {
        forall j | 0 <= j < |ts| ensures Less(MaxKey(t), MinKey(ts[j])) {
          RangeOrdered(ts[0]);
        }
      } else {
        var rest := Insert(t, ts[1..]);
        InsertMembers(t, ts[1..]);
        InsertDisjoint(t, ts[1..]);
        forall j | 0 <= j < |rest| ensures Less(MaxKey(ts[0]), MinKey(rest[j])) {
          assert rest[j] in rest;
          if rest[j] != t {
            var i :| 0 <= i < |ts[1..]| && ts[1..][i] == rest[j];
            assert ts[i + 1] == rest[j];
          }
        }
      }
    }
  }

  lemma {:induction false} SortDisjoint(ts: seq<Table>)
    requires TablesOk(ts) && Apart(ts)
    ensures Disjoint(SortByMinKey(ts))
  {
    if ts != [] {
      SortDisjoint(ts[1..]);
      SortMembers(ts[1..]);
      forall u | u in SortByMinKey(ts[1..]) ensures Separate(ts[0], u) {
        var i :| 0 <= i < |ts[1..]| && ts[1..][i] == u;
        assert ts[i + 1] == u;
      }
      InsertDisjoint(ts[0], SortByMinKey(ts[1..]));
    }
  }

  lemma {:induction false} KeepDisjoint(ts: seq<Table>, retired: set<nat>)
    requires TablesOk(ts) && Disjoint(ts)
    ensures TablesOk(Keep(ts, retired)) && Disjoint(Keep(ts, retired))
  {
    if ts != [] {
      var rest := Keep(ts[1..], retired);
      KeepMembers(ts[1..], retired);
      KeepDisjoint(ts[1..], retired);
      forall j | 0 <= j < |rest| ensures Less(MaxKey(ts[0]), MinKey(rest[j])) {
        assert rest[j] in ts[1..];
        var i :| 0 <= i < |ts[1..]| && ts[1..][i] == rest[j];
        assert ts[i + 1] == rest[j];
      }
    }
  }

  lemma {:induction false} KeepNewestFirst(ts: seq<Table>, retired: set<nat>)
    requires NewestFirst(ts)
    ensures NewestFirst(Keep(ts, retired))
  {
    if ts != [] {
      var tail, rest := ts[1..], Keep(ts[1..], retired);
      KeepMembers(tail, retired);
      KeepNewestFirst(tail, retired);
      forall t | t in tail ensures t.id < ts[0].id {
        var i :| 0 <= i < |tail| && tail[i] == t;
        assert ts[i + 1] == t;
      }
      forall j | 0 <= j < |rest| ensures rest[j].id < ts[0].id {
        assert rest[j] in rest;
      }
    }
  }

  lemma ReadTables(levels: LevelSet, work: Work, t: Table)
    requires WorkOk(levels, work) && Reads(work, t)
    ensures t in work.inputs ==> Member(levels, work.level, t)
    ensures t in work.overlaps ==> Member(levels, work.level + 1, t)
  {
    OverlappingMembers(At(levels, work.level + 1), InputBegin(work.inputs), InputEnd(work.inputs));
  }

  /** An id is retired only because the table it names was read. */
  lemma RetiredWasRead(levels: LevelSet, work: Work, l: nat, t: Table)
    requires WorkOk(levels, work) && UniqueIds(levels)
    requires Member(levels, l, t) && t.id in Retired(work)
    ensures (l == work.level && t in work.inputs) || (l == work.level + 1 && t in work.overlaps)
  {
    var u :| Reads(work, u) && u.id == t.id;
    ReadTables(levels, work, u);
  }

  /** Retiring by id removes exactly the tables that were read. */
  lemma KeptTables(levels: LevelSet, work: Work, t: Table)
    requires WorkOk(levels, work) && UniqueIds(levels)
    ensures t in Keep(At(levels, work.level), Retired(work)) <==> t in levels[work.level] && t !in work.inputs
    ensures t in KeptBelow(levels, work) <==> t in At(levels, work.level + 1) && t !in work.overlaps
  {
    hide Keep, Retired, UniqueIds, TablesOk, Disjoint, Overlapping;
    KeptIn(levels, work, work.level, t);
    KeptIn(levels, work, work.level + 1, t);
  }

  lemma KeptIn(levels: LevelSet, work: Work, l: nat, t: Table)
    requires WorkOk(levels, work) && UniqueIds(levels)
    ensures t in Keep(At(levels, l), Retired(work)) <==>
      t in At(levels, l) && !(l == work.level && t in work.inputs) && !(l == work.level + 1 && t in work.overlaps)
  {
    KeepMembers(At(levels, l), Retired(work));
    if t in At(levels, l) && t.id in Retired(work) {
      assert Member(levels, l, t);
      RetiredWasRead(levels, work, l, t);
    }
  }

  function KeptBelow(levels: LevelSet, work: Work): seq<Table> {
    Keep(At(levels, work.level + 1), Retired(work))
  }

  /** What stays in the output level and what arrives are pairwise apart. */
  lemma ArrivalsApart(level: seq<Table>, work: Work, kept: seq<Table>, outs: seq<Table>)
    requires TablesOk(level) && Disjoint(level) && TablesOk(work.inputs) && work.inputs != []
    requires CollectsOverlaps(level, work) && OutputsOf(work, outs) && TablesOk(outs) && Disjoint(outs)
    requires TablesOk(kept) && Disjoint(kept) && forall t :: t in kept ==> t in level && t !in work.overlaps
    ensures Apart(kept + outs)
  {
    forall i, j | 0 <= i < |kept| && 0 <= j < |outs| ensures Separate(kept[i], outs[j]) {
      OutputClear(level, work, outs, kept[i], outs[j]);
    }
  }

  lemma OutputClear(level: seq<Table>, work: Work, outs: seq<Table>, r: Table, t: Table)
    requires TablesOk(level) && Disjoint(level) && TablesOk(work.inputs) && work.inputs != []
    requires CollectsOverlaps(level, work) && OutputsOf(work, outs) && TablesOk(outs)
    requires r in level && r !in work.overlaps && t in outs
    ensures TableOk(r) && Separate(r, t)
  {
    KeptIsClear(level, work, r);
    var u, f := OutputKeySource(work, outs, t, t.run[0]);
    var v, g := OutputKeySource(work, outs, t, t.run[|t.run| - 1]);
  }

  lemma KeptBelowClean(levels: LevelSet, work: Work)
    requires WorkOk(levels, work) && UniqueIds(levels)
    ensures TablesOk(KeptBelow(levels, work)) && Disjoint(KeptBelow(levels, work))
    ensures forall t :: t in KeptBelow(levels, work) ==> t in At(levels, work.level + 1) && t !in work.overlaps
  {
    KeepDisjoint(At(levels, work.level + 1), Retired(work));
    assert KeptBelow(levels, work) == Keep(At(levels, work.level + 1), Retired(work));
    forall t | t in KeptBelow(levels, work) ensures t in At(levels, work.level + 1) && t !in work.overlaps {
      KeptTables(levels, work, t);
    }
  }

  /** The output level of an installed compaction is sorted with disjoint ranges. */
  lemma TargetDisjoint(levels: LevelSet, work: Work, outs: seq<Table>)
    requires WorkOk(levels, work) && UniqueIds(levels) && OutputsOf(work, outs)
    ensures TablesOk(outs) && Disjoint(TargetLevel(levels, work, outs))
  {
    OutputsSay(work, outs, []);
    KeptBelowClean(levels, work);
    ArrivalsApart(At(levels, work.level + 1), work, KeptBelow(levels, work), outs);
    SortDisjoint(KeptBelow(levels, work) + outs);
    assert TargetLevel(levels, work, outs) == SortByMinKey(KeptBelow(levels, work) + outs);
  }

  // -- No reader can tell -----------------------------------------------------------------

  /** Taking the inputs out of their level takes out exactly what they said. */
  lemma SourceSays(levels: LevelSet, work: Work, k: Key)
    requires WorkOk(levels, work) && UniqueIds(levels)
    ensures var before, after := Look(Runs(levels[work.level]), k),
        Look(Runs(Keep(At(levels, work.level), Retired(work))), k);
            var taken := Look(Runs(work.inputs), k);
            if taken.Some? then before == taken && after == None else after == before
  {
    var level, kept := levels[work.level], Keep(At(levels, work.level), Retired(work));
    forall t ensures t in kept <==> t in level && t !in work.inputs {
      KeptTables(levels, work, t);
    }
    if work.level == 0 {
      LookAbsent(kept, k);
    } else {
      KeepDisjoint(level, Retired(work));
      if Look(Runs(work.inputs), k).Some? {
        InputAnswers(level, work.inputs, kept, k);
      } else {
        InputsSilent(level, work.inputs, kept, k);
      }
    }
  }

  lemma InputAnswers(level: seq<Table>, inputs: seq<Table>, kept: seq<Table>, k: Key)
    requires TablesOk(level) && Disjoint(level) && TablesOk(kept) && Disjoint(kept)
    requires forall t :: t in inputs ==> t in level
    requires forall t :: t in kept <==> t in level && t !in inputs
    requires Look(Runs(inputs), k).Some?
    ensures Look(Runs(level), k) == Look(Runs(inputs), k) && Look(Runs(kept), k) == None
  {
    var e := Entry(k, Look(Runs(inputs), k).value);
    var t := LookTable(inputs, k);
    LookDisjoint(level, t, e);
    if Look(Runs(kept), k).Some? {
      var u := LookTable(kept, k);
      assert HasKey(u.run, k);
      assert false;
    }
  }

  lemma InputsSilent(level: seq<Table>, inputs: seq<Table>, kept: seq<Table>, k: Key)
    requires TablesOk(level) && Disjoint(level) && TablesOk(kept) && Disjoint(kept)
    requires forall t :: t in inputs ==> t in level
    requires TablesOk(inputs) && Disjoint(inputs)
    requires forall t :: t in kept <==> t in level && t !in inputs
    requires Look(Runs(inputs), k).None?
    ensures Look(Runs(kept), k) == Look(Runs(level), k)
  {
    forall t: Table, c: Cell | Entry(k, c) in t.run ensures t in kept <==> t in level {
      if t in inputs {
        LookDisjoint(inputs, t, Entry(k, c));
        assert false;
      }
    }
    LookSame(kept, level, k);
  }

  /** What the output level says afterwards: the merged answer for every key the work read, less
      dropped tombstones, and what it said before for every other key. */
  lemma TargetSays(levels: LevelSet, work: Work, outs: seq<Table>, k: Key)
    requires WorkOk(levels, work) && UniqueIds(levels) && OutputsOf(work, outs) && TablesOk(outs)
    ensures var read := Or(Look(Runs(work.inputs), k), Look(Runs(work.overlaps), k));
            Look(Runs(TargetLevel(levels, work, outs)), k) ==
              if read.None? then Look(Runs(At(levels, work.level + 1)), k)
              else if work.drop && read == Some(Tombstone) then None
              else read
    ensures Look(Runs(work.overlaps), k).Some? ==>
              Look(Runs(At(levels, work.level + 1)), k) == Look(Runs(work.overlaps), k)
  {
    var level, kept := At(levels, work.level + 1), KeptBelow(levels, work);
    TargetDisjoint(levels, work, outs);
    KeptBelowClean(levels, work);
    forall t ensures t in kept <==> t in level && t !in work.overlaps {
      KeptTables(levels, work, t);
    }
    SortMembers(kept + outs);
    TargetValue(level, work, kept, outs, TargetLevel(levels, work, outs), k);
  }

  lemma TargetValue(level: seq<Table>, work: Work, kept: seq<Table>, outs: seq<Table>, target: seq<Table>, k: Key)
    requires TablesOk(level) && Disjoint(level) && TablesOk(work.inputs) && work.inputs != []
    requires CollectsOverlaps(level, work) && OutputsOf(work, outs)
    requires TablesOk(kept) && Disjoint(kept) && TablesOk(target) && Disjoint(target)
    requires forall t :: t in kept <==> t in level && t !in work.overlaps
    requires forall t :: t in target <==> t in kept || t in outs
    ensures var read := Or(Look(Runs(work.inputs), k), Look(Runs(work.overlaps), k));
            Look(Runs(target), k) ==
              if read.None? then Look(Runs(level), k)
              else if work.drop && read == Some(Tombstone) then None
              else read
    ensures Look(Runs(work.overlaps), k).Some? ==> Look(Runs(level), k) == Look(Runs(work.overlaps), k)
  {
    OutputsSay(work, outs, k);
    SurvivingFacts(work, k);
    OverlappingMembers(level, InputBegin(work.inputs), InputEnd(work.inputs));
    OverlappingDisjoint(level, InputBegin(work.inputs), InputEnd(work.inputs));
    if Look(Runs(work.overlaps), k).Some? {
      var t := LookTable(work.overlaps, k);
      LookDisjoint(level, t, Entry(k, Look(Runs(work.overlaps), k).value));
    }
    MergedLevel(level, work.overlaps, kept, outs, target, k);
    if Or(Look(Runs(work.inputs), k), Look(Runs(work.overlaps), k)).Some? {
      KeptSilent(level, work, kept, k);
    }
  }

  /** A disjoint level made of kept and arriving tables. */
  lemma MergedLevel(level: seq<Table>, overlaps: seq<Table>, kept: seq<Table>, outs: seq<Table>, target: seq<Table>,
      k: Key)
    requires TablesOk(level) && Disjoint(level) && TablesOk(overlaps) && Disjoint(overlaps)
    requires TablesOk(kept) && Disjoint(kept) && TablesOk(outs) && Disjoint(outs) && TablesOk(target)
        && Disjoint(target)
    requires forall t :: t in overlaps ==> t in level
    requires forall t :: t in kept <==> t in level && t !in overlaps
    requires forall t :: t in target <==> t in kept || t in outs
    ensures Look(Runs(outs), k).Some? ==> Look(Runs(target), k) == Look(Runs(outs), k)
    ensures Look(Runs(outs), k).None? ==> Look(Runs(target), k) == Look(Runs(kept), k)
    ensures Look(Runs(overlaps), k).None? ==> Look(Runs(kept), k) == Look(Runs(level), k)
  {
    if Look(Runs(outs), k).Some? {
      var t := LookTable(outs, k);
      LookDisjoint(target, t, Entry(k, Look(Runs(outs), k).value));
    } else {
      forall t: Table, c: Cell | Entry(k, c) in t.run ensures t in target <==> t in kept {
        if t in outs {
          LookDisjoint(outs, t, Entry(k, c));
          assert false;
        }
      }
      LookSame(target, kept, k);
    }
    if Look(Runs(overlaps), k).None? {
      InputsSilent(level, overlaps, kept, k);
    }
  }

  /** No table that stays in the output level mentions a key that was read. */
  lemma KeptSilent(level: seq<Table>, work: Work, kept: seq<Table>, k: Key)
    requires TablesOk(level) && Disjoint(level) && TablesOk(work.inputs) && work.inputs != []
    requires CollectsOverlaps(level, work)
    requires forall t :: t in kept ==> t in level && t !in work.overlaps
    requires Or(Look(Runs(work.inputs), k), Look(Runs(work.overlaps), k)).Some?
    ensures Look(Runs(kept), k) == None
  {
    var v, f := ReadKeySource(work, k);
    if Look(Runs(kept), k).Some? {
      var r := LookTable(kept, k);
      InRange(r, Entry(k, Look(Runs(kept), k).value));
      KeptIsClear(level, work, r);
      assert false;
    }
  }

  lemma ReadKeySource(work: Work, k: Key) returns (v: Table, f: Entry)
    requires Or(Look(Runs(work.inputs), k), Look(Runs(work.overlaps), k)).Some?
    ensures Reads(work, v) && f in v.run && f.key == k
  {
    if Look(Runs(work.inputs), k).Some? {
      v := LookTable(work.inputs, k);
      f := Entry(k, Look(Runs(work.inputs), k).value);
    } else {
      v := LookTable(work.overlaps, k);
      f := Entry(k, Look(Runs(work.overlaps), k).value);
    }
  }

  /** When tombstones are dropped, nothing deeper mentions a key that was read. */
  lemma DeeperSilent(levels: LevelSet, work: Work, k: Key)
    requires WorkOk(levels, work) && work.drop
    requires Or(Look(Runs(work.inputs), k), Look(Runs(work.overlaps), k)).Some?
    ensures forall l :: work.level + 1 < l < |levels| ==> Look(Runs(levels[l]), k) == None
  {
    var v, f := ReadKeySource(work, k);
    ReadInRange(work, v, f);
    forall l | work.level + 1 < l < |levels| ensures Look(Runs(levels[l]), k) == None {
      if Look(Runs(levels[l]), k).Some? {
        var t := LookTable(levels[l], k);
        var i :| 0 <= i < |levels[l]| && levels[l][i] == t;
        InRange(t, Entry(k, Look(Runs(levels[l]), k).value));
        StillTouches(t, k, work.begin, work.end);
        assert false;
      }
    }
  }

  lemma StillTouches(t: Table, k: Key, begin: Key, end: Key)
    requires TableOk(t) && AtMost(MinKey(t), k) && AtMost(k, MaxKey(t)) && AtMost(begin, k) && AtMost(k, end)
    ensures Touches(t, begin, end)
  {
    StrictTotalOrder();
  }

  lemma ReadInRange(work: Work, v: Table, f: Entry)
    requires TablesOk(work.inputs) && work.inputs != [] && TablesOk(work.overlaps)
    requires work.begin == LowerAll(InputBegin(work.inputs), work.overlaps)
    requires work.end == HigherAll(InputEnd(work.inputs), work.overlaps)
    requires Reads(work, v) && f in v.run
    ensures AtMost(work.begin, f.key) && AtMost(f.key, work.end)
  {
    LowerAllBounds(MinKey(work.inputs[0]), work.inputs);
    HigherAllBounds(MaxKey(work.inputs[0]), work.inputs);
    LowerAllBounds(InputBegin(work.inputs), work.overlaps);
    HigherAllBounds(InputEnd(work.inputs), work.overlaps);
    InRange(v, f);
    StrictTotalOrder();
  }

  lemma {:induction false} SilentLevels(levels: LevelSet, k: Key)
    requires forall l :: 0 <= l < |levels| ==> Look(Runs(levels[l]), k) == None
    ensures LookLevels(levels, k) == None
  {
    if levels != [] {
      LookConcat(Runs(levels[0]), Stack(levels[1..]), k);
      SilentLevels(levels[1..], k);
    }
  }

  /** The four parts of a level set around one pair of levels. */
  lemma LookParts(levels: LevelSet, l: nat, k: Key)
    requires l + 1 < |levels|
    ensures LookLevels(levels, k) ==
      Or(LookLevels(levels[..l], k), Or(Look(Runs(levels[l]), k),
          Or(Look(Runs(levels[l + 1]), k), LookLevels(levels[l + 2..], k))))
  {
    LookSplit(levels, l, k);
    LookSplit(levels[l + 1..], 0, k);
    assert levels[l + 1..][1..] == levels[l + 2..] && levels[l + 1..][..0] == [];
  }

  /** What the levels above and below the two that change say. */
  ghost function LookAbove(levels: LevelSet, l: nat, k: Key): Option<Cell> {
    LookLevels(Pad(levels, l + 2)[..l], k)
  }

  ghost function LookBelow(levels: LevelSet, l: nat, k: Key): Option<Cell> {
    LookLevels(Pad(levels, l + 2)[l + 2..], k)
  }

  lemma LookBefore(levels: LevelSet, l: nat, k: Key)
    ensures LookLevels(levels, k) ==
      Or(LookAbove(levels, l, k), Or(Look(Runs(At(levels, l)), k),
          Or(Look(Runs(At(levels, l + 1)), k), LookBelow(levels, l, k))))
  {
    PadStack(levels, l + 2);
    LookParts(Pad(levels, l + 2), l, k);
  }

  lemma LookAfter(levels: LevelSet, work: Work, outs: seq<Table>, k: Key)
    requires LevelsOk(levels) && TablesOk(outs)
    ensures LookLevels(Install(levels, work, outs), k) ==
      Or(LookAbove(levels, work.level, k),
         Or(Look(Runs(Keep(At(levels, work.level), Retired(work))), k),
            Or(Look(Runs(TargetLevel(levels, work, outs)), k), LookBelow(levels, work.level, k))))
  {
    var l := work.level;
    var padded, next := Pad(levels, l + 2), Replace(levels, work, outs);
    TrimStack(next);
    LookParts(next, l, k);
    SameElsewhere(levels, work, outs);
    assert next[l] == Slot(levels, work, outs, l) && next[l + 1] == Slot(levels, work, outs, l + 1);
  }

  lemma SameElsewhere(levels: LevelSet, work: Work, outs: seq<Table>)
    requires LevelsOk(levels) && TablesOk(outs)
    ensures Replace(levels, work, outs)[..work.level] == Pad(levels, work.level + 2)[..work.level]
    ensures Replace(levels, work, outs)[work.level + 2..] == Pad(levels, work.level + 2)[work.level + 2..]
  {
  }

  lemma SilentDeeper(levels: LevelSet, l: nat, k: Key)
    requires forall m :: l + 1 < m < |levels| ==> Look(Runs(levels[m]), k) == None
    ensures LookBelow(levels, l, k) == None
  {
    var rest := Pad(levels, l + 2)[l + 2..];
    forall m | 0 <= m < |rest| ensures Look(Runs(rest[m]), k) == None {
      assert rest[m] == At(levels, l + 2 + m);
    }
    SilentLevels(rest, k);
  }

  /** Installing a compaction changes no visible answer, tombstones dropped or not. */
  lemma InstallPreservesView(levels: LevelSet, work: Work, outs: seq<Table>, k: Key)
    requires WorkOk(levels, work) && UniqueIds(levels) && OutputsOf(work, outs) && TablesOk(outs)
    ensures Visible(LookLevels(Install(levels, work, outs), k)) == Visible(LookLevels(levels, k))
  {
    LookBefore(levels, work.level, k);
    LookAfter(levels, work, outs, k);
    SourceSays(levels, work, k);
    TargetSays(levels, work, outs, k);
    var read := Or(Look(Runs(work.inputs), k), Look(Runs(work.overlaps), k));
    if work.drop && read == Some(Tombstone) {
      DeeperSilent(levels, work, k);
      SilentDeeper(levels, work.level, k);
    }
  }

  // -- What every install keeps -------------------------------------------------------------

  ghost predicate FreshIds(levels: LevelSet, outs: seq<Table>) {
    && (forall i, j :: 0 <= i < j < |outs| ==> outs[i].id != outs[j].id)
    && (forall l, t, u :: Member(levels, l, t) && u in outs ==> t.id != u.id)
  }

  /** Where the tables of an installed level set come from. */
  lemma InstallMember(levels: LevelSet, work: Work, outs: seq<Table>, l: nat, t: Table)
    requires WorkOk(levels, work) && UniqueIds(levels) && TablesOk(outs)
    ensures Member(Install(levels, work, outs), l, t) <==>
      (l == work.level + 1 && t in outs) || (Member(levels, l, t) && !(l == work.level && t in work.inputs)
          && !(l == work.level + 1 && t in work.overlaps))
  {
    hide Keep, Retired, SortByMinKey, Install, UniqueIds, Disjoint, Overlapping, TableOk;
    InstallAt(levels, work, outs, l);
    assert Member(Install(levels, work, outs), l, t) <==> t in Slot(levels, work, outs, l);
    if l == work.level || l == work.level + 1 {
      KeptTables(levels, work, t);
      KeptBelowClean(levels, work);
      SortMembers(KeptBelow(levels, work) + outs);
      assert t in TargetLevel(levels, work, outs) <==> t in KeptBelow(levels, work) || t in outs;
    }
  }

  lemma SlotOk(levels: LevelSet, work: Work, outs: seq<Table>, m: nat)
    requires WorkOk(levels, work) && UniqueIds(levels) && OutputsOf(work, outs) && TablesOk(outs)
    ensures TablesOk(Slot(levels, work, outs, m)) && (m > 0 ==> Disjoint(Slot(levels, work, outs, m)))
  {
    hide UniqueIds, OutputsOf, Less, Retired, Keep;
    if m == work.level {
      if m > 0 {
        KeepDisjoint(At(levels, m), Retired(work));
      }
    } else if m == work.level + 1 {
      TargetDisjoint(levels, work, outs);
    }
  }

  lemma InstallKeepsLevels(levels: LevelSet, work: Work, outs: seq<Table>)
    requires WorkOk(levels, work) && UniqueIds(levels) && OutputsOf(work, outs)
    ensures TablesOk(outs) && LevelsOk(Install(levels, work, outs))
    ensures NewestFirst(At(levels, 0)) ==> NewestFirst(At(Install(levels, work, outs), 0))
  {
    hide UniqueIds, OutputsOf, Less, Retired, Keep, TargetLevel, TablesOk, Disjoint, NewestFirst, CollectsOverlaps,
         InputBegin, InputEnd, LowerAll, HigherAll, CanDropTombstones;
    TargetDisjoint(levels, work, outs);
    InstalledOk(levels, work, outs);
    InstallAt(levels, work, outs, 0);
    KeptNewest(levels, work);
  }

  lemma InstalledOk(levels: LevelSet, work: Work, outs: seq<Table>)
    requires WorkOk(levels, work) && UniqueIds(levels) && OutputsOf(work, outs) && TablesOk(outs)
    ensures LevelsOk(Install(levels, work, outs))
  {
    hide Install, UniqueIds, OutputsOf, Slot, Disjoint, TablesOk, InputsOk, CollectsOverlaps, CanDropTombstones,
         LowerAll, HigherAll;
    var next := Install(levels, work, outs);
    forall m | 0 <= m < |next| ensures TablesOk(next[m]) && (m > 0 ==> Disjoint(next[m])) {
      InstallAt(levels, work, outs, m);
      SlotOk(levels, work, outs, m);
      assert At(next, m) == next[m];
    }
  }

  lemma KeptNewest(levels: LevelSet, work: Work)
    ensures NewestFirst(At(levels, 0)) ==> NewestFirst(Keep(At(levels, 0), Retired(work)))
  {
    if NewestFirst(At(levels, 0)) {
      KeepNewestFirst(At(levels, 0), Retired(work));
    }
  }

  lemma InstallKeepsIds(levels: LevelSet, work: Work, outs: seq<Table>)
    requires WorkOk(levels, work) && UniqueIds(levels) && TablesOk(outs) && FreshIds(levels, outs)
    ensures UniqueIds(Install(levels, work, outs))
  {
    var next := Install(levels, work, outs);
    forall l, m, t, u | Member(next, l, t) && Member(next, m, u) && t.id == u.id ensures l == m && t == u {
      InstallMember(levels, work, outs, l, t);
      InstallMember(levels, work, outs, m, u);
    }
  }
}
