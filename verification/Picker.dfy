/** Choosing what to compact, as the loops that choose it. */
module Picker {
  import opened Words
  import opened Keys
  import opened Entries
  import opened Levels
  import opened Compaction
  import CompactionChoice

  method BudgetOf(options: Options, level: nat) returns (budget: nat)
    ensures budget == LevelBudget(options, level)
  {
    budget := options.levelBaseBytes % Word64;
    var i := 1;
    while i < level
      invariant 1 <= i && (i <= level || i == 1)
      invariant budget == LevelBudget(options, i)
    {
      budget := (budget * options.levelMultiplier) % Word64;
      i := i + 1;
    }
  }

  method BytesOf(ts: seq<Table>) returns (bytes: nat)
    ensures bytes == LevelBytes(ts)
  {
    bytes := 0;
    for i := 0 to |ts|
      invariant bytes == LevelBytes(ts[..i])
    {
      assert ts[..i + 1][..i] == ts[..i];
      bytes := (bytes + ts[i].size) % Word64;
    }
    assert ts[..|ts|] == ts;
  }

  method MayDropTombstones(levels: LevelSet, outputLevel: nat, begin: Key, end: Key) returns (may: bool)
    requires LevelsOk(levels)
    ensures may == CanDropTombstones(levels, outputLevel, begin, end)
  {
    var l := outputLevel + 1;
    while l < |levels|
      invariant outputLevel < l
      invariant forall m, j :: outputLevel < m < l && m < |levels| && 0 <= j < |levels[m]| ==>
        !Touches(levels[m][j], begin, end)
    {
      for i := 0 to |levels[l]|
        invariant forall j :: 0 <= j < i ==> !Touches(levels[l][j], begin, end)
      {
        if RangesOverlap(begin, end, MinKey(levels[l][i]), MaxKey(levels[l][i])) {
          assert Touches(levels[l][i], begin, end);
          return false;
        }
      }
      l := l + 1;
    }
    return true;
  }

  /** The hull of a range and some tables. */
  method Widen(begin0: Key, end0: Key, ts: seq<Table>) returns (begin: Key, end: Key)
    requires TablesOk(ts)
    ensures begin == LowerAll(begin0, ts) && end == HigherAll(end0, ts)
  {
    begin, end := begin0, end0;
    for i := 0 to |ts|
      invariant LowerAll(begin, ts[i..]) == LowerAll(begin0, ts)
      invariant HigherAll(end, ts[i..]) == HigherAll(end0, ts)
    {
      assert ts[i..][1..] == ts[i + 1..];
      begin := Lower(begin, MinKey(ts[i]));
      end := Higher(end, MaxKey(ts[i]));
    }
  }

  method Collect(ts: seq<Table>, begin: Key, end: Key) returns (overlaps: seq<Table>)
    requires TablesOk(ts)
    ensures overlaps == Overlapping(ts, begin, end)
  {
    overlaps := [];
    for i := 0 to |ts|
      invariant overlaps + Overlapping(ts[i..], begin, end) == Overlapping(ts, begin, end)
    {
      assert ts[i..][1..] == ts[i + 1..];
      if RangesOverlap(begin, end, MinKey(ts[i]), MaxKey(ts[i])) {
        overlaps := overlaps + [ts[i]];
      }
    }
  }

  method ForcedLevel(levels: LevelSet) returns (chosen: Option<nat>)
    ensures chosen == ForcedFrom(levels, 0)
  {
    var l := 0;
    while l < |levels|
      invariant 0 <= l <= |levels|
      invariant ForcedFrom(levels, 0) == ForcedFrom(levels, l)
    {
      if levels[l] != [] {
        var below := NonEmptyBelow(levels, l);
        if below {
          return Some(l);
        }
      }
      l := l + 1;
    }
    return None;
  }

  method NonEmptyBelow(levels: LevelSet, l: nat) returns (below: bool)
    ensures below == AnyBelow(levels, l)
  {
    var m := l + 1;
    while m < |levels|
      invariant l < m
      invariant forall i :: l < i < m && i < |levels| ==> levels[i] == []
    {
      if levels[m] != [] {
        return true;
      }
      m := m + 1;
    }
    return false;
  }

  method OverBudgetLevel(levels: LevelSet, options: Options) returns (chosen: Option<nat>)
    ensures chosen == OverBudgetFrom(levels, options, 1)
  {
    var l := 1;
    while l < |levels| && l + 1 < options.maxLevels
      invariant 1 <= l
      invariant OverBudgetFrom(levels, options, 1) == OverBudgetFrom(levels, options, l)
    {
      if levels[l] != [] {
        var bytes := BytesOf(levels[l]);
        var budget := BudgetOf(options, l);
        if bytes > budget {
          return Some(l);
        }
      }
      l := l + 1;
    }
    return None;
  }

  method NextTable(ts: seq<Table>, pointer: Key) returns (picked: Table)
    requires TablesOk(ts) && ts != []
    ensures picked == PickTable(ts, pointer)
  {
    picked := ts[0];
    if pointer != [] {
      for i := 0 to |ts|
        invariant FirstPast(ts[i..], pointer) == FirstPast(ts, pointer)
      {
        assert ts[i..][1..] == ts[i + 1..];
        if Less(pointer, MinKey(ts[i])) {
          return ts[i];
        }
      }
    }
  }

  /** pick_compaction, all three branches; whatever it returns is sound work. */
  method PickCompaction(levels: LevelSet, pointers: seq<Key>, options: Options, force: bool)
      returns (work: Option<Work>)
    requires LevelsOk(levels) && options.l0Trigger >= 1
    ensures work == Pick(levels, pointers, options, force)
    ensures work.Some? ==> WorkOk(levels, work.value)
    ensures work.Some? ==>
      (work.value.drop <==> CompactionChoice.AllClear(levels, work.value.level + 1, work.value.begin, work.value.end))
  {
    hide Less, Expand, CompactionChoice.AllClear;
    PickIsSound(levels, pointers, options, force);
    if Pick(levels, pointers, options, force).Some? {
      CompactionChoice.PickRange(levels, pointers, options, force);
    }
    var level: nat;
    var inputs: seq<Table>;
    if force {
      var chosen := ForcedLevel(levels);
      if chosen.None? {
        return None;
      }
      level, inputs := chosen.value, levels[chosen.value];
    } else if levels != [] && |levels[0]| >= options.l0Trigger {
      level, inputs := 0, levels[0];
    } else {
      var chosen := OverBudgetLevel(levels, options);
      if chosen.None? {
        return None;
      }
      var pointer := PointerOf(pointers, chosen.value);
      var picked := NextTable(levels[chosen.value], pointer);
      level, inputs := chosen.value, [picked];
    }
    var expanded := ExpandWork(levels, level, inputs);
    work := Some(expanded);
  }

  method ExpandWork(levels: LevelSet, level: nat, inputs: seq<Table>) returns (work: Work)
    requires LevelsOk(levels) && TablesOk(inputs) && inputs != []
    ensures work == Expand(levels, level, inputs)
    ensures work.drop <==> CompactionChoice.AllClear(levels, level + 1, work.begin, work.end)
  {
    CompactionChoice.ExpandRange(levels, level, inputs);
    hide Less, CompactionChoice.AllClear;
    var begin, end := Widen(MinKey(inputs[0]), MaxKey(inputs[0]), inputs);
    var overlaps: seq<Table> := [];
    if level + 1 < |levels| {
      overlaps := Collect(levels[level + 1], begin, end);
    }
    var wideBegin, wideEnd := Widen(begin, end, overlaps);
    var drop := MayDropTombstones(levels, level + 1, wideBegin, wideEnd);
    work := Work(level, inputs, overlaps, wideBegin, wideEnd, drop);
  }
}
