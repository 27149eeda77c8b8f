/** Repeated compaction comes to rest. */
module Convergence {
  import opened Keys
  import opened Entries
  import opened Levels
  import opened Compaction

  function EntriesIn(ts: seq<Table>): nat {
    if ts == [] then 0 else |ts[0].run| + EntriesIn(ts[1..])
  }

  /** Each entry weighs the number of levels it can still sink. */
  function WeightFrom(levels: LevelSet, l: nat, bound: nat): nat
    decreases bound - l
  {
    if l >= bound then 0 else (bound - l) * EntriesIn(At(levels, l)) + WeightFrom(levels, l + 1, bound)
  }

  function Weight(levels: LevelSet, bound: nat): nat {
    WeightFrom(levels, 0, bound)
  }

  function Max(a: nat, b: nat): nat {
    if a < b then b else a
  }

  /** No compaction ever writes below this many levels. */
  function DepthBound(levels: LevelSet, options: Options): nat {
    Max(Max(options.maxLevels, 2), |levels|)
  }

  // -- Counting entries -----------------------------------------------------------------

  lemma {:induction false} EntriesConcat(a: seq<Table>, b: seq<Table>)
    ensures EntriesIn(a + b) == EntriesIn(a) + EntriesIn(b)
  {
    if a == [] {
      assert a + b == b;
    } else {
      assert (a + b)[1..] == a[1..] + b;
      EntriesConcat(a[1..], b);
    }
  }

  lemma {:induction false} EntriesInsert(t: Table, ts: seq<Table>)
    requires TableOk(t) && TablesOk(ts)
    ensures EntriesIn(Insert(t, ts)) == |t.run| + EntriesIn(ts)
  {
    if !(ts == [] || Less(MinKey(t), MinKey(ts[0]))) {
      EntriesInsert(t, ts[1..]);
    }
  }

  lemma {:induction false} EntriesSort(ts: seq<Table>)
    requires TablesOk(ts)
    ensures EntriesIn(SortByMinKey(ts)) == EntriesIn(ts)
  {
    if ts != [] {
      EntriesSort(ts[1..]);
      EntriesInsert(ts[0], SortByMinKey(ts[1..]));
    }
  }

  lemma {:induction false} EntriesTotal(ts: seq<Table>)
    ensures EntriesIn(ts) == TotalEntries(Runs(ts))
  {
    if ts != [] {
      assert Runs(ts)[1..] == Runs(ts[1..]);
      EntriesTotal(ts[1..]);
    }
  }

  lemma {:induction false} EntriesPieces(ts: seq<Table>)
    ensures EntriesIn(ts) == |Concat(ts)|
  {
    if ts != [] {
      EntriesPieces(ts[1..]);
    }
  }

  /** The overlaps and what is kept beside them share out the level. */
  lemma {:induction false} EntriesSplit(ts: seq<Table>, retired: set<nat>, begin: Key, end: Key)
    requires TablesOk(ts)
    requires forall t :: t in ts && TableOk(t) ==> (t.id in retired <==> Touches(t, begin, end))
    ensures EntriesIn(Keep(ts, retired)) + EntriesIn(Overlapping(ts, begin, end)) == EntriesIn(ts)
  {
    if ts != [] {
      var head, tail := ts[0], ts[1..];
      assert ts == [head] + tail && TableOk(head);
      EntriesSplit(tail, retired, begin, end);
      EntriesConcat([head], Keep(tail, retired));
      EntriesConcat([head], Overlapping(tail, begin, end));
    }
  }

  lemma {:induction false} EntriesKeepAtMost(ts: seq<Table>, retired: set<nat>)
    ensures EntriesIn(Keep(ts, retired)) <= EntriesIn(ts)
  {
    if ts != [] {
      EntriesKeepAtMost(ts[1..], retired);
      EntriesConcat([ts[0]], Keep(ts[1..], retired));
    }
  }

  lemma {:induction false} EntriesKeepOne(ts: seq<Table>, retired: set<nat>, t: Table)
    requires t in ts && t.id in retired
    ensures EntriesIn(Keep(ts, retired)) + |t.run| <= EntriesIn(ts)
  {
    if ts[0] == t {
      EntriesKeepAtMost(ts[1..], retired);
    } else {
      assert t in ts[1..];
      EntriesKeepOne(ts[1..], retired, t);
      EntriesConcat([ts[0]], Keep(ts[1..], retired));
    }
  }

  // -- One step -----------------------------------------------------------------------------

  /** Whatever is picked is a whole level or a single table of one. */
  lemma SourceLoses(levels: LevelSet, work: Work)
    requires WorkOk(levels, work)
    requires work.inputs == levels[work.level] || |work.inputs| == 1
    ensures EntriesIn(Keep(At(levels, work.level), Retired(work)))
        + EntriesIn(work.inputs) <= EntriesIn(At(levels, work.level))
    ensures EntriesIn(work.inputs) >= 1
  {
    var level := levels[work.level];
    var first := work.inputs[0];
    assert TableOk(first) && first in work.inputs;
    if work.inputs == level {
      KeepNone(level, Retired(work));
    } else {
      assert work.inputs == [first];
      EntriesKeepOne(level, Retired(work), first);
    }
  }

  lemma {:induction false} KeepNone(ts: seq<Table>, retired: set<nat>)
    requires forall t :: t in ts ==> t.id in retired
    ensures Keep(ts, retired) == []
  {
    if ts != [] {
      assert ts[0] in ts;
      KeepNone(ts[1..], retired);
    }
  }

  /** Retiring by id and touching the input range are the same thing in the output level. */
  lemma RetiredTouch(levels: LevelSet, work: Work, t: Table)
    requires WorkOk(levels, work) && UniqueIds(levels) && t in At(levels, work.level + 1) && TableOk(t)
    ensures t.id in Retired(work) <==> Touches(t, InputBegin(work.inputs), InputEnd(work.inputs))
  {
    hide Overlapping, LowerAll, HigherAll, Touches, UniqueIds, Disjoint, Less, Sorted;
    OverlappingMembers(At(levels, work.level + 1), InputBegin(work.inputs), InputEnd(work.inputs));
    assert t in work.overlaps <==> Touches(t, InputBegin(work.inputs), InputEnd(work.inputs));
    if t.id in Retired(work) {
      assert Member(levels, work.level + 1, t);
      RetiredWasRead(levels, work, work.level + 1, t);
    } else {
      assert t in work.overlaps ==> t.id in Ids(work.overlaps);
    }
  }

  lemma KeptCount(levels: LevelSet, work: Work)
    requires WorkOk(levels, work) && UniqueIds(levels)
    ensures EntriesIn(KeptBelow(levels, work)) + EntriesIn(work.overlaps) == EntriesIn(At(levels, work.level + 1))
  {
    var level := At(levels, work.level + 1);
    assert KeptBelow(levels, work) == Keep(level, Retired(work));
    assert work.overlaps == Overlapping(level, InputBegin(work.inputs), InputEnd(work.inputs));
    forall t | t in level && TableOk(t) ensures t.id in Retired(work) <==>
        Touches(t, InputBegin(work.inputs), InputEnd(work.inputs)) {
      RetiredTouch(levels, work, t);
    }
    EntriesSplit(level, Retired(work), InputBegin(work.inputs), InputEnd(work.inputs));
  }

  lemma TargetCount(levels: LevelSet, work: Work, outs: seq<Table>)
    requires LevelsOk(levels) && TablesOk(outs) && TablesOk(KeptBelow(levels, work))
    ensures EntriesIn(TargetLevel(levels, work, outs)) == EntriesIn(KeptBelow(levels, work)) + EntriesIn(outs)
  {
    EntriesSort(KeptBelow(levels, work) + outs);
    EntriesConcat(KeptBelow(levels, work), outs);
  }

  /** The output level gains no more entries than the work read from above. */
  lemma TargetGains(levels: LevelSet, work: Work, outs: seq<Table>)
    requires WorkOk(levels, work) && UniqueIds(levels) && OutputsOf(work, outs) && TablesOk(outs)
    ensures EntriesIn(TargetLevel(levels, work, outs)) <= EntriesIn(At(levels, work.level + 1)) + EntriesIn(work.inputs)
  {
    KeptBelowClean(levels, work);
    TargetCount(levels, work, outs);
    EntriesPieces(outs);
    SurvivorsCount(work);
    KeptCount(levels, work);
  }

  lemma SurvivorsCount(work: Work)
    ensures |Surviving(work)| <= EntriesIn(work.inputs) + EntriesIn(work.overlaps)
  {
    MergeIsNoLonger(Runs(work.inputs + work.overlaps));
    EntriesTotal(work.inputs + work.overlaps);
    EntriesConcat(work.inputs, work.overlaps);
  }

  lemma {:induction false} WeightSame(a: LevelSet, b: LevelSet, l: nat, bound: nat)
    requires forall m :: m >= l ==> At(a, m) == At(b, m)
    ensures WeightFrom(a, l, bound) == WeightFrom(b, l, bound)
    decreases bound - l
  {
    if l < bound {
      WeightSame(a, b, l + 1, bound);
    }
  }

  /** Sinking at least one entry by one level loses weight. */
  lemma Sinking(d: nat, a0: nat, a1: nat, b0: nat, b1: nat)
    requires b0 < a0 && b0 + b1 <= a0 + a1
    ensures (d + 1) * b0 + d * b1 < (d + 1) * a0 + d * a1
  {
    calc {
      (d + 1) * b0 + d * b1;
      d * (b0 + b1) + b0;
    <= { assert d * (b0 + b1) <= d * (a0 + a1); }
      d * (a0 + a1) + b0;
    <
      d * (a0 + a1) + a0;
      (d + 1) * a0 + d * a1;
    }
  }

  lemma {:induction false} WeightDrops(a: LevelSet, b: LevelSet, l: nat, from: nat, bound: nat)
    requires from <= l && l + 2 <= bound
    requires forall m :: 0 <= m && m != l && m != l + 1 ==> At(a, m) == At(b, m)
    requires EntriesIn(At(b, l)) < EntriesIn(At(a, l))
    requires EntriesIn(At(b, l)) + EntriesIn(At(b, l + 1)) <= EntriesIn(At(a, l)) + EntriesIn(At(a, l + 1))
    ensures WeightFrom(b, from, bound) < WeightFrom(a, from, bound)
    decreases l - from
  {
    if from < l {
      WeightDrops(a, b, l, from + 1, bound);
    } else {
      WeightSame(a, b, l + 2, bound);
      Sinking(bound - l - 1, EntriesIn(At(a, l)), EntriesIn(At(a, l + 1)), EntriesIn(At(b, l)),
          EntriesIn(At(b, l + 1)));
    }
  }

  lemma EntriesSink(levels: LevelSet, work: Work, outs: seq<Table>)
    requires WorkOk(levels, work) && UniqueIds(levels) && OutputsOf(work, outs) && TablesOk(outs)
    requires work.inputs == levels[work.level] || |work.inputs| == 1
    ensures var l, next := work.level, Install(levels, work, outs);
            && EntriesIn(At(next, l)) < EntriesIn(At(levels, l))
            && EntriesIn(At(next, l)) + EntriesIn(At(next, l + 1)) <= EntriesIn(At(levels, l))
               + EntriesIn(At(levels, l + 1))
  {
    SourceLoses(levels, work);
    TargetGains(levels, work, outs);
    InstallAt(levels, work, outs, work.level);
    InstallAt(levels, work, outs, work.level + 1);
  }

  lemma LighterWhenSunk(levels: LevelSet, work: Work, outs: seq<Table>, bound: nat)
    requires LevelsOk(levels) && TablesOk(outs) && work.level + 2 <= bound
    requires var l, next := work.level, Install(levels, work, outs);
             && EntriesIn(At(next, l)) < EntriesIn(At(levels, l))
             && EntriesIn(At(next, l)) + EntriesIn(At(next, l + 1)) <= EntriesIn(At(levels, l))
                + EntriesIn(At(levels, l + 1))
    ensures Weight(Install(levels, work, outs), bound) < Weight(levels, bound)
  {
    hide EntriesIn, Trim, Keep, SortByMinKey;
    var l, next := work.level, Install(levels, work, outs);
    forall m: nat | m != l && m != l + 1 ensures At(next, m) == At(levels, m) {
      InstallAt(levels, work, outs, m);
    }
    WeightDrops(levels, next, l, 0, bound);
  }

  lemma PickShape(levels: LevelSet, pointers: seq<Key>, options: Options, force: bool)
    requires LevelsOk(levels) && options.l0Trigger >= 1
    requires Pick(levels, pointers, options, force).Some?
    ensures var work := Pick(levels, pointers, options, force).value;
            && work.level < |levels| && work.level + 2 <= DepthBound(levels, options)
            && (work.inputs == levels[work.level] || |work.inputs| == 1)
  {
  }

  /** A picked compaction never writes past the depth bound, and leaves the level set lighter. */
  lemma StepLightens(levels: LevelSet, pointers: seq<Key>, options: Options, force: bool, outs: seq<Table>, bound: nat)
    requires LevelsOk(levels) && UniqueIds(levels) && options.l0Trigger >= 1 && TablesOk(outs)
    requires Pick(levels, pointers, options, force).Some?
    requires OutputsOf(Pick(levels, pointers, options, force).value, outs)
    requires bound >= DepthBound(levels, options)
    ensures var next := Install(levels, Pick(levels, pointers, options, force).value, outs);
            |next| <= DepthBound(levels, options) && Weight(next, bound) < Weight(levels, bound)
  {
    PickIsSound(levels, pointers, options, force);
    PickShape(levels, pointers, options, force);
    InstallLightens(levels, Pick(levels, pointers, options, force).value, outs, bound);
  }

  lemma InstallLightens(levels: LevelSet, work: Work, outs: seq<Table>, bound: nat)
    requires WorkOk(levels, work) && UniqueIds(levels) && OutputsOf(work, outs) && TablesOk(outs)
    requires work.inputs == levels[work.level] || |work.inputs| == 1
    requires work.level + 2 <= bound
    ensures Weight(Install(levels, work, outs), bound) < Weight(levels, bound)
  {
    EntriesSink(levels, work, outs);
    LighterWhenSunk(levels, work, outs, bound);
  }

  // -- Whole runs ------------------------------------------------------------------------------

  /** One turn of the compaction loop: what it picked by, and the tables it wrote. */
  datatype Turn = Turn(pointers: seq<Key>, force: bool, outs: seq<Table>)

  /** What a turn does to level sets in good order; LoopKeeps shows that it never meets any other. */
  ghost predicate TurnOk(levels: LevelSet, options: Options, turn: Turn, next: LevelSet)
    requires options.l0Trigger >= 1
  {
    LevelsOk(levels) && UniqueIds(levels) ==>
      && Pick(levels, turn.pointers, options, turn.force).Some?
      && var work := Pick(levels, turn.pointers, options, turn.force).value;
         && TablesOk(turn.outs) && OutputsOf(work, turn.outs) && FreshIds(levels, turn.outs)
         && next == Install(levels, work, turn.outs)
  }

  ghost predicate Loop(states: seq<LevelSet>, options: Options, turns: seq<Turn>) {
    && |states| == |turns| + 1 && options.l0Trigger >= 1
    && LevelsOk(states[0]) && UniqueIds(states[0])
    && forall i :: 0 <= i < |turns| ==> TurnOk(states[i], options, turns[i], states[i + 1])
  }

  lemma TurnKeeps(levels: LevelSet, options: Options, turn: Turn, next: LevelSet, k: Key)
    requires LevelsOk(levels) && UniqueIds(levels) && options.l0Trigger >= 1 && TurnOk(levels, options, turn, next)
    ensures LevelsOk(next) && UniqueIds(next)
    ensures Visible(LookLevels(next, k)) == Visible(LookLevels(levels, k))
  {
    hide Pick, Install, LookLevels;
    var work := Pick(levels, turn.pointers, options, turn.force).value;
    PickIsSound(levels, turn.pointers, options, turn.force);
    InstallKeepsLevels(levels, work, turn.outs);
    InstallKeepsIds(levels, work, turn.outs);
    InstallPreservesView(levels, work, turn.outs, k);
  }

  lemma TurnLightens(levels: LevelSet, options: Options, turn: Turn, next: LevelSet, bound: nat)
    requires LevelsOk(levels) && UniqueIds(levels) && options.l0Trigger >= 1 && TurnOk(levels, options, turn, next)
    requires bound >= DepthBound(levels, options)
    ensures |next| <= DepthBound(levels, options) && Weight(next, bound) < Weight(levels, bound)
  {
    hide Pick, Install, Weight;
    StepLightens(levels, turn.pointers, options, turn.force, turn.outs, bound);
  }

  /** Every level set the loop comes to is in good order and says what the first one said. */
  lemma {:induction false} LoopKeeps(states: seq<LevelSet>, options: Options, turns: seq<Turn>, n: nat, k: Key)
    requires Loop(states, options, turns) && n < |states|
    ensures LevelsOk(states[n]) && UniqueIds(states[n])
    ensures Visible(LookLevels(states[n], k)) == Visible(LookLevels(states[0], k))
  {
    hide TurnOk, LevelsOk, UniqueIds, LookLevels;
    if n > 0 {
      LoopKeeps(states, options, turns, n - 1, k);
      TurnKeeps(states[n - 1], options, turns[n - 1], states[n], k);
    }
  }

  /** However picks, splits and round-robin pointers fall, the loop makes at most as many turns as
      the level set weighs, so it always comes to a state with nothing left to pick. */
  lemma {:induction false} LoopIsBounded(states: seq<LevelSet>, options: Options, turns: seq<Turn>, bound: nat, n: nat)
    requires Loop(states, options, turns) && n < |states| && bound >= DepthBound(states[0], options)
    ensures n + Weight(states[n], bound) <= Weight(states[0], bound)
    ensures DepthBound(states[n], options) <= bound
  {
    hide TurnOk, LevelsOk, UniqueIds, Weight;
    if n > 0 {
      LoopIsBounded(states, options, turns, bound, n - 1);
      LoopKeeps(states, options, turns, n - 1, []);
      TurnLightens(states[n - 1], options, turns[n - 1], states[n], bound);
    }
  }

  /** Forced picking returns nothing exactly when all tables are in a single level. */
  lemma ForcedStopsAtOneLevel(levels: LevelSet, pointers: seq<Key>, options: Options)
    requires LevelsOk(levels) && options.l0Trigger >= 1
    ensures Pick(levels, pointers, options, true).None? <==>
      forall l, m :: 0 <= l < |levels| && 0 <= m < |levels| && levels[l] != [] && levels[m] != [] ==> l == m
  {
    if Pick(levels, pointers, options, true).None? {
      forall l, m | 0 <= l < m < |levels| && levels[l] != [] && levels[m] != [] ensures false {
        assert ForcedCandidate(levels, l);
      }
    }
  }

  /**
   * A compaction that goes on until there is nothing left to force leaves its tables in one level at
   * most, and no key's answer has changed.
   */
  lemma ForcedLoopFlattens(states: seq<LevelSet>, options: Options, turns: seq<Turn>, pointers: seq<Key>, k: Key)
    requires Loop(states, options, turns)
    requires LevelsOk(states[|turns|]) ==> Pick(states[|turns|], pointers, options, true).None?
    ensures var last := states[|turns|];
            forall l, m :: 0 <= l < |last| && 0 <= m < |last| && last[l] != [] && last[m] != [] ==> l == m
    ensures Visible(LookLevels(states[|turns|], k)) == Visible(LookLevels(states[0], k))
  {
    hide TurnOk, UniqueIds, LookLevels, Pick;
    LoopKeeps(states, options, turns, |turns|, k);
    ForcedStopsAtOneLevel(states[|turns|], pointers, options);
  }
}
