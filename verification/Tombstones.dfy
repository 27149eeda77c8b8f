/** When compaction gets rid of tombstones, and when it leaves one behind for good. */
module Tombstones {
  import opened Keys
  import opened Entries
  import opened Levels
  import opened Compaction
  import opened CompactionChoice
  import opened Convergence

  ghost predicate Buries(t: Table) {
    exists e :: e in t.run && e.cell == Tombstone
  }

  ghost predicate AnyBuries(levels: LevelSet) {
    exists l, t :: Member(levels, l, t) && Buries(t)
  }

  predicate OneLevel(levels: LevelSet) {
    forall l, m :: 0 <= l < |levels| && 0 <= m < |levels| && levels[l] != [] && levels[m] != [] ==> l == m
  }

  /** A table's range ends before another begins, or begins after it ends. */
  predicate Clear(t: Table, begin: Key, end: Key)
    requires t.run != []
  {
    Less(MaxKey(t), begin) || Less(end, MinKey(t))
  }

  // -- One turn --------------------------------------------------------------------------------------

  lemma OutputEntry(outs: seq<Table>, t: Table, e: Entry)
    requires t in outs && e in t.run
    ensures e in Concat(outs)
    decreases |outs|
  {
    if t != outs[0] || e !in outs[0].run {
      assert t in outs[1..];
      OutputEntry(outs[1..], t, e);
    }
  }

  /** Outputs of work that drops tombstones hold none. */
  lemma DroppedFromOutputs(work: Work, outs: seq<Table>, t: Table)
    requires OutputsOf(work, outs) && work.drop && t in outs
    ensures !Buries(t)
  {
    forall e | e in t.run ensures e.cell != Tombstone {
      OutputEntry(outs, t, e);
      WithoutTombstonesMembers(Merge(Runs(work.inputs + work.overlaps)), e);
    }
  }

  lemma Unread(levels: LevelSet, work: Work, outs: seq<Table>, l: nat, t: Table)
    requires WorkOk(levels, work) && UniqueIds(levels) && TablesOk(outs)
    ensures Member(levels, l, t) && !Reads(work, t) ==> Member(Install(levels, work, outs), l, t)
    ensures Member(Install(levels, work, outs), l, t) ==>
      (l == work.level + 1 && t in outs) || (Member(levels, l, t) && !Reads(work, t))
  {
    hide Install, UniqueIds;
    InstallMember(levels, work, outs, l, t);
    if Member(levels, l, t) && Reads(work, t) {
      OneHome(levels, work, l, t);
    }
  }

  lemma OneHome(levels: LevelSet, work: Work, l: nat, t: Table)
    requires WorkOk(levels, work) && UniqueIds(levels) && Member(levels, l, t) && Reads(work, t)
    ensures (l == work.level && t in work.inputs) || (l == work.level + 1 && t in work.overlaps)
  {
    hide CollectsOverlaps;
    ReadTables(levels, work, t);
  }

  /**
   * The turn that brings a compaction to rest, whatever kind of pick it was: a tombstone is left exactly when some
   * table the turn does not read holds one. What the turn writes never does.
   */
  lemma RestAfterTurn(levels: LevelSet, options: Options, turn: Turn, next: LevelSet)
    requires LevelsOk(levels) && UniqueIds(levels) && options.l0Trigger >= 1 && TurnOk(levels, options, turn, next)
    requires OneLevel(next)
    ensures var work := Pick(levels, turn.pointers, options, turn.force).value;
            AnyBuries(next) <==> exists l, t :: Member(levels, l, t) && !Reads(work, t) && Buries(t)
    ensures forall t :: t in turn.outs ==> !Buries(t)
  {
    hide Pick, Install, Buries, OutputsOf;
    PickIsSound(levels, turn.pointers, options, turn.force);
    var work := Pick(levels, turn.pointers, options, turn.force).value;
    if turn.outs != [] {
      DropsAtRest(levels, work, turn.outs);
    }
    forall t | t in turn.outs ensures !Buries(t) {
      DroppedFromOutputs(work, turn.outs, t);
    }
    forall l: nat, t ensures Member(levels, l, t) && !Reads(work, t) ==> Member(next, l, t) {
      Unread(levels, work, turn.outs, l, t);
    }
    forall l: nat, t | Member(next, l, t) && Buries(t) ensures Member(levels, l, t) && !Reads(work, t) {
      Unread(levels, work, turn.outs, l, t);
    }
  }

  /** Something written and nothing left beside it: then nothing deeper stood in the way of dropping. */
  lemma DropsAtRest(levels: LevelSet, work: Work, outs: seq<Table>)
    requires WorkOk(levels, work) && UniqueIds(levels) && TablesOk(outs) && outs != []
    requires OneLevel(Install(levels, work, outs))
    ensures work.drop
  {
    hide Install, UniqueIds;
    var next := Install(levels, work, outs);
    InstallMember(levels, work, outs, work.level + 1, outs[0]);
    if !work.drop {
      var l, i :| work.level + 1 < l < |levels| && 0 <= i < |levels[l]| && Touches(levels[l][i], work.begin, work.end);
      InstallMember(levels, work, outs, l, levels[l][i]);
      assert false;
    }
  }

  // -- A forced compaction, from what it starts with ----------------------------------------------------------

  /** The tables that share no key range with lo to hi. */
  function Untouched(ts: seq<Table>, lo: Key, hi: Key): (r: seq<Table>)
    requires TablesOk(ts)
    ensures TablesOk(r)
  {
    if ts == [] then []
    else if Touches(ts[0], lo, hi) then Untouched(ts[1..], lo, hi)
    else [ts[0]] + Untouched(ts[1..], lo, hi)
  }

  /** What level l + 1 holds once the entries a, all that is left of the levels above it, have been pushed into it. */
  function Sunk(levels: LevelSet, l: nat, a: Run): Run
    requires LevelsOk(levels) && a != []
  {
    var level, lo, hi := At(levels, l + 1), a[0].key, a[|a| - 1].key;
    var over := Overlapping(level, lo, hi);
    var merged := Merge([a] + Runs(over));
    var kept :=
      if CanDropTombstones(levels, l + 1, LowerAll(lo, over), HigherAll(hi, over)) then WithoutTombstones(merged)
          else merged;
    Merge([kept] + Runs(Untouched(level, lo, hi)))
  }

  /** What level l holds once everything above it has been pushed down into it, level by level. */
  function Arrived(levels: LevelSet, l: nat): Run
    requires LevelsOk(levels)
  {
    if l == 0 || Arrived(levels, l - 1) == [] then Merge(Runs(At(levels, l)))
    else Sunk(levels, l - 1, Arrived(levels, l - 1))
  }

  lemma {:induction false} UntouchedMembers(ts: seq<Table>, lo: Key, hi: Key)
    requires TablesOk(ts)
    ensures forall t :: t in Untouched(ts, lo, hi) <==> t in ts && TableOk(t) && !Touches(t, lo, hi)
  {
    hide Touches;
    if ts != [] {
      UntouchedMembers(ts[1..], lo, hi);
      assert ts == [ts[0]] + ts[1..];
    }
  }

  lemma {:induction false} UntouchedDisjoint(ts: seq<Table>, lo: Key, hi: Key)
    requires TablesOk(ts) && Disjoint(ts)
    ensures Disjoint(Untouched(ts, lo, hi))
  {
    hide Touches, Less;
    if ts != [] {
      var rest := Untouched(ts[1..], lo, hi);
      UntouchedMembers(ts[1..], lo, hi);
      UntouchedDisjoint(ts[1..], lo, hi);
      forall j | 0 <= j < |rest| ensures Less(MaxKey(ts[0]), MinKey(rest[j])) {
        assert rest[j] in ts[1..];
        var i :| 0 <= i < |ts[1..]| && ts[1..][i] == rest[j];
        assert ts[i + 1] == rest[j];
      }
    }
  }

  /** Levels above l are empty, those below it untouched, and l itself says what has arrived there. */
  ghost predicate Frontier(start: LevelSet, levels: LevelSet, l: nat)
    requires LevelsOk(start)
  {
    && (forall m :: 0 <= m < l ==> At(levels, m) == [])
    && (forall m :: l < m ==> At(levels, m) == At(start, m))
    && forall k :: Look(Runs(At(levels, l)), k) == Find(Arrived(start, l), k)
  }

  lemma MergeSays(ts: seq<Table>, k: Key)
    requires TablesOk(ts)
    ensures Sorted(Merge(Runs(ts))) && Find(Merge(Runs(ts)), k) == Look(Runs(ts), k)
  {
    MergeCorrect(Runs(ts));
  }

  lemma AtOk(levels: LevelSet, l: nat)
    requires LevelsOk(levels)
    ensures TablesOk(At(levels, l)) && (l > 0 ==> Disjoint(At(levels, l)))
  {
  }

  lemma Start(levels: LevelSet)
    requires LevelsOk(levels)
    ensures Frontier(levels, levels, 0)
  {
    hide Merge, Look, Find;
    AtOk(levels, 0);
    forall k ensures Look(Runs(At(levels, 0)), k) == Find(Arrived(levels, 0), k) {
      MergeSays(At(levels, 0), k);
    }
  }

  lemma SaysNothing(run: Run)
    requires Sorted(run) && forall k :: Find(run, k) == None
    ensures run == []
  {
    if run != [] {
      FindIs(run, run[0]);
    }
  }

  lemma {:induction false} ArrivedSorted(levels: LevelSet, l: nat)
    requires LevelsOk(levels)
    ensures Sorted(Arrived(levels, l))
  {
    hide Merge, Sorted, Sunk, At;
    AtOk(levels, l);
    if l > 0 {
      ArrivedSorted(levels, l - 1);
    }
    if l == 0 || Arrived(levels, l - 1) == [] {
      MergeSays(At(levels, l), []);
    } else {
      SunkSorted(levels, l - 1, Arrived(levels, l - 1));
    }
  }

  lemma SunkSorted(levels: LevelSet, l: nat, a: Run)
    requires LevelsOk(levels) && Sorted(a) && a != []
    ensures Sorted(Sunk(levels, l, a))
  {
    hide Merge, Less, WithoutTombstones, CanDropTombstones, Overlapping, Untouched, LowerAll, HigherAll;
    var level, lo, hi := At(levels, l + 1), a[0].key, a[|a| - 1].key;
    AtOk(levels, l + 1);
    var over := Overlapping(level, lo, hi);
    MergeCorrect([a] + Runs(over));
    WithoutTombstonesSorted(Merge([a] + Runs(over)));
    var merged := Merge([a] + Runs(over));
    MergeCorrect([merged] + Runs(Untouched(level, lo, hi)));
    MergeCorrect([WithoutTombstones(merged)] + Runs(Untouched(level, lo, hi)));
  }

  lemma Skip(start: LevelSet, levels: LevelSet, l: nat)
    requires LevelsOk(start) && Frontier(start, levels, l) && At(levels, l) == []
    ensures Arrived(start, l) == [] && Frontier(start, levels, l + 1)
  {
    hide Merge, Find, Sorted, Sunk;
    assert Runs([]) == [];
    ArrivedSorted(start, l);
    SaysNothing(Arrived(start, l));
    var m := l + 1;
    AtOk(start, m);
    forall k ensures Look(Runs(At(levels, m)), k) == Find(Arrived(start, m), k) {
      MergeSays(At(start, m), k);
    }
  }

  lemma {:induction false} SomeRunSays(runs: seq<Run>, i: nat, k: Key)
    requires i < |runs| && HasKey(runs[i], k)
    ensures Look(runs, k).Some?
  {
    hide HasKey;
    if i > 0 {
      SomeRunSays(runs[1..], i - 1, k);
    }
  }

  lemma SaysSomething(ts: seq<Table>, t: Table, e: Entry)
    requires t in ts && e in t.run
    ensures Look(Runs(ts), e.key).Some?
  {
    var i :| 0 <= i < |ts| && ts[i] == t;
    SomeRunSays(Runs(ts), i, e.key);
  }

  /** Tables and a run that say the same reach from the same first key to the same last. */
  lemma SameHull(inputs: seq<Table>, a: Run)
    requires TablesOk(inputs) && inputs != [] && Sorted(a)
    requires forall k :: Look(Runs(inputs), k) == Find(a, k)
    ensures a != [] && InputBegin(inputs) == a[0].key && InputEnd(inputs) == a[|a| - 1].key
  {
    hide Less, Look, InputBegin, InputEnd;
    InputRange(inputs);
    var i :| 0 <= i < |inputs| && MinKey(inputs[i]) == InputBegin(inputs);
    var j :| 0 <= j < |inputs| && MaxKey(inputs[j]) == InputEnd(inputs);
    SaysSomething(inputs, inputs[i], inputs[i].run[0]);
    SaysSomething(inputs, inputs[j], inputs[j].run[|inputs[j].run| - 1]);
    assert HasKey(a, InputBegin(inputs)) && HasKey(a, InputEnd(inputs));
    FindIs(a, a[0]);
    FindIs(a, a[|a| - 1]);
    var t := LookTable(inputs, a[0].key);
    var u := LookTable(inputs, a[|a| - 1].key);
    InRange(t, Entry(a[0].key, Look(Runs(inputs), a[0].key).value));
    InRange(u, Entry(a[|a| - 1].key, Look(Runs(inputs), a[|a| - 1].key).value));
    StrictTotalOrder();
  }

  lemma SunkSays(levels: LevelSet, l: nat, a: Run, k: Key)
    requires LevelsOk(levels) && Sorted(a) && a != []
    ensures var lo, hi := a[0].key, a[|a| - 1].key;
            var over := Overlapping(At(levels, l + 1), lo, hi);
            var drop := CanDropTombstones(levels, l + 1, LowerAll(lo, over), HigherAll(hi, over));
            var read := Or(Find(a, k), Look(Runs(over), k));
            Find(Sunk(levels, l, a), k)
              == Or(if drop && read == Some(Tombstone) then None else read,
                    Look(Runs(Untouched(At(levels, l + 1), lo, hi)), k))
  {
    hide Merge, Less, WithoutTombstones, CanDropTombstones, Overlapping, Untouched, LowerAll, HigherAll, Find, Sorted;
    var level, lo, hi := At(levels, l + 1), a[0].key, a[|a| - 1].key;
    AtOk(levels, l + 1);
    var over := Overlapping(level, lo, hi);
    var merged, rest := Merge([a] + Runs(over)), Runs(Untouched(level, lo, hi));
    PushRun(a, Runs(over), k);
    WithoutTombstonesSorted(merged);
    WithoutTombstonesFind(merged, k);
    PushRun(merged, rest, k);
    PushRun(WithoutTombstones(merged), rest, k);
  }

  lemma PushRun(a: Run, runs: seq<Run>, k: Key)
    requires Sorted(a) && AllSorted(runs)
    ensures Sorted(Merge([a] + runs)) && Find(Merge([a] + runs), k) == Or(Find(a, k), Look(runs, k))
  {
    hide Merge, Sorted, Find;
    MergeCorrect([a] + runs);
    assert ([a] + runs)[1..] == runs;
  }

  lemma ForcedAtFrontier(start: LevelSet, levels: LevelSet, l: nat, pointers: seq<Key>, options: Options)
    requires LevelsOk(start) && LevelsOk(levels) && options.l0Trigger >= 1
    requires Frontier(start, levels, l) && At(levels, l) != [] && Pick(levels, pointers, options, true).Some?
    ensures var w := Pick(levels, pointers, options, true).value; w.level == l && w.inputs == At(levels, l)
  {
    hide Pick, Look, Find, Arrived;
    ForcedChoice(levels, pointers, options);
    var w := Pick(levels, pointers, options, true).value;
    assert At(levels, w.level) == levels[w.level];
    assert l >= w.level;
  }

  lemma SameDrop(a: LevelSet, b: LevelSet, l: nat, begin: Key, end: Key)
    requires LevelsOk(a) && LevelsOk(b) && forall m :: l < m ==> At(a, m) == At(b, m)
    ensures CanDropTombstones(a, l, begin, end) <==> CanDropTombstones(b, l, begin, end)
  {
    hide Touches;
    if CanDropTombstones(a, l, begin, end) {
      forall m, i | l < m < |b| && 0 <= i < |b[m]| ensures !Touches(b[m][i], begin, end) {
        assert At(a, m) == At(b, m) && a[m][i] == b[m][i];
      }
    }
    if CanDropTombstones(b, l, begin, end) {
      forall m, i | l < m < |a| && 0 <= i < |a[m]| ensures !Touches(a[m][i], begin, end) {
        assert At(a, m) == At(b, m) && a[m][i] == b[m][i];
      }
    }
  }

  /** The tables a pick leaves alone are silent about every key it reads, and speak for the level on the others. */
  lemma LeftAlone(level: seq<Table>, work: Work, k: Key)
    requires TablesOk(level) && Disjoint(level) && TablesOk(work.inputs) && work.inputs != []
    requires CollectsOverlaps(level, work)
    ensures var rest := Untouched(level, InputBegin(work.inputs), InputEnd(work.inputs));
            Look(Runs(rest), k) == if Or(Look(Runs(work.inputs), k), Look(Runs(work.overlaps), k)).Some? then None
                                   else Look(Runs(level), k)
  {
    hide Less, InputBegin, InputEnd, Look, Touches;
    var lo, hi := InputBegin(work.inputs), InputEnd(work.inputs);
    var rest := Untouched(level, lo, hi);
    OverlappingMembers(level, lo, hi);
    OverlappingDisjoint(level, lo, hi);
    UntouchedMembers(level, lo, hi);
    UntouchedDisjoint(level, lo, hi);
    hide Overlapping, Untouched, Disjoint;
    forall t ensures t in rest <==> t in level && t !in work.overlaps {
      assert t in level ==> TableOk(t);
    }
    if Or(Look(Runs(work.inputs), k), Look(Runs(work.overlaps), k)).Some? {
      KeptSilent(level, work, rest, k);
    } else {
      InputsSilent(level, work.overlaps, rest, k);
    }
  }

  /** What the target of a forced turn says is what the entries above, sunk into it, say. */
  lemma TargetIsSunk(start: LevelSet, levels: LevelSet, work: Work, outs: seq<Table>, a: Run, k: Key)
    requires LevelsOk(start) && WorkOk(levels, work) && UniqueIds(levels) && OutputsOf(work, outs) && TablesOk(outs)
    requires (forall m :: work.level < m ==> At(levels, m) == At(start, m))
    requires Sorted(a) && a != [] && InputBegin(work.inputs) == a[0].key && InputEnd(work.inputs) == a[|a| - 1].key
    requires Look(Runs(work.inputs), k) == Find(a, k)
    ensures Look(Runs(TargetLevel(levels, work, outs)), k) == Find(Sunk(start, work.level, a), k)
  {
    hide UniqueIds, OutputsOf, Look, Find, TargetLevel, Overlapping, InputBegin, InputEnd, LowerAll, HigherAll, Less,
         Sorted, Sunk, CanDropTombstones, Untouched, Disjoint, TablesOk;
    var m := work.level + 1;
    AtOk(levels, m);
    assert At(levels, m) == At(start, m);
    TargetSays(levels, work, outs, k);
    SunkSays(start, work.level, a, k);
    SameDrop(levels, start, m, work.begin, work.end);
    LeftAlone(At(levels, m), work, k);
  }

  lemma InputsGone(ts: seq<Table>, retired: set<nat>)
    requires Ids(ts) <= retired
    ensures Keep(ts, retired) == []
  {
    KeepMembers(ts, retired);
    assert forall t :: t in ts ==> t.id in Ids(ts);
    assert Keep(ts, retired) != [] ==> Keep(ts, retired)[0] in Keep(ts, retired);
  }

  /** A forced turn empties the first level and adds what it held to the next. */
  lemma TurnAdvances(start: LevelSet, levels: LevelSet, l: nat, options: Options, turn: Turn, next: LevelSet)
    requires LevelsOk(start) && LevelsOk(levels) && UniqueIds(levels) && options.l0Trigger >= 1
    requires TurnOk(levels, options, turn, next) && turn.force && Frontier(start, levels, l) && At(levels, l) != []
    ensures var w, a := Pick(levels, turn.pointers, options, true).value, Arrived(start, l);
            && w.level == l && w.inputs == At(levels, l) && TablesOk(w.inputs)
            && a != [] && InputBegin(w.inputs) == a[0].key && InputEnd(w.inputs) == a[|a| - 1].key
    ensures Frontier(start, next, l + 1)
  {
    hide Pick, Look, Find, Sorted, Sunk, Install, UniqueIds, OutputsOf, TargetLevel, InputBegin, InputEnd, Merge;
    ForcedAtFrontier(start, levels, l, turn.pointers, options);
    PickIsSound(levels, turn.pointers, options, true);
    var w, a, f := Pick(levels, turn.pointers, options, true).value, Arrived(start, l), l + 1;
    AtOk(levels, l);
    ArrivedSorted(start, l);
    SameHull(w.inputs, a);
    forall m: nat ensures At(next, m) == Slot(levels, w, turn.outs, m) {
      InstallAt(levels, w, turn.outs, m);
    }
    InputsGone(w.inputs, Retired(w));
    assert Arrived(start, f) == Sunk(start, l, a);
    forall k ensures Look(Runs(At(next, f)), k) == Find(Arrived(start, f), k) {
      TargetIsSunk(start, levels, w, turn.outs, a, k);
    }
  }

  lemma {:induction false} Settle(start: LevelSet, levels: LevelSet, l: nat, m: nat) returns (f: nat)
    requires LevelsOk(start) && Frontier(start, levels, l) && l <= m && At(levels, m) != []
    ensures l <= f <= m && Frontier(start, levels, f) && At(levels, f) != []
    decreases m - l
  {
    hide Frontier, Arrived, At, LevelsOk;
    if At(levels, l) != [] {
      f := l;
    } else {
      Skip(start, levels, l);
      f := Settle(start, levels, l + 1, m);
    }
  }

  /** Before a forced turn the frontier can be put where the turn starts. */
  lemma BeforeTurn(start: LevelSet, levels: LevelSet, l: nat, options: Options, turn: Turn, next: LevelSet)
      returns (f: nat)
    requires LevelsOk(start) && LevelsOk(levels) && UniqueIds(levels) && options.l0Trigger >= 1
    requires TurnOk(levels, options, turn, next) && turn.force && Frontier(start, levels, l)
    ensures Frontier(start, levels, f) && At(levels, f) != []
    ensures exists m :: f < m && At(levels, m) != []
  {
    hide Pick, Look, Find, Arrived, Install;
    ForcedChoice(levels, turn.pointers, options);
    var w := Pick(levels, turn.pointers, options, true).value;
    assert At(levels, w.level) == levels[w.level];
    f := Settle(start, levels, l, w.level);
    var m :| w.level < m < |levels| && levels[m] != [];
    assert f < m && At(levels, m) != [];
  }

  lemma {:induction false} FrontierReached(states: seq<LevelSet>, options: Options, turns: seq<Turn>, n: nat)
      returns (l: nat)
    requires Loop(states, options, turns) && n < |states| && forall i :: 0 <= i < |turns| ==> turns[i].force
    ensures Frontier(states[0], states[n], l)
  {
    hide TurnOk, Frontier, LevelsOk, UniqueIds, LookLevels, Visible;
    if n == 0 {
      Start(states[0]);
      l := 0;
    } else {
      var before := FrontierReached(states, options, turns, n - 1);
      LoopKeeps(states, options, turns, n - 1, []);
      l := OneTurn(states[0], states[n - 1], before, options, turns[n - 1], states[n]);
    }
  }

  lemma OneTurn(start: LevelSet, levels: LevelSet, l: nat, options: Options, turn: Turn, next: LevelSet)
      returns (f: nat)
    requires LevelsOk(start) && LevelsOk(levels) && UniqueIds(levels) && options.l0Trigger >= 1
    requires TurnOk(levels, options, turn, next) && turn.force && Frontier(start, levels, l)
    ensures Frontier(start, next, f)
  {
    hide TurnOk, Frontier, LevelsOk, UniqueIds, Arrived;
    var g := BeforeTurn(start, levels, l, options, turn, next);
    TurnAdvances(start, levels, g, options, turn, next);
    f := g + 1;
  }

  /** Every table of the deepest level that holds a tombstone shares a key range with what arrives above it. */
  ghost predicate AllReached(start: LevelSet, d: nat)
    requires LevelsOk(start)
  {
    forall t :: t in At(start, d) && TableOk(t) && Buries(t) ==>
      && d > 0 && Arrived(start, d - 1) != []
      && var a := Arrived(start, d - 1); !(Less(MaxKey(t), a[0].key) || Less(a[|a| - 1].key, MinKey(t)))
  }

  lemma {:induction false} NothingArrives(start: LevelSet, l: nat, m: nat)
    requires LevelsOk(start) && l <= m && Arrived(start, l) == [] && forall j :: l < j <= m ==> At(start, j) == []
    ensures Arrived(start, m) == []
    decreases m - l
  {
    hide Sunk;
    if l < m {
      NothingArrives(start, l, m - 1);
      assert Runs([]) == [];
    }
  }

  /** At rest short of the deepest level: nothing is left above it, and it was never touched. */
  lemma RestsBelow(start: LevelSet, last: LevelSet, f: nat, d: nat)
    requires LevelsOk(start) && Frontier(start, last, f) && f < d && OneLevel(last)
    requires At(start, d) != [] && forall m :: d < m ==> At(start, m) == []
    ensures AnyBuries(last) <==> !AllReached(start, d)
  {
    hide Look, Find, Arrived, Buries, Less;
    forall m: nat | m != d ensures At(last, m) == [] {
      assert At(last, d) == At(start, d);
    }
    Skip(start, last, f);
    NothingArrives(start, f, d - 1);
    AtOk(start, d);
    forall l: nat, t ensures Member(last, l, t) <==> l == d && t in At(start, d) {
      assert Member(last, l, t) <==> t in At(last, l);
    }
    DeepestBuries(start, last, d);
  }

  /** Only the deepest level left, as it was, and nothing arriving. */
  lemma DeepestBuries(start: LevelSet, last: LevelSet, d: nat)
    requires LevelsOk(start) && (d == 0 || Arrived(start, d - 1) == [])
    requires forall l: nat, t :: Member(last, l, t) <==> l == d && t in At(start, d)
    ensures AnyBuries(last) <==> !AllReached(start, d)
  {
    hide Buries, Arrived, Less, At;
    AtOk(start, d);
    if AnyBuries(last) {
      var l, t :| Member(last, l, t) && Buries(t);
      assert t in At(start, d) && TableOk(t);
    }
    if !AllReached(start, d) {
      var t :| t in At(start, d) && TableOk(t) && Buries(t);
      assert Member(last, d, t);
    }
  }

  /** At rest in the deepest level: what the last turn did not read there was not reached. */
  lemma RestsInto(start: LevelSet, levels: LevelSet, d: nat, options: Options, turn: Turn, last: LevelSet)
    requires LevelsOk(start) && LevelsOk(levels) && UniqueIds(levels) && options.l0Trigger >= 1 && d > 0
    requires TurnOk(levels, options, turn, last) && turn.force && OneLevel(last)
    requires Frontier(start, levels, d - 1) && At(levels, d - 1) != []
    requires forall m :: d < m ==> At(start, m) == []
    ensures AnyBuries(last) <==> !AllReached(start, d)
  {
    hide Pick, Look, Find, Arrived, Buries, Less, Install, InputBegin, InputEnd, UniqueIds, OutputsOf, Overlapping;
    RestAfterTurn(levels, options, turn, last);
    TurnAdvances(start, levels, d - 1, options, turn, last);
    PickIsSound(levels, turn.pointers, options, true);
    var w := Pick(levels, turn.pointers, options, true).value;
    forall l: nat, t ensures Member(levels, l, t) && !Reads(w, t) <==>
        l == d && t in At(start, d) && Clear(t, InputBegin(w.inputs), InputEnd(w.inputs)) {
      NotReached(start, levels, d, w, l, t);
    }
    hide Frontier, TurnOk, WorkOk, Reads;
    UnreadBuries(start, levels, d, w);
  }

  lemma NotReached(start: LevelSet, levels: LevelSet, d: nat, w: Work, l: nat, t: Table)
    requires LevelsOk(start) && d > 0 && WorkOk(levels, w) && UniqueIds(levels)
    requires w.level == d - 1 && w.inputs == At(levels, d - 1) && Frontier(start, levels, d - 1)
    requires forall m :: d < m ==> At(start, m) == []
    ensures TablesOk(w.inputs) && w.inputs != []
    ensures t in At(start, d) ==> TableOk(t)
    ensures Member(levels, l, t) && !Reads(w, t) <==>
      l == d && t in At(start, d) && Clear(t, InputBegin(w.inputs), InputEnd(w.inputs))
  {
    hide Look, Find, Arrived, Less, InputBegin, InputEnd, UniqueIds, Overlapping, Disjoint, LowerAll, HigherAll,
         CanDropTombstones, At, LevelsOk, Member;
    AtOk(levels, d);
    MemberAt(levels, l, t);
    var lo, hi := InputBegin(w.inputs), InputEnd(w.inputs);
    OverlappingMembers(At(levels, d), lo, hi);
    assert At(levels, d) == At(start, d);
    if l < d - 1 {
      assert At(levels, l) == [];
    } else if l > d {
      assert At(levels, l) == At(start, l) == [];
    } else if l == d && t in At(levels, d) {
      if t in w.inputs {
        OneHome(levels, w, d, t);
      }
      assert t in w.overlaps <==> Touches(t, lo, hi);
    }
  }

  lemma MemberAt(levels: LevelSet, l: nat, t: Table)
    ensures Member(levels, l, t) <==> t in At(levels, l)
  {
  }

  lemma UnreadBuries(start: LevelSet, levels: LevelSet, d: nat, w: Work)
    requires LevelsOk(start) && d > 0 && TablesOk(w.inputs) && w.inputs != [] && Arrived(start, d - 1) != []
    requires var a := Arrived(start, d - 1);
             InputBegin(w.inputs) == a[0].key && InputEnd(w.inputs) == a[|a| - 1].key
    requires forall t :: t in At(start, d) ==> TableOk(t)
    requires forall l: nat, t :: Member(levels, l, t) && !Reads(w, t) <==>
      l == d && t in At(start, d) && Clear(t, InputBegin(w.inputs), InputEnd(w.inputs))
    ensures (exists l, t :: Member(levels, l, t) && !Reads(w, t) && Buries(t)) <==> !AllReached(start, d)
  {
    hide Buries, Arrived, Less, At, InputBegin, InputEnd, Reads, Member;
    if l, t :| Member(levels, l, t) && !Reads(w, t) && Buries(t) {
      assert t in At(start, d) && TableOk(t) && Clear(t, InputBegin(w.inputs), InputEnd(w.inputs));
    }
    if !AllReached(start, d) {
      var t :| t in At(start, d) && TableOk(t) && Buries(t) && Clear(t, InputBegin(w.inputs), InputEnd(w.inputs));
      assert Member(levels, d, t) && !Reads(w, t) && Buries(t);
    }
  }

  /**
   * A compaction by forced picks alone that has come to rest has left a tombstone exactly when some table of the
   * deepest level it started with holds one and shares no key range with what, worked out from that start, reaches
   * the level above it.
   */
  lemma ForcedRestExactly(states: seq<LevelSet>, options: Options, turns: seq<Turn>, d: nat)
    requires Loop(states, options, turns) && (forall i :: 0 <= i < |turns| ==> turns[i].force)
    requires At(states[0], d) != [] && forall m :: d < m ==> At(states[0], m) == []
    requires OneLevel(states[|turns|])
    ensures AnyBuries(states[|turns|]) <==> !AllReached(states[0], d)
  {
    hide TurnOk, Frontier, LevelsOk, UniqueIds, AllReached, AnyBuries;
    var start, n := states[0], |turns|;
    var f := FrontierReached(states, options, turns, n);
    if n == 0 {
      Start(start);
      if d > 0 {
        RestsBelow(start, start, 0, d);
      } else {
        OnlyLevelZero(start);
      }
    } else {
      var before := FrontierReached(states, options, turns, n - 1);
      LoopKeeps(states, options, turns, n - 1, []);
      var g := BeforeTurn(start, states[n - 1], before, options, turns[n - 1], states[n]);
      Above(start, states[n - 1], g, d);
      TurnAdvances(start, states[n - 1], g, options, turns[n - 1], states[n]);
      if g + 1 < d {
        RestsBelow(start, states[n], g + 1, d);
      } else {
        RestsInto(start, states[n - 1], d, options, turns[n - 1], states[n]);
      }
    }
  }

  lemma Above(start: LevelSet, levels: LevelSet, f: nat, d: nat)
    requires LevelsOk(start) && Frontier(start, levels, f) && exists m :: f < m && At(levels, m) != []
    requires forall m :: d < m ==> At(start, m) == []
    ensures f < d
  {
    hide Look, Find, Arrived;
    var m :| f < m && At(levels, m) != [];
    assert At(levels, m) == At(start, m);
  }

  lemma OnlyLevelZero(levels: LevelSet)
    requires LevelsOk(levels) && forall m :: 0 < m ==> At(levels, m) == []
    ensures AnyBuries(levels) <==> !AllReached(levels, 0)
  {
    hide Buries, Arrived;
    forall l: nat, t ensures Member(levels, l, t) <==> l == 0 && t in At(levels, 0) {
      assert Member(levels, l, t) <==> t in At(levels, l);
    }
    DeepestBuries(levels, levels, 0);
  }

  /** A value above, a tombstone beside it in the level below, and nothing deeper. */
  function Beside(a: Key, z: Key, v: Value): LevelSet {
    [[Table(1, [Entry(a, Live(v))], 0)], [Table(2, [Entry(z, Tombstone)], 0)]]
  }

  lemma BesideOk(a: Key, z: Key, v: Value)
    ensures LevelsOk(Beside(a, z, v)) && UniqueIds(Beside(a, z, v))
  {
    var levels := Beside(a, z, v);
    forall l: nat, t | Member(levels, l, t) ensures (l == 0 && t == levels[0][0]) || (l == 1 && t == levels[1][0]) {
    }
  }

  lemma BesidePick(a: Key, z: Key, v: Value, options: Options)
    requires Less(a, z) && options.l0Trigger >= 1
    ensures var levels := Beside(a, z, v);
            && LevelsOk(levels) && Pick(levels, [], options, true).Some?
            && var w := Pick(levels, [], options, true).value;
               w.level == 0 && w.inputs == levels[0] && w.overlaps == [] && w.drop
  {
    hide Pick, Less;
    var levels, t := Beside(a, z, v), Table(2, [Entry(z, Tombstone)], 0);
    BesideOk(a, z, v);
    assert levels[0] != [] && levels[1] != [];
    ForcedChoice(levels, [], options);
    PickIsSound(levels, [], options, true);
    var w := Pick(levels, [], options, true).value;
    assert w.level == 0 && At(levels, 1) == [t] && [t][1..] == [];
    OneInput(w.inputs, a);
    assert !Touches(t, a, a);
    assert Overlapping([t], a, a) == [];
    assert w.overlaps == [];
    assert CanDropTombstones(levels, w.level + 1, w.begin, w.end);
  }

  lemma OneInput(inputs: seq<Table>, k: Key)
    requires |inputs| == 1 && TablesOk(inputs) && MinKey(inputs[0]) == k == MaxKey(inputs[0])
    ensures InputBegin(inputs) == k == InputEnd(inputs)
  {
    hide Less;
    InputRange(inputs);
  }

  /**
   * A forced compaction can come to rest and leave a tombstone with nothing under it: one that lies beside the range
   * being pushed down is not read, and once all tables are in its level nothing picks it again.
   */
  lemma TombstoneLeft(a: Key, z: Key, v: Value, options: Options) returns (turn: Turn, next: LevelSet)
    requires Less(a, z) && options.l0Trigger >= 1
    ensures turn.force && Loop([Beside(a, z, v), next], options, [turn])
    ensures OneLevel(next) && AnyBuries(next)
  {
    hide Pick, Less, Merge, Find, Look;
    var levels := Beside(a, z, v);
    BesideOk(a, z, v);
    BesidePick(a, z, v, options);
    PickIsSound(levels, [], options, true);
    var w := Pick(levels, [], options, true).value;
    SurvivingFacts(w, a);
    SaysSomething(w.inputs, levels[0][0], Entry(a, Live(v)));
    OnlyValue(w.inputs, a, v);
    assert HasKey(Surviving(w), a);
    var out := Table(3, Surviving(w), 0);
    turn, next := Turn([], true, [out]), Install(levels, w, [out]);
    assert [out][1..] == [] && Concat([out]) == Surviving(w);
    assert TurnOk(levels, options, turn, next);
    hide Install, OutputsOf;
    assert Buries(levels[1][0]) by {
      assert Entry(z, Tombstone) in levels[1][0].run;
    }
    Unread(levels, w, [out], 1, levels[1][0]);
    InstallAt(levels, w, [out], 0);
    InputsGone(levels[0], Retired(w));
    forall m: nat | m > 1 ensures At(next, m) == [] {
      InstallAt(levels, w, [out], m);
    }
    forall m | 0 <= m < |next| && next[m] != [] ensures m == 1 {
      assert At(next, m) == next[m];
    }
  }

  lemma OnlyValue(ts: seq<Table>, k: Key, v: Value)
    requires |ts| == 1 && ts[0].run == [Entry(k, Live(v))]
    ensures Look(Runs(ts), k) == Some(Live(v))
  {
    assert Runs(ts)[1..] == [];
    FindIs(ts[0].run, Entry(k, Live(v)));
  }
}
