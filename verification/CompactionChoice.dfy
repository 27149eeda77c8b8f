/** What a pick is, said in keys, counts and bytes. */
module CompactionChoice {
  import opened Words
  import opened Keys
  import opened Entries
  import opened Levels
  import opened Compaction

  // -- The range ------------------------------------------------------------------------------------

  lemma {:induction false} LowerAllIsOne(begin: Key, ts: seq<Table>)
    requires TablesOk(ts)
    ensures LowerAll(begin, ts) == begin || exists t :: t in ts && TableOk(t) && MinKey(t) == LowerAll(begin, ts)
    decreases |ts|
  {
    hide Less;
    if ts != [] {
      LowerAllIsOne(Lower(begin, MinKey(ts[0])), ts[1..]);
      assert ts[0] in ts && forall t :: t in ts[1..] ==> t in ts;
    }
  }

  lemma {:induction false} HigherAllIsOne(end: Key, ts: seq<Table>)
    requires TablesOk(ts)
    ensures HigherAll(end, ts) == end || exists t :: t in ts && TableOk(t) && MaxKey(t) == HigherAll(end, ts)
    decreases |ts|
  {
    hide Less;
    if ts != [] {
      HigherAllIsOne(Higher(end, MaxKey(ts[0])), ts[1..]);
      assert ts[0] in ts && forall t :: t in ts[1..] ==> t in ts;
    }
  }

  /** The least of some tables' first keys. */
  ghost predicate IsLeast(k: Key, ts: seq<Table>)
    requires TablesOk(ts)
  {
    (exists i :: 0 <= i < |ts| && MinKey(ts[i]) == k) && forall i :: 0 <= i < |ts| ==> !Less(MinKey(ts[i]), k)
  }

  ghost predicate IsGreatest(k: Key, ts: seq<Table>)
    requires TablesOk(ts)
  {
    (exists i :: 0 <= i < |ts| && MaxKey(ts[i]) == k) && forall i :: 0 <= i < |ts| ==> !Less(k, MaxKey(ts[i]))
  }

  lemma InputRange(inputs: seq<Table>)
    requires TablesOk(inputs) && inputs != []
    ensures IsLeast(InputBegin(inputs), inputs) && IsGreatest(InputEnd(inputs), inputs)
  {
    hide Less;
    LowerAllBounds(MinKey(inputs[0]), inputs);
    HigherAllBounds(MaxKey(inputs[0]), inputs);
    LowerAllIsOne(MinKey(inputs[0]), inputs);
    HigherAllIsOne(MaxKey(inputs[0]), inputs);
  }

  lemma WideLeast(begin: Key, inputs: seq<Table>, overlaps: seq<Table>)
    requires TablesOk(inputs) && TablesOk(overlaps) && IsLeast(begin, inputs)
    ensures IsLeast(LowerAll(begin, overlaps), inputs + overlaps)
  {
    hide Less, LowerAll;
    var k, all := LowerAll(begin, overlaps), inputs + overlaps;
    LowerAllBounds(begin, overlaps);
    LowerAllIsOne(begin, overlaps);
    StrictTotalOrder();
    forall i | 0 <= i < |all| ensures !Less(MinKey(all[i]), k) {
      assert i < |inputs| ==> all[i] == inputs[i];
      assert i >= |inputs| ==> all[i] in overlaps;
    }
    if k == begin {
      var i :| 0 <= i < |inputs| && MinKey(inputs[i]) == k;
      assert MinKey(all[i]) == k;
    } else {
      var t :| t in overlaps && TableOk(t) && MinKey(t) == k;
      var i :| 0 <= i < |overlaps| && overlaps[i] == t;
      assert MinKey(all[|inputs| + i]) == k;
    }
  }

  lemma WideGreatest(end: Key, inputs: seq<Table>, overlaps: seq<Table>)
    requires TablesOk(inputs) && TablesOk(overlaps) && IsGreatest(end, inputs)
    ensures IsGreatest(HigherAll(end, overlaps), inputs + overlaps)
  {
    hide Less, HigherAll;
    var k, all := HigherAll(end, overlaps), inputs + overlaps;
    HigherAllBounds(end, overlaps);
    HigherAllIsOne(end, overlaps);
    StrictTotalOrder();
    forall i | 0 <= i < |all| ensures !Less(k, MaxKey(all[i])) {
      assert i < |inputs| ==> all[i] == inputs[i];
      assert i >= |inputs| ==> all[i] in overlaps;
    }
    if k == end {
      var i :| 0 <= i < |inputs| && MaxKey(inputs[i]) == k;
      assert MaxKey(all[i]) == k;
    } else {
      var t :| t in overlaps && TableOk(t) && MaxKey(t) == k;
      var i :| 0 <= i < |overlaps| && overlaps[i] == t;
      assert MaxKey(all[|inputs| + i]) == k;
    }
  }

  /** The tables of a level that share a key range with lo to hi. */
  ghost predicate Collects(level: seq<Table>, overlaps: seq<Table>, lo: Key, hi: Key) {
    forall t :: t in overlaps <==> t in level && TableOk(t) && !(Less(MaxKey(t), lo) || Less(hi, MinKey(t)))
  }

  /** Every table of a level deeper than l ends before a range or begins after it. */
  ghost predicate AllClear(levels: LevelSet, l: nat, begin: Key, end: Key)
    requires LevelsOk(levels)
  {
    forall m, i :: l < m < |levels| && 0 <= i < |levels[m]| ==>
      Less(MaxKey(levels[m][i]), begin) || Less(end, MinKey(levels[m][i]))
  }

  lemma CollectsAll(level: seq<Table>, lo: Key, hi: Key)
    requires TablesOk(level)
    ensures Collects(level, Overlapping(level, lo, hi), lo, hi)
  {
    hide Less;
    OverlappingMembers(level, lo, hi);
  }

  lemma ClearMeansDrop(levels: LevelSet, l: nat, begin: Key, end: Key)
    requires LevelsOk(levels)
    ensures CanDropTombstones(levels, l, begin, end) <==> AllClear(levels, l, begin, end)
  {
    hide Less;
  }

  lemma ExpandRange(levels: LevelSet, level: nat, inputs: seq<Table>)
    requires LevelsOk(levels) && TablesOk(inputs) && inputs != []
    ensures var w := Expand(levels, level, inputs);
            && w.level == level && w.inputs == inputs && TablesOk(inputs + w.overlaps)
            && IsLeast(w.begin, inputs + w.overlaps) && IsGreatest(w.end, inputs + w.overlaps)
            && IsLeast(InputBegin(inputs), inputs) && IsGreatest(InputEnd(inputs), inputs)
            && Collects(At(levels, level + 1), w.overlaps, InputBegin(inputs), InputEnd(inputs))
            && (w.drop <==> AllClear(levels, level + 1, w.begin, w.end))
  {
    hide Less, LowerAll, HigherAll, Overlapping, IsLeast, IsGreatest, Collects, AllClear, CanDropTombstones, InputBegin,
         InputEnd;
    var lo, hi := InputBegin(inputs), InputEnd(inputs);
    var overlaps := Overlapping(At(levels, level + 1), lo, hi);
    InputRange(inputs);
    CollectsAll(At(levels, level + 1), lo, hi);
    WideLeast(lo, inputs, overlaps);
    WideGreatest(hi, inputs, overlaps);
    ClearMeansDrop(levels, level + 1, LowerAll(lo, overlaps), HigherAll(hi, overlaps));
  }

  /**
   * A pick reads its inputs and every table of the next level that shares a key range with them, covers exactly the
   * keys from the first to the last of those, and may drop tombstones exactly when every table of every level below
   * that ends before that range or begins after it.
   */
  lemma PickRange(levels: LevelSet, pointers: seq<Key>, options: Options, force: bool)
    requires LevelsOk(levels) && options.l0Trigger >= 1 && Pick(levels, pointers, options, force).Some?
    ensures var w := Pick(levels, pointers, options, force).value;
            && TablesOk(w.inputs + w.overlaps) && TablesOk(w.inputs) && w.inputs != []
            && IsLeast(w.begin, w.inputs + w.overlaps) && IsGreatest(w.end, w.inputs + w.overlaps)
            && (exists lo, hi ::
                  && IsLeast(lo, w.inputs) && IsGreatest(hi, w.inputs)
                  && Collects(At(levels, w.level + 1), w.overlaps, lo, hi))
            && (w.drop <==> AllClear(levels, w.level + 1, w.begin, w.end))
  {
    hide Less, Expand, Pick, IsLeast, IsGreatest, InputBegin, InputEnd, Collects, AllClear;
    var level, inputs := PickExpands(levels, pointers, options, force);
    ExpandRange(levels, level, inputs);
  }

  lemma PickExpands(levels: LevelSet, pointers: seq<Key>, options: Options, force: bool)
      returns (level: nat, inputs: seq<Table>)
    requires LevelsOk(levels) && options.l0Trigger >= 1 && Pick(levels, pointers, options, force).Some?
    ensures TablesOk(inputs) && inputs != []
    ensures Pick(levels, pointers, options, force) == Some(Expand(levels, level, inputs))
  {
    hide Expand;
    level, inputs := Select(levels, pointers, options, force).value.0, Select(levels, pointers, options, force).value.1;
  }

  lemma ExpandKeeps(levels: LevelSet, level: nat, inputs: seq<Table>)
    requires LevelsOk(levels) && TablesOk(inputs) && inputs != []
    ensures Expand(levels, level, inputs).level == level && Expand(levels, level, inputs).inputs == inputs
  {
  }

  // -- The level and the tables -----------------------------------------------------------------------

  /** A forced pick takes the whole of the first level that holds tables, if a deeper one does too. */
  lemma ForcedChoice(levels: LevelSet, pointers: seq<Key>, options: Options)
    requires LevelsOk(levels) && options.l0Trigger >= 1
    ensures Pick(levels, pointers, options, true).Some? <==>
      exists l, m :: 0 <= l < m < |levels| && levels[l] != [] && levels[m] != []
    ensures Pick(levels, pointers, options, true).Some? ==>
      var w := Pick(levels, pointers, options, true).value;
      && w.level < |levels| && w.inputs == levels[w.level] && w.inputs != []
      && (forall l :: 0 <= l < w.level ==> levels[l] == [])
      && (exists m :: w.level < m < |levels| && levels[m] != [])
  {
    hide Expand;
    FirstForced(levels, 0);
    var chosen := ForcedFrom(levels, 0);
    if chosen.Some? {
      ExpandKeeps(levels, chosen.value, levels[chosen.value]);
      forall l | 0 <= l < chosen.value ensures levels[l] == [] {
        assert !ForcedCandidate(levels, l);
        assert levels[chosen.value] != [];
      }
    } else {
      forall l, m | 0 <= l < m < |levels| && levels[m] != [] ensures levels[l] == [] {
        assert !ForcedCandidate(levels, l);
      }
    }
  }

  lemma {:induction false} FirstForced(levels: LevelSet, l: nat)
    requires l <= |levels|
    ensures ForcedFrom(levels, l).Some? ==> forall i :: l <= i < ForcedFrom(levels, l).value ==>
        !ForcedCandidate(levels, i)
    decreases |levels| - l
  {
    hide ForcedCandidate;
    if l < |levels| {
      FirstForced(levels, l + 1);
    }
  }

  function TotalBytes(ts: seq<Table>): nat {
    if ts == [] then 0 else ts[0].size + TotalBytes(ts[1..])
  }

  function Power(base: nat, n: nat): nat {
    if n == 0 then 1 else base * Power(base, n - 1)
  }

  lemma {:induction false} TotalPush(ts: seq<Table>, t: Table)
    ensures TotalBytes(ts + [t]) == TotalBytes(ts) + t.size
  {
    if ts == [] {
      assert ts + [t] == [t];
    } else {
      assert (ts + [t])[1..] == ts[1..] + [t];
      TotalPush(ts[1..], t);
    }
  }

  lemma WrapMultiply(a: nat, b: nat)
    ensures (a % Word64 * b) % Word64 == (a * b) % Word64
  {
    var q, r := a / Word64, a % Word64;
    Distributes(q, Word64, r, b);
    Wraps(q * b, r * b);
  }

  lemma Distributes(q: nat, w: nat, r: nat, b: nat)
    ensures (q * w + r) * b == q * b * w + r * b
  {
    assert (q * w + r) * b == q * w * b + r * b;
    assert q * w * b == q * b * w;
  }

  lemma Wraps(x: nat, y: nat)
    ensures (x * Word64 + y) % Word64 == y % Word64
  {
  }

  /** The bytes of a level, as 64 bits hold them. */
  lemma {:induction false} BytesOfLevel(ts: seq<Table>)
    ensures LevelBytes(ts) == TotalBytes(ts) % Word64
  {
    if ts != [] {
      var front, last := ts[..|ts| - 1], ts[|ts| - 1];
      BytesOfLevel(front);
      TotalPush(front, last);
      assert front + [last] == ts;
    }
  }

  /** The budget of a level: the base, times the multiplier once for every level past the first. */
  lemma {:induction false} BudgetOfLevel(options: Options, l: nat)
    requires l >= 1
    ensures LevelBudget(options, l) == options.levelBaseBytes * Power(options.levelMultiplier, l - 1) % Word64
  {
    if l > 1 {
      BudgetOfLevel(options, l - 1);
      var before, m := options.levelBaseBytes * Power(options.levelMultiplier, l - 2), options.levelMultiplier;
      WrapMultiply(before, m);
      assert before * m == options.levelBaseBytes * Power(m, l - 1) by {
        assert Power(m, l - 1) == m * Power(m, l - 2);
        assert options.levelBaseBytes * Power(m, l - 2) * m == options.levelBaseBytes * (m * Power(m, l - 2));
      }
    }
  }

  /** A level that may be pushed down and holds more bytes than its budget. */
  predicate OverFull(levels: LevelSet, options: Options, l: nat) {
    && 1 <= l < |levels| && l + 1 < options.maxLevels && levels[l] != []
    && TotalBytes(levels[l]) % Word64
       > options.levelBaseBytes * Power(options.levelMultiplier, l - 1) % Word64
  }

  lemma OverFullIs(levels: LevelSet, options: Options, l: nat)
    requires 1 <= l < |levels| && l + 1 < options.maxLevels
    ensures OverBudget(levels, options, l) <==> OverFull(levels, options, l)
  {
    hide LevelBytes, LevelBudget, TotalBytes, Power;
    BytesOfLevel(levels[l]);
    BudgetOfLevel(options, l);
  }

  lemma {:induction false} FirstOverFull(levels: LevelSet, options: Options, l: nat)
    requires l >= 1
    ensures match OverBudgetFrom(levels, options, l)
            case Some(c) => l <= c && OverFull(levels, options, c)
                && forall i :: l <= i < c ==> !OverFull(levels, options, i)
            case None => forall i :: l <= i ==> !OverFull(levels, options, i)
    decreases |levels| - l
  {
    hide OverBudget, TotalBytes, Power;
    if l < |levels| && l + 1 < options.maxLevels {
      OverFullIs(levels, options, l);
      FirstOverFull(levels, options, l + 1);
    }
  }

  /** Table i comes next after the key a level's compaction got to last: the first that begins past it, and the first
      of all when none does or there is no such key. */
  predicate ComesNext(ts: seq<Table>, last: Key, i: nat)
    requires TablesOk(ts)
  {
    && i < |ts|
    && if last != [] && exists j :: 0 <= j < |ts| && Less(last, MinKey(ts[j]))
       then Less(last, MinKey(ts[i])) && forall j :: 0 <= j < i ==> !Less(last, MinKey(ts[j]))
       else i == 0
  }

  lemma {:induction false} FirstPastIs(ts: seq<Table>, pointer: Key)
    requires TablesOk(ts)
    ensures match FirstPast(ts, pointer)
            case Some(t) =>
              exists i :: 0 <= i < |ts| && ts[i] == t && Less(pointer, MinKey(ts[i]))
                && forall j :: 0 <= j < i ==> !Less(pointer, MinKey(ts[j]))
            case None => forall j :: 0 <= j < |ts| ==> !Less(pointer, MinKey(ts[j]))
  {
    hide Less;
    if ts != [] && !Less(pointer, MinKey(ts[0])) {
      FirstPastIs(ts[1..], pointer);
      if FirstPast(ts, pointer).Some? {
        var i :| 0 <= i < |ts[1..]| && ts[1..][i] == FirstPast(ts, pointer).value
          && Less(pointer, MinKey(ts[1..][i])) && forall j :: 0 <= j < i ==> !Less(pointer, MinKey(ts[1..][j]));
        forall j | 0 <= j < i + 1 ensures !Less(pointer, MinKey(ts[j])) {
          assert j > 0 ==> ts[j] == ts[1..][j - 1];
        }
        assert ts[i + 1] == ts[1..][i];
      } else {
        forall j | 0 <= j < |ts| ensures !Less(pointer, MinKey(ts[j])) {
          assert j > 0 ==> ts[j] == ts[1..][j - 1];
        }
      }
    }
  }

  lemma TableChoice(ts: seq<Table>, pointer: Key)
    requires TablesOk(ts) && ts != []
    ensures exists i: nat :: ComesNext(ts, pointer, i) && ts[i] == PickTable(ts, pointer)
  {
    hide Less, FirstPast;
    FirstPastIs(ts, pointer);
    if pointer != [] && FirstPast(ts, pointer).Some? {
      var i :| 0 <= i < |ts| && ts[i] == FirstPast(ts, pointer).value && Less(pointer, MinKey(ts[i]))
        && forall j :: 0 <= j < i ==> !Less(pointer, MinKey(ts[j]));
      assert ComesNext(ts, pointer, i);
    } else {
      assert ComesNext(ts, pointer, 0);
    }
  }

  /**
   * Left to itself, a pick takes the whole of L0 exactly when it holds at least as many tables as the trigger; failing
   * that one table, the next in turn, of the first level over its budget; and nothing exactly when no level is.
   */
  lemma UnforcedChoice(levels: LevelSet, pointers: seq<Key>, options: Options)
    requires LevelsOk(levels) && options.l0Trigger >= 1
    ensures var pick := Pick(levels, pointers, options, false);
            if |At(levels, 0)| >= options.l0Trigger
            then pick.Some? && pick.value.level == 0 && pick.value.inputs == levels[0]
            else
              && (pick.None? <==> forall l :: !OverFull(levels, options, l))
              && (pick.Some? ==>
                    var l := pick.value.level;
                    && OverFull(levels, options, l) && (forall i :: 0 <= i < l ==> !OverFull(levels, options, i))
                    && exists i: nat :: ComesNext(levels[l], if l < |pointers| then pointers[l] else [], i)
                                && pick.value.inputs == [levels[l][i]])
  {
    hide Expand, OverFull, FirstPast, ComesNext;
    if |At(levels, 0)| >= options.l0Trigger {
      ExpandKeeps(levels, 0, levels[0]);
    } else {
      FirstOverFull(levels, options, 1);
      NotAtZero(levels, options);
      var chosen := OverBudgetFrom(levels, options, 1);
      if chosen.Some? {
        var l := chosen.value;
        TableChoice(levels[l], PointerOf(pointers, l));
        ExpandKeeps(levels, l, [PickTable(levels[l], PointerOf(pointers, l))]);
      }
    }
  }

  lemma NotAtZero(levels: LevelSet, options: Options)
    ensures !OverFull(levels, options, 0)
  {
  }
}
