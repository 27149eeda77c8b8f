/** Looking a key up in the tables of a version. */
module ReadPath {
  import opened Keys
  import opened Entries
  import opened Levels

  ghost predicate Increasing(keys: seq<Key>) {
    forall i, j :: 0 <= i < j < |keys| ==> Less(keys[i], keys[j])
  }

  /** std::lower_bound: the first index whose key reaches the target. */
  method LowerBound(keys: seq<Key>, target: Key) returns (at: nat)
    ensures at <= |keys|
    ensures Increasing(keys) ==> forall i :: 0 <= i < at ==> Less(keys[i], target)
    ensures Increasing(keys) ==> forall i :: at <= i < |keys| ==> AtMost(target, keys[i])
  {
    var lo, hi := 0, |keys|;
    while lo < hi
      invariant 0 <= lo <= hi <= |keys|
      invariant Increasing(keys) ==> forall i :: 0 <= i < lo ==> Less(keys[i], target)
      invariant Increasing(keys) ==> forall i :: hi <= i < |keys| ==> AtMost(target, keys[i])
    {
      var mid := (lo + hi) / 2;
      if Less(keys[mid], target) {
        if Increasing(keys) {
          BelowTarget(keys, mid, target);
        }
        lo := mid + 1;
      } else {
        if Increasing(keys) {
          AboveTarget(keys, mid, target);
        }
        hi := mid;
      }
    }
    at := lo;
  }

  lemma BelowTarget(keys: seq<Key>, mid: nat, target: Key)
    requires Increasing(keys) && mid < |keys| && Less(keys[mid], target)
    ensures forall i :: 0 <= i <= mid ==> Less(keys[i], target)
  {
    forall i | 0 <= i < mid ensures Less(keys[i], target) {
      Transitive(keys[i], keys[mid], target);
    }
  }

  lemma AboveTarget(keys: seq<Key>, mid: nat, target: Key)
    requires Increasing(keys) && mid < |keys| && !Less(keys[mid], target)
    ensures forall i :: mid <= i < |keys| ==> AtMost(target, keys[i])
  {
    forall i | mid < i < |keys| ensures AtMost(target, keys[i]) {
      if Less(keys[i], target) {
        Transitive(keys[mid], keys[i], target);
      }
    }
  }

  function MaxKeys(ts: seq<Table>): (r: seq<Key>)
    requires TablesOk(ts)
    ensures |r| == |ts|
    ensures forall i :: 0 <= i < |ts| ==> r[i] == MaxKey(ts[i])
  {
    seq(|ts|, i requires 0 <= i < |ts| => MaxKey(ts[i]))
  }

  lemma MaxKeysIncrease(ts: seq<Table>)
    requires TablesOk(ts) && Disjoint(ts)
    ensures Increasing(MaxKeys(ts))
  {
    forall i, j | 0 <= i < j < |ts| ensures Less(MaxKey(ts[i]), MaxKey(ts[j])) {
      RangeOrdered(ts[j]);
      assert Less(MaxKey(ts[i]), MinKey(ts[j]));
      StrictTotalOrder();
    }
  }

  /** One binary search in a disjoint level: any table that has the key is the one returned. */
  method FindInLevel(ts: seq<Table>, k: Key) returns (at: Option<nat>)
    requires TablesOk(ts) && Disjoint(ts)
    ensures at.Some? ==> at.value < |ts| && AtMost(MinKey(ts[at.value]), k) && AtMost(k, MaxKey(ts[at.value]))
    ensures forall i :: 0 <= i < |ts| && HasKey(ts[i].run, k) ==> at == Some(i)
  {
    MaxKeysIncrease(ts);
    var lower := LowerBound(MaxKeys(ts), k);
    if lower == |ts| || Less(k, MinKey(ts[lower])) {
      at := None;
    } else {
      at := Some(lower);
    }
    forall i | 0 <= i < |ts| && HasKey(ts[i].run, k) ensures at == Some(i) {
      OnlyCandidate(ts, k, lower, i);
    }
  }

  /** A table holding the key can only be the one at the lower bound of the max keys. */
  lemma OnlyCandidate(ts: seq<Table>, k: Key, lower: nat, i: nat)
    requires TablesOk(ts) && Disjoint(ts) && lower <= |ts| && i < |ts| && HasKey(ts[i].run, k)
    requires forall j :: 0 <= j < lower ==> Less(MaxKey(ts[j]), k)
    requires forall j :: lower <= j < |ts| ==> AtMost(k, MaxKey(ts[j]))
    ensures i == lower && AtMost(MinKey(ts[i]), k)
  {
    var p :| 0 <= p < |ts[i].run| && ts[i].run[p].key == k;
    InRange(ts[i], ts[i].run[p]);
    if i > lower {
      assert Less(MaxKey(ts[lower]), MinKey(ts[i]));
      StrictTotalOrder();
      assert false;
    }
  }

  /** A sorted list holds a key at its lower bound or nowhere. */
  lemma NotThere(keys: seq<Key>, k: Key, at: nat)
    requires Increasing(keys) && at <= |keys| && (at < |keys| ==> keys[at] != k)
    requires forall i :: 0 <= i < at ==> Less(keys[i], k)
    requires forall i :: at <= i < |keys| ==> AtMost(k, keys[i])
    ensures k !in keys
  {
    Irreflexive(k);
  }

  /** A point lookup in one table, by binary search over its keys. */
  method Lookup(t: Table, k: Key) returns (r: Option<Cell>)
    requires Sorted(t.run)
    ensures r == Find(t.run, k)
  {
    var keys := seq(|t.run|, i requires 0 <= i < |t.run| => t.run[i].key);
    var at := LowerBound(keys, k);
    if at < |t.run| && t.run[at].key == k {
      FindIs(t.run, t.run[at]);
      r := Some(t.run[at].cell);
    } else {
      NotThere(keys, k, at);
      assert forall i :: 0 <= i < |t.run| ==> keys[i] == t.run[i].key;
      r := None;
    }
  }

  /** get below the memtables: the tables it asks answer exactly as all of them together would. */
  method GetFromTables(levels: LevelSet, k: Key) returns (r: Option<Value>)
    requires LevelsOk(levels)
    ensures r == Visible(LookLevels(levels, k))
  {
    hide LookLevels, Look, Find, Disjoint;
    var answer: Option<Cell> := None;
    if levels != [] {
      answer := AskAll(levels[0], k);
    }
    LookFirst(levels, k);
    var l := 1;
    while l < |levels| && answer.None?
      invariant 1 <= l
      invariant levels != [] ==> l <= |levels|
      invariant LookLevels(levels, k) == Or(answer, if l <= |levels| then LookLevels(levels[l..], k) else None)
    {
      LookFirst(levels[l..], k);
      assert levels[l..][1..] == levels[l + 1..];
      var at := FindInLevel(levels[l], k);
      if at.Some? {
        answer := Lookup(levels[l][at.value], k);
        OneTable(levels[l], k, at.value);
      } else {
        LookMiss(Runs(levels[l]), k);
      }
      l := l + 1;
    }
    if l == |levels| {
      assert levels[l..] == [];
      LookFirst([], k);
    }
    r := Visible(answer);
  }

  lemma LookFirst(levels: LevelSet, k: Key)
    ensures LookLevels(levels, k) == if levels == [] then None
        else Or(Look(Runs(levels[0]), k), LookLevels(levels[1..], k))
  {
    if levels != [] {
      LookConcat(Runs(levels[0]), Stack(levels[1..]), k);
    }
  }

  lemma OneTable(ts: seq<Table>, k: Key, at: nat)
    requires at < |ts| && forall i :: 0 <= i < |ts| && HasKey(ts[i].run, k) ==> i == at
    ensures Look(Runs(ts), k) == Find(ts[at].run, k)
  {
    if HasKey(ts[at].run, k) {
      LookHit(Runs(ts), at, k);
    } else {
      LookMiss(Runs(ts), k);
    }
  }

  /** L0: the tables overlap, so every one is asked until one answers. */
  method AskAll(ts: seq<Table>, k: Key) returns (r: Option<Cell>)
    requires TablesOk(ts)
    ensures r == Look(Runs(ts), k)
  {
    var i := 0;
    r := None;
    while i < |ts| && r.None?
      invariant 0 <= i <= |ts|
      invariant Look(Runs(ts), k) == Or(r, Look(Runs(ts)[i..], k))
    {
      assert Runs(ts)[i..][1..] == Runs(ts)[i + 1..];
      r := Lookup(ts[i], k);
      i := i + 1;
    }
    if i == |ts| {
      assert Runs(ts)[i..] == [];
    }
  }
}
