/** Sorted runs of entries, what a stack of runs says about a key, and the k-way merge of
    such a stack (the specification that MergingIterator is proved against). */
module Entries {
  import opened Keys

  datatype Option<+T> = None | Some(value: T)

  type Value = seq<Byte>

  /** What a run records for a key: a value, or that the key was removed. */
  datatype Cell = Live(value: Value) | Tombstone

  datatype Entry = Entry(key: Key, cell: Cell)

  type Run = seq<Entry>

  // -- One run ------------------------------------------------------------------

  predicate Sorted(run: Run) {
    forall i, j :: 0 <= i < j < |run| ==> Less(run[i].key, run[j].key)
  }

  predicate HasKey(run: Run, k: Key) {
    exists i :: 0 <= i < |run| && run[i].key == k
  }

  /** What one run says about a key: its cell, or nothing at all. */
  ghost function Find(run: Run, k: Key): (r: Option<Cell>)
    ensures r.Some? <==> HasKey(run, k)
    ensures r.Some? ==> Entry(k, r.value) in run
  {
    if HasKey(run, k) then
      var i :| 0 <= i < |run| && run[i].key == k;
      Some(run[i].cell)
    else
      None
  }

  /** In a sorted run an entry is the only one for its key, so Find returns it. */
  lemma FindIs(run: Run, e: Entry)
    requires Sorted(run) && e in run
    ensures Find(run, e.key) == Some(e.cell)
  {
    var i :| 0 <= i < |run| && run[i] == e;
    assert HasKey(run, e.key);
    var f := Entry(e.key, Find(run, e.key).value);
    var j :| 0 <= j < |run| && run[j] == f;
    Irreflexive(e.key);
  }

  lemma HasTail(run: Run, i: nat)
    requires 0 < i < |run|
    ensures HasKey(run[1..], run[i].key)
  {
    assert run[1..][i - 1].key == run[i].key;
  }

  /** The tail of a sorted run says the same, except that it has forgotten the head. */
  lemma FindTail(run: Run, k: Key)
    requires Sorted(run) && run != []
    ensures Find(run[1..], k) == if k == run[0].key then None else Find(run, k)
  {
    var tail := run[1..];
    if HasKey(tail, k) {
      var e := Entry(k, Find(tail, k).value);
      assert e in tail;
      var j :| 0 <= j < |tail| && tail[j] == e;
      assert run[j + 1] == e;
      FindIs(run, e);
      Irreflexive(k);
    } else if HasKey(run, k) {
      var i :| 0 <= i < |run| && run[i].key == k;
      if i != 0 {
        HasTail(run, i);
        assert false;
      }
    }
  }

  /** The first of two answers that is one. */
  function Or<T>(a: Option<T>, b: Option<T>): Option<T> {
    if a.Some? then a else b
  }

  /** What a reader is told: a tombstone and silence both mean "no such key". */
  function Visible(c: Option<Cell>): Option<Value> {
    if c.Some? && c.value.Live? then Some(c.value.value) else None
  }

  // -- A stack of runs, newest first --------------------------------------------

  ghost function Look(runs: seq<Run>, k: Key): (r: Option<Cell>) {
    if runs == [] then None else Or(Find(runs[0], k), Look(runs[1..], k))
  }

  /** The newest run with an opinion decides. */
  lemma {:induction false} LookHit(runs: seq<Run>, i: nat, k: Key)
    requires i < |runs| && HasKey(runs[i], k)
    requires forall j :: 0 <= j < i ==> !HasKey(runs[j], k)
    ensures Look(runs, k) == Find(runs[i], k)
  {
    if i > 0 {
      assert !HasKey(runs[0], k);
      LookHit(runs[1..], i - 1, k);
    }
  }

  lemma {:induction false} LookMiss(runs: seq<Run>, k: Key)
    requires forall j :: 0 <= j < |runs| ==> !HasKey(runs[j], k)
    ensures Look(runs, k) == None
  {
    if runs != [] {
      assert !HasKey(runs[0], k);
      LookMiss(runs[1..], k);
    }
  }

  /** Whatever a stack answers, some run of it says. */
  lemma {:induction false} LookSource(runs: seq<Run>, k: Key) returns (i: nat)
    requires Look(runs, k).Some?
    ensures i < |runs| && HasKey(runs[i], k) && Look(runs, k) == Find(runs[i], k)
    ensures forall j :: 0 <= j < i ==> !HasKey(runs[j], k)
  {
    if HasKey(runs[0], k) {
      i := 0;
    } else {
      var j := LookSource(runs[1..], k);
      i := j + 1;
    }
  }

  lemma {:induction false} LookConcat(a: seq<Run>, b: seq<Run>, k: Key)
    ensures Look(a + b, k) == Or(Look(a, k), Look(b, k))
  {
    if a == [] {
      assert a + b == b;
    } else {
      assert (a + b)[1..] == a[1..] + b;
      LookConcat(a[1..], b, k);
    }
  }

  // -- The k-way merge ----------------------------------------------------------

  predicate AllSorted(runs: seq<Run>) {
    forall i :: 0 <= i < |runs| ==> Sorted(runs[i])
  }

  function TotalEntries(runs: seq<Run>): nat {
    if runs == [] then 0 else |runs[0]| + TotalEntries(runs[1..])
  }

  /** Among the first n runs, the first one whose head is the smallest head. */
  function WinnerAmong(runs: seq<Run>, n: nat): (w: Option<nat>)
    requires n <= |runs|
    ensures w.Some? ==> w.value < n && runs[w.value] != []
  {
    if n == 0 then None
    else
      var w := WinnerAmong(runs, n - 1);
      if runs[n - 1] != [] && (w.None? || Less(runs[n - 1][0].key, runs[w.value][0].key)) then Some(n - 1) else w
  }

  /** Every run positioned on k steps past it. */
  function Advance(runs: seq<Run>, k: Key): (r: seq<Run>)
    ensures |r| == |runs|
    ensures forall i :: 0 <= i < |runs| ==>
      r[i] == if runs[i] != [] && runs[i][0].key == k then runs[i][1..] else runs[i]
  {
    seq(|runs|, i requires 0 <= i < |runs| =>
      if runs[i] != [] && runs[i][0].key == k then runs[i][1..] else runs[i])
  }

  lemma {:induction false} AdvanceShrinks(runs: seq<Run>, k: Key)
    ensures TotalEntries(Advance(runs, k)) <= TotalEntries(runs)
    ensures (exists i :: 0 <= i < |runs| && runs[i] != [] && runs[i][0].key == k) ==>
      TotalEntries(Advance(runs, k)) < TotalEntries(runs)
  {
    if runs != [] {
      assert Advance(runs, k)[1..] == Advance(runs[1..], k);
      AdvanceShrinks(runs[1..], k);
      if i :| 0 <= i < |runs| && runs[i] != [] && runs[i][0].key == k {
        if i != 0 {
          assert runs[1..][i - 1] == runs[i];
        }
      }
    }
  }

  function Merge(runs: seq<Run>): Run
    decreases TotalEntries(runs)
  {
    var w := WinnerAmong(runs, |runs|);
    if w.None? then []
    else
      var head := runs[w.value][0];
      AdvanceShrinks(runs, head.key);
      [head] + Merge(Advance(runs, head.key))
  }

  lemma {:induction false} WinnerIsLeast(runs: seq<Run>, n: nat)
    requires n <= |runs|
    ensures WinnerAmong(runs, n).None? ==> forall i :: 0 <= i < n ==> runs[i] == []
    ensures WinnerAmong(runs, n).Some? ==>
      var w := WinnerAmong(runs, n).value;
      && (forall i :: 0 <= i < n && runs[i] != [] ==> AtMost(runs[w][0].key, runs[i][0].key))
      && (forall i :: 0 <= i < w && runs[i] != [] ==> Less(runs[w][0].key, runs[i][0].key))
  {
    hide Less;
    if n > 0 {
      WinnerIsLeast(runs, n - 1);
      StrictTotalOrder();
    }
  }

  /** A sorted run speaks only of keys from its head on. */
  lemma HeadIsLeast(run: Run, k: Key)
    requires Sorted(run) && HasKey(run, k)
    ensures run != [] && (k == run[0].key || Less(run[0].key, k))
  {
    var i :| 0 <= i < |run| && run[i].key == k;
  }

  lemma AdvanceLook(runs: seq<Run>, k: Key, q: Key)
    requires AllSorted(runs)
    requires forall i :: 0 <= i < |runs| && runs[i] != [] ==> AtMost(k, runs[i][0].key)
    ensures AllSorted(Advance(runs, k))
    ensures Look(Advance(runs, k), q) == if q == k then None else Look(runs, q)
  {
    var next := Advance(runs, k);
    forall i | 0 <= i < |runs|
      ensures Sorted(next[i]) && Find(next[i], q) == if q == k then None else Find(runs[i], q)
    {
      if runs[i] != [] && runs[i][0].key == k {
        FindTail(runs[i], q);
      } else if HasKey(runs[i], k) {
        HeadIsLeast(runs[i], k);
        assert false;
      }
    }
    LookPointwise(runs, next, k, q);
  }

  lemma {:induction false} LookPointwise(runs: seq<Run>, next: seq<Run>, k: Key, q: Key)
    requires |runs| == |next|
    requires forall i :: 0 <= i < |runs| ==> Find(next[i], q) == if q == k then None else Find(runs[i], q)
    ensures Look(next, q) == if q == k then None else Look(runs, q)
  {
    if runs != [] {
      LookPointwise(runs[1..], next[1..], k, q);
    }
  }

  /** The merge of sorted runs is sorted, and says exactly what the stack says. */
  lemma {:induction false} MergeCorrect(runs: seq<Run>)
    requires AllSorted(runs)
    ensures Sorted(Merge(runs))
    ensures forall k :: Find(Merge(runs), k) == Look(runs, k)
    decreases TotalEntries(runs)
  {
    hide Less, Find, Look, Advance, TotalEntries, WinnerAmong, Sorted;
    var w := WinnerAmong(runs, |runs|);
    WinnerIsLeast(runs, |runs|);
    if w.None? {
      SortedNone();
      forall k ensures Find(Merge(runs), k) == Look(runs, k) {
        LookMiss(runs, k);
      }
    } else {
      var head := runs[w.value][0];
      var next := Advance(runs, head.key);
      AdvanceShrinks(runs, head.key);
      AdvanceLook(runs, head.key, head.key);
      MergeCorrect(next);
      var rest := Merge(next);
      assert Merge(runs) == [head] + rest;
      forall i | 0 <= i < |rest| ensures Less(head.key, rest[i].key) {
        MergedKeyIsLater(runs, head.key, rest, rest[i].key);
      }
      SortedCons(head, rest);
      forall k ensures Find(Merge(runs), k) == Look(runs, k) {
        MergeStep(runs, w.value, rest, k);
      }
    }
  }

  lemma SortedNone()
    ensures Sorted([])
  {
  }

  lemma SortedCons(head: Entry, rest: Run)
    requires Sorted(rest) && forall i :: 0 <= i < |rest| ==> Less(head.key, rest[i].key)
    ensures Sorted([head] + rest)
  {
  }

  lemma MergedKeyIsLater(runs: seq<Run>, k: Key, rest: Run, q: Key)
    requires AllSorted(runs) && HasKey(rest, q)
    requires forall i :: 0 <= i < |runs| && runs[i] != [] ==> AtMost(k, runs[i][0].key)
    requires forall p :: Find(rest, p) == Look(Advance(runs, k), p)
    ensures Less(k, q)
  {
    AdvanceLook(runs, k, q);
    assert Look(runs, q).Some? && q != k;
    var i := LookSource(runs, q);
    HeadIsLeast(runs[i], q);
    StrictTotalOrder();
  }

  lemma MergeStep(runs: seq<Run>, w: nat, rest: Run, k: Key)
    requires AllSorted(runs) && w < |runs| && runs[w] != []
    requires forall i :: 0 <= i < |runs| && runs[i] != [] ==> AtMost(runs[w][0].key, runs[i][0].key)
    requires forall i :: 0 <= i < w && runs[i] != [] ==> Less(runs[w][0].key, runs[i][0].key)
    requires forall p :: Find(rest, p) == Look(Advance(runs, runs[w][0].key), p)
    requires Sorted([runs[w][0]] + rest)
    ensures Find([runs[w][0]] + rest, k) == Look(runs, k)
  {
    var head := runs[w][0];
    var all := [head] + rest;
    assert all[1..] == rest;
    FindTail(all, k);
    AdvanceLook(runs, head.key, k);
    if k == head.key {
      FindIs(all, head);
      forall j | 0 <= j < w ensures !HasKey(runs[j], k) {
        if HasKey(runs[j], k) {
          HeadIsLeast(runs[j], k);
          StrictTotalOrder();
          assert false;
        }
      }
      LookHit(runs, w, k);
      FindIs(runs[w], head);
    }
  }

  /** Merging never invents entries: it keeps at most one per key it read. */
  lemma {:induction false} MergeIsNoLonger(runs: seq<Run>)
    ensures |Merge(runs)| <= TotalEntries(runs)
    decreases TotalEntries(runs)
  {
    var w := WinnerAmong(runs, |runs|);
    if w.Some? {
      var head := runs[w.value][0];
      AdvanceShrinks(runs, head.key);
      MergeIsNoLonger(Advance(runs, head.key));
    }
  }

  // -- Dropping tombstones --------------------------------------------------------

  function WithoutTombstones(run: Run): (r: Run)
    ensures |r| <= |run|
  {
    if run == [] then []
    else if run[0].cell.Tombstone? then WithoutTombstones(run[1..])
    else [run[0]] + WithoutTombstones(run[1..])
  }

  lemma {:induction false} WithoutTombstonesMembers(run: Run, e: Entry)
    ensures e in WithoutTombstones(run) <==> e in run && e.cell.Live?
  {
    if run != [] {
      WithoutTombstonesMembers(run[1..], e);
      assert run == [run[0]] + run[1..];
    }
  }

  lemma {:induction false} WithoutTombstonesSorted(run: Run)
    requires Sorted(run)
    ensures Sorted(WithoutTombstones(run))
  {
    if run != [] {
      var rest := WithoutTombstones(run[1..]);
      WithoutTombstonesSorted(run[1..]);
      forall j | 0 <= j < |rest| ensures Less(run[0].key, rest[j].key) {
        WithoutTombstonesMembers(run[1..], rest[j]);
        var i :| 0 <= i < |run[1..]| && run[1..][i] == rest[j];
        assert run[i + 1] == rest[j];
      }
    }
  }

  /** Dropping tombstones silences deleted keys and changes nothing else. */
  lemma WithoutTombstonesFind(run: Run, k: Key)
    requires Sorted(run)
    ensures Find(WithoutTombstones(run), k) == if Find(run, k) == Some(Tombstone) then None else Find(run, k)
  {
    var kept := WithoutTombstones(run);
    WithoutTombstonesSorted(run);
    if Find(kept, k).Some? {
      var e := Entry(k, Find(kept, k).value);
      WithoutTombstonesMembers(run, e);
      FindIs(run, e);
    } else if Find(run, k).Some? {
      var e := Entry(k, Find(run, k).value);
      WithoutTombstonesMembers(run, e);
      if e.cell.Live? {
        FindIs(kept, e);
        assert false;
      }
    }
  }
}
