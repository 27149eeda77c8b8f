/** The level set. Tables of L0 may overlap and are listed newest first; those of a deeper level
    are ordered by key and never share one. */
module Levels {
  import opened Keys
  import opened Entries

  /** An immutable sorted table file. */
  datatype Table = Table(id: nat, run: Run, size: nat)

  type LevelSet = seq<seq<Table>>

  predicate TableOk(t: Table) {
    t.run != [] && Sorted(t.run)
  }

  function MinKey(t: Table): Key
    requires t.run != []
  {
    t.run[0].key
  }

  function MaxKey(t: Table): Key
    requires t.run != []
  {
    t.run[|t.run| - 1].key
  }

  predicate TablesOk(ts: seq<Table>) {
    forall i :: 0 <= i < |ts| ==> TableOk(ts[i])
  }

  /** Sorted by key with disjoint ranges. */
  predicate Disjoint(ts: seq<Table>)
    requires TablesOk(ts)
  {
    forall i, j {:trigger MaxKey(ts[i]), MinKey(ts[j])} :: 0 <= i < j < |ts| ==> Less(MaxKey(ts[i]), MinKey(ts[j]))
  }

  predicate NewestFirst(ts: seq<Table>) {
    forall i, j :: 0 <= i < j < |ts| ==> ts[i].id > ts[j].id
  }

  predicate LevelsOk(levels: LevelSet) {
    && (forall l :: 0 <= l < |levels| ==> TablesOk(levels[l]))
    && (forall l :: 1 <= l < |levels| ==> Disjoint(levels[l]))
  }

  predicate Member(levels: LevelSet, l: nat, t: Table) {
    l < |levels| && t in levels[l]
  }

  /** An id names one table, in one level. */
  ghost predicate UniqueIds(levels: LevelSet) {
    forall l, m, t, u :: Member(levels, l, t) && Member(levels, m, u) && t.id == u.id ==> l == m && t == u
  }

  function At(levels: LevelSet, l: nat): seq<Table> {
    if l < |levels| then levels[l] else []
  }

  function Runs(ts: seq<Table>): (r: seq<Run>)
    ensures |r| == |ts|
    ensures forall i :: 0 <= i < |ts| ==> r[i] == ts[i].run
  {
    seq(|ts|, i requires 0 <= i < |ts| => ts[i].run)
  }

  /** Every run of the level set, in the order a lookup consults them. */
  function Stack(levels: LevelSet): seq<Run> {
    if levels == [] then [] else Runs(levels[0]) + Stack(levels[1..])
  }

  lemma {:induction false} StackConcat(a: LevelSet, b: LevelSet)
    ensures Stack(a + b) == Stack(a) + Stack(b)
  {
    if a == [] {
      assert a + b == b;
    } else {
      assert (a + b)[1..] == a[1..] + b;
      StackConcat(a[1..], b);
    }
  }

  /** What the table files say about a key. */
  ghost function LookLevels(levels: LevelSet, k: Key): Option<Cell> {
    Look(Stack(levels), k)
  }

  lemma LookSplit(levels: LevelSet, l: nat, k: Key)
    requires l < |levels|
    ensures LookLevels(levels, k) ==
      Or(LookLevels(levels[..l], k), Or(Look(Runs(levels[l]), k), LookLevels(levels[l + 1..], k)))
  {
    assert levels == levels[..l] + levels[l..];
    StackConcat(levels[..l], levels[l..]);
    LookConcat(Stack(levels[..l]), Stack(levels[l..]), k);
    assert levels[l..][0] == levels[l] && levels[l..][1..] == levels[l + 1..];
    LookConcat(Runs(levels[l]), Stack(levels[l + 1..]), k);
  }

  // -- Key ranges -----------------------------------------------------------------

  lemma InRange(t: Table, e: Entry)
    requires TableOk(t) && e in t.run
    ensures AtMost(MinKey(t), e.key) && AtMost(e.key, MaxKey(t))
  {
    StrictTotalOrder();
    var i :| 0 <= i < |t.run| && t.run[i] == e;
  }

  lemma RangeOrdered(t: Table)
    requires TableOk(t)
    ensures AtMost(MinKey(t), MaxKey(t))
  {
    InRange(t, t.run[0]);
  }

  /** Whatever a list of tables answers, one of them says. */
  lemma LookTable(ts: seq<Table>, k: Key) returns (t: Table)
    requires Look(Runs(ts), k).Some?
    ensures t in ts && Entry(k, Look(Runs(ts), k).value) in t.run
  {
    var i := LookSource(Runs(ts), k);
    t := ts[i];
  }

  /** In a disjoint level only one table holds a key, and that table is the level's answer. */
  lemma LookDisjoint(ts: seq<Table>, t: Table, e: Entry)
    requires TablesOk(ts) && Disjoint(ts) && t in ts && e in t.run
    ensures Look(Runs(ts), e.key) == Some(e.cell)
    ensures AtMost(MinKey(t), e.key) && AtMost(e.key, MaxKey(t))
    ensures forall u :: u in ts && HasKey(u.run, e.key) ==> u == t
  {
    var i :| 0 <= i < |ts| && ts[i] == t;
    InRange(t, e);
    forall j | 0 <= j < |ts| && HasKey(ts[j].run, e.key) ensures j == i {
      SameTable(ts, i, j, e.key);
    }
    forall j | 0 <= j < i ensures !HasKey(Runs(ts)[j], e.key) {
      assert Runs(ts)[j] == ts[j].run;
    }
    FindIs(t.run, e);
    LookHit(Runs(ts), i, e.key);
  }

  lemma SameTable(ts: seq<Table>, i: nat, j: nat, k: Key)
    requires TablesOk(ts) && Disjoint(ts) && i < |ts| && j < |ts| && HasKey(ts[i].run, k) && HasKey(ts[j].run, k)
    ensures i == j
  {
    hide Less;
    var p :| 0 <= p < |ts[i].run| && ts[i].run[p].key == k;
    var q :| 0 <= q < |ts[j].run| && ts[j].run[q].key == k;
    InRange(ts[i], ts[i].run[p]);
    InRange(ts[j], ts[j].run[q]);
    StrictTotalOrder();
  }

  /** A list of tables none of which mentions a key is silent about it. */
  lemma LookAbsent(ts: seq<Table>, k: Key)
    requires forall t, c :: t in ts ==> Entry(k, c) !in t.run
    ensures Look(Runs(ts), k) == None
  {
    if Look(Runs(ts), k).Some? {
      var t := LookTable(ts, k);
    }
  }

  /** Two disjoint levels agree on a key when they have the same tables around it. */
  lemma LookSame(a: seq<Table>, b: seq<Table>, k: Key)
    requires TablesOk(a) && TablesOk(b) && Disjoint(a) && Disjoint(b)
    requires forall t: Table, c: Cell :: Entry(k, c) in t.run ==> (t in a <==> t in b)
    ensures Look(Runs(a), k) == Look(Runs(b), k)
  {
    if Look(Runs(a), k).Some? {
      var t := LookTable(a, k);
      LookDisjoint(b, t, Entry(k, Look(Runs(a), k).value));
    } else if Look(Runs(b), k).Some? {
      var t := LookTable(b, k);
      LookDisjoint(a, t, Entry(k, Look(Runs(b), k).value));
    }
  }
}
