/** The history of writes: the specification every engine is held to. */
module History {
  import opened Keys
  import opened Entries

  /** A put or, with a tombstone, a remove. */
  datatype Write = Write(key: Key, cell: Cell)

  /** The last word on a key. */
  ghost function Last(h: seq<Write>, k: Key): Option<Cell> {
    if h == [] then None
    else if h[|h| - 1].key == k then Some(h[|h| - 1].cell)
    else Last(h[..|h| - 1], k)
  }

  lemma {:induction false} LastConcat(a: seq<Write>, b: seq<Write>, k: Key)
    ensures Last(a + b, k) == Or(Last(b, k), Last(a, k))
  {
    if b == [] {
      assert a + b == a;
    } else {
      assert (a + b)[..|a + b| - 1] == a + b[..|b| - 1];
      LastConcat(a, b[..|b| - 1], k);
    }
  }

  /** The plain map a store is supposed to be: a put sets, a remove unsets. */
  function PlainMap(h: seq<Write>): map<Key, Value> {
    if h == [] then map[]
    else
      var w := h[|h| - 1];
      match w.cell
      case Live(v) => PlainMap(h[..|h| - 1])[w.key := v]
      case Tombstone => PlainMap(h[..|h| - 1]) - {w.key}
  }

  function Get<V>(m: map<Key, V>, k: Key): Option<V> {
    if k in m then Some(m[k]) else None
  }

  /** Reading the last cell, tombstones being silence, is reading the plain map. */
  lemma {:induction false} LastIsPlainMap(h: seq<Write>, k: Key)
    ensures Visible(Last(h, k)) == Get(PlainMap(h), k)
  {
    if h != [] {
      LastIsPlainMap(h[..|h| - 1], k);
    }
  }

  lemma LastEmpty(h: seq<Write>, k: Key)
    requires h == []
    ensures Last(h, k) == None
  {
  }

  lemma LastPush(h: seq<Write>, w: Write, k: Key)
    ensures Last(h + [w], k) == if w.key == k then Some(w.cell) else Last(h, k)
  {
    assert (h + [w])[..|h|] == h;
  }

  lemma PlainPush(h: seq<Write>, w: Write)
    ensures PlainMap(h + [w]) == if w.cell.Live? then PlainMap(h)[w.key := w.cell.value] else PlainMap(h) - {w.key}
  {
    assert (h + [w])[..|h|] == h;
  }

  lemma SameMaps(a: map<Key, Value>, b: map<Key, Value>)
    requires forall k :: Get(a, k) == Get(b, k)
    ensures a == b
  {
    forall k ensures (k in a <==> k in b) && (k in a ==> a[k] == b[k]) {
      assert Get(a, k) == Get(b, k);
    }
    assert a.Keys == b.Keys;
  }

  // -- Memtables --------------------------------------------------------------------

  type Cells = map<Key, Cell>

  /** The memtable a sequence of writes leaves behind. */
  function Replay(h: seq<Write>): Cells {
    if h == [] then map[] else Replay(h[..|h| - 1])[h[|h| - 1].key := h[|h| - 1].cell]
  }

  lemma {:induction false} ReplayIsLast(h: seq<Write>, k: Key)
    ensures Get(Replay(h), k) == Last(h, k)
  {
    if h != [] {
      ReplayIsLast(h[..|h| - 1], k);
    }
  }

  lemma ReplayEmpty(h: seq<Write>)
    ensures Replay(h) == map[] <==> h == []
  {
    if h != [] {
      assert h[|h| - 1].key in Replay(h);
    }
  }

  lemma ReplayAppend(h: seq<Write>, w: Write)
    ensures Replay(h + [w]) == Replay(h)[w.key := w.cell]
  {
    assert (h + [w])[..|h|] == h;
  }

  // -- The sorted listing of a memtable ------------------------------------------------

  ghost predicate IsLeast(keys: set<Key>, k: Key) {
    k in keys && forall q :: q in keys && q != k ==> Less(k, q)
  }

  lemma {:induction false} HasLeast(keys: set<Key>)
    requires keys != {}
    ensures exists k :: IsLeast(keys, k)
  {
    var any :| any in keys;
    var rest := keys - {any};
    if rest == {} {
      assert forall q :: q in keys && q != any ==> q in rest;
      assert IsLeast(keys, any);
    } else {
      HasLeast(rest);
      var least :| IsLeast(rest, least);
      StrictTotalOrder();
      assert IsLeast(keys, if Less(any, least) then any else least);
    }
  }

  ghost function LeastKey(keys: set<Key>): (k: Key)
    requires keys != {}
    ensures IsLeast(keys, k)
  {
    HasLeast(keys);
    var k :| IsLeast(keys, k);
    k
  }

  /** A memtable's entries in key order: the run a flush turns into a table. */
  ghost function Listing(m: Cells): Run
    decreases |m|
  {
    if m == map[] then []
    else
      var k := LeastKey(m.Keys);
      assert |m.Keys - {k}| < |m.Keys|;
      assert (m - {k}).Keys == m.Keys - {k};
      [Entry(k, m[k])] + Listing(m - {k})
  }

  lemma {:induction false} ListingMembers(m: Cells, e: Entry)
    ensures e in Listing(m) <==> e.key in m && m[e.key] == e.cell
    decreases |m|
  {
    if m != map[] {
      var k := LeastKey(m.Keys);
      assert |m.Keys - {k}| < |m.Keys| && (m - {k}).Keys == m.Keys - {k};
      ListingMembers(m - {k}, e);
    }
  }

  lemma {:induction false} ListingSorted(m: Cells)
    ensures Sorted(Listing(m))
    decreases |m|
  {
    if m != map[] {
      var k := LeastKey(m.Keys);
      assert |m.Keys - {k}| < |m.Keys| && (m - {k}).Keys == m.Keys - {k};
      var rest := Listing(m - {k});
      ListingSorted(m - {k});
      forall i | 0 <= i < |rest| ensures Less(k, rest[i].key) {
        ListingMembers(m - {k}, rest[i]);
      }
    }
  }

  /** The listing says exactly what the memtable says. */
  lemma ListingFind(m: Cells, k: Key)
    ensures Sorted(Listing(m)) && Find(Listing(m), k) == Get(m, k)
  {
    ListingSorted(m);
    if k in m {
      ListingMembers(m, Entry(k, m[k]));
      FindIs(Listing(m), Entry(k, m[k]));
    } else if Find(Listing(m), k).Some? {
      ListingMembers(m, Entry(k, Find(Listing(m), k).value));
    }
  }
}
