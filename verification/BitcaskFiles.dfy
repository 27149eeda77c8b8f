/** Bitcask's data files, what replaying them rebuilds, and where every byte of them is accounted for. */
module BitcaskFiles {
  import opened Keys
  import opened Entries
  import opened History
  import opened Records

  /** A data file: its whole records, and how many bytes follow the last of them. */
  datatype DataFile = DataFile(id: nat, recs: seq<Rec>, tail: nat)

  /** An index entry: file, byte offset, and the record's timestamp and length. */
  datatype Ptr = Ptr(file: nat, offset: nat, ts: nat, size: nat)

  datatype Store = Store(index: map<Key, Ptr>, dead: map<nat, nat>)

  const Fresh: Store := Store(map[], map[])

  // -- Offsets ------------------------------------------------------------------------------

  function Offset(recs: seq<Rec>, n: nat): nat
    requires n <= |recs|
  {
    if n == 0 then 0 else Offset(recs, n - 1) + RecSize(recs[n - 1])
  }

  function FileSize(recs: seq<Rec>): nat {
    Offset(recs, |recs|)
  }

  lemma {:induction false} OffsetsIncrease(recs: seq<Rec>, i: nat, j: nat)
    requires i < j <= |recs|
    ensures Offset(recs, i) < Offset(recs, j)
  {
    if i < j - 1 {
      OffsetsIncrease(recs, i, j - 1);
    }
  }

  lemma OffsetsDiffer(recs: seq<Rec>, i: nat, j: nat)
    requires i <= |recs| && j <= |recs| && Offset(recs, i) == Offset(recs, j)
    ensures i == j
  {
    if i < j {
      OffsetsIncrease(recs, i, j);
    } else if j < i {
      OffsetsIncrease(recs, j, i);
    }
  }

  lemma {:induction false} OffsetSame(a: seq<Rec>, b: seq<Rec>, n: nat)
    requires n <= |a| && n <= |b| && forall i :: 0 <= i < n ==> a[i] == b[i]
    ensures Offset(a, n) == Offset(b, n)
  {
    if n > 0 {
      OffsetSame(a, b, n - 1);
    }
  }

  function PtrTo(id: nat, recs: seq<Rec>, i: nat): Ptr
    requires i < |recs|
  {
    Ptr(id, Offset(recs, i), recs[i].ts, RecSize(recs[i]))
  }

  // -- Replay --------------------------------------------------------------------------------

  function Dead(dead: map<nat, nat>, id: nat): nat {
    if id in dead then dead[id] else 0
  }

  function MarkDead(dead: map<nat, nat>, id: nat, size: nat): map<nat, nat> {
    dead[id := Dead(dead, id) + size]
  }

  /** The displaced pointer's bytes are dead. */
  function Bury(st: Store, k: Key): map<nat, nat> {
    if k in st.index then MarkDead(st.dead, st.index[k].file, st.index[k].size) else st.dead
  }

  /** What one record does to the index and the dead-byte counts. */
  function Apply(st: Store, p: Ptr, r: Rec): Store {
    if r.cell.Tombstone? then Store(st.index - {r.key}, MarkDead(Bury(st, r.key), p.file, p.size))
    else Store(st.index[r.key := p], Bury(st, r.key))
  }

  function ReplayRecs(id: nat, recs: seq<Rec>, n: nat, st: Store): Store
    requires n <= |recs|
  {
    if n == 0 then st else Apply(ReplayRecs(id, recs, n - 1, st), PtrTo(id, recs, n - 1), recs[n - 1])
  }

  function ReplayFile(f: DataFile, st: Store): Store {
    ReplayRecs(f.id, f.recs, |f.recs|, st)
  }

  function ReplayFiles(files: seq<DataFile>, n: nat): Store
    requires n <= |files|
  {
    if n == 0 then Fresh else ReplayFile(files[n - 1], ReplayFiles(files, n - 1))
  }

  /** The store that replaying every file in ascending id order rebuilds. */
  function Rebuilt(files: seq<DataFile>): Store {
    ReplayFiles(files, |files|)
  }

  // -- The history the files are ---------------------------------------------------------------

  function WritesOf(recs: seq<Rec>): (w: seq<Write>)
    ensures |w| == |recs|
    ensures forall i :: 0 <= i < |recs| ==> w[i] == Write(recs[i].key, recs[i].cell)
  {
    seq(|recs|, i requires 0 <= i < |recs| => Write(recs[i].key, recs[i].cell))
  }

  function WritesIn(files: seq<DataFile>, n: nat): seq<Write>
    requires n <= |files|
  {
    if n == 0 then [] else WritesIn(files, n - 1) + WritesOf(files[n - 1].recs)
  }

  /** The plain map a directory holds. */
  function Contents(files: seq<DataFile>): map<Key, Value> {
    PlainMap(WritesIn(files, |files|))
  }

  predicate Ascending(files: seq<DataFile>) {
    forall i, j :: 0 <= i < j < |files| ==> files[i].id < files[j].id
  }

  /** p is where file f holds record i, a put of k. */
  ghost predicate Holds(files: seq<DataFile>, k: Key, p: Ptr, f: nat, i: nat) {
    && f < |files| && i < |files[f].recs|
    && p == PtrTo(files[f].id, files[f].recs, i)
    && files[f].recs[i].key == k && files[f].recs[i].cell.Live?
  }

  /** The index points each key at the record that last put it, and no key that was last removed. */
  ghost predicate Sound(files: seq<DataFile>, st: Store, h: seq<Write>, k: Key) {
    && (k in st.index <==> Visible(Last(h, k)).Some?)
    && (k in st.index ==> exists f: nat, i: nat ::
       Holds(files, k, st.index[k], f, i) && Last(h, k) == Some(files[f].recs[i].cell))
  }

  lemma {:induction false} ReplayRecsSound(files: seq<DataFile>, f: nat, n: nat, st: Store, h: seq<Write>, k: Key)
    requires f < |files| && n <= |files[f].recs| && Sound(files, st, h, k)
    ensures Sound(files, ReplayRecs(files[f].id, files[f].recs, n, st), h + WritesOf(files[f].recs)[..n], k)
  {
    hide Last, Offset;
    var recs, w := files[f].recs, WritesOf(files[f].recs);
    if n == 0 {
      assert h + w[..0] == h;
    } else {
      ReplayRecsSound(files, f, n - 1, st, h, k);
      var r := recs[n - 1];
      assert h + w[..n] == (h + w[..n - 1]) + [w[n - 1]];
      LastPush(h + w[..n - 1], w[n - 1], k);
      if r.key == k && r.cell.Live? {
        assert Holds(files, k, PtrTo(files[f].id, recs, n - 1), f, n - 1);
      }
    }
  }

  lemma {:induction false} ReplaySound(files: seq<DataFile>, n: nat, k: Key)
    requires n <= |files|
    ensures Sound(files, ReplayFiles(files, n), WritesIn(files, n), k)
  {
    if n > 0 {
      ReplaySound(files, n - 1, k);
      var f := files[n - 1];
      ReplayRecsSound(files, n - 1, |f.recs|, ReplayFiles(files, n - 1), WritesIn(files, n - 1), k);
      assert WritesOf(f.recs)[..|f.recs|] == WritesOf(f.recs);
    }
  }

  /** Replay rebuilds an index over exactly the plain map: every live key, pointing at its value. */
  lemma IndexIsContents(files: seq<DataFile>, k: Key)
    ensures var st := Rebuilt(files);
            && (k in st.index <==> k in Contents(files))
            && (k in st.index ==> exists f: nat, i: nat ::
               Holds(files, k, st.index[k], f, i) && files[f].recs[i].cell == Live(Contents(files)[k]))
  {
    hide Last, PlainMap, ReplayFiles, WritesIn;
    ReplaySound(files, |files|, k);
    LastIsPlainMap(WritesIn(files, |files|), k);
    if k in Rebuilt(files).index {
      var f: nat, i: nat :| Holds(files, k, Rebuilt(files).index[k], f, i)
          && Last(WritesIn(files, |files|), k) == Some(files[f].recs[i].cell);
      assert Holds(files, k, Rebuilt(files).index[k], f, i) && files[f].recs[i].cell == Live(Contents(files)[k]);
    }
  }
}
