/** Every byte of every data file is either the record its key's pointer names, or counted dead. */
module BitcaskSpace {
  import opened Keys
  import opened Entries
  import opened History
  import opened Records
  import opened BitcaskFiles

  /** Record i is live: a put, and its key's pointer names this file and this offset. */
  predicate IsLive(index: map<Key, Ptr>, id: nat, recs: seq<Rec>, i: nat)
    requires i < |recs|
  {
    && recs[i].cell.Live? && recs[i].key in index
    && index[recs[i].key].file == id && index[recs[i].key].offset == Offset(recs, i)
  }

  /** Live bytes among the first n records of a file. */
  function LiveIn(index: map<Key, Ptr>, id: nat, recs: seq<Rec>, n: nat): nat
    requires n <= |recs|
  {
    if n == 0 then 0
    else LiveIn(index, id, recs, n - 1) + if IsLive(index, id, recs, n - 1) then RecSize(recs[n - 1]) else 0
  }

  function TotalSize(files: seq<DataFile>, n: nat): nat
    requires n <= |files|
  {
    if n == 0 then 0 else TotalSize(files, n - 1) + FileSize(files[n - 1].recs)
  }

  function TotalLive(files: seq<DataFile>, n: nat, index: map<Key, Ptr>): nat
    requires n <= |files|
  {
    if n == 0 then 0
    else TotalLive(files, n - 1, index) + LiveIn(index, files[n - 1].id, files[n - 1].recs, |files[n - 1].recs|)
  }

  function TotalDead(files: seq<DataFile>, n: nat, dead: map<nat, nat>): nat
    requires n <= |files|
  {
    if n == 0 then 0 else TotalDead(files, n - 1, dead) + Dead(dead, files[n - 1].id)
  }

  // -- How live bytes move with the index -------------------------------------------------------

  lemma {:induction false} LiveSame(a: map<Key, Ptr>, b: map<Key, Ptr>, id: nat, recs: seq<Rec>, n: nat)
    requires n <= |recs| && forall i :: 0 <= i < n ==> (IsLive(a, id, recs, i) <==> IsLive(b, id, recs, i))
    ensures LiveIn(a, id, recs, n) == LiveIn(b, id, recs, n)
  {
    hide Offset, IsLive;
    if n > 0 {
      LiveSame(a, b, id, recs, n - 1);
    }
  }

  lemma {:induction false} LiveLess(a: map<Key, Ptr>, b: map<Key, Ptr>, id: nat, recs: seq<Rec>, n: nat, i: nat)
    requires i < n <= |recs| && IsLive(a, id, recs, i) && !IsLive(b, id, recs, i)
    requires forall j :: 0 <= j < n && j != i ==> (IsLive(a, id, recs, j) <==> IsLive(b, id, recs, j))
    ensures LiveIn(a, id, recs, n) == LiveIn(b, id, recs, n) + RecSize(recs[i])
  {
    hide Offset, IsLive;
    if i == n - 1 {
      LiveSame(a, b, id, recs, n - 1);
    } else {
      LiveLess(a, b, id, recs, n - 1, i);
    }
  }

  /** k's pointer, if any, names a record of k before record n of file f. */
  ghost predicate Placed(files: seq<DataFile>, f: nat, n: nat, index: map<Key, Ptr>, k: Key) {
    k in index ==> exists g: nat, i: nat :: Holds(files, k, index[k], g, i) && (g < f || (g == f && i < n))
  }

  /** The first n records of a file are fully accounted for: live plus dead. */
  ghost predicate Balanced(file: DataFile, n: nat, st: Store)
    requires n <= |file.recs|
  {
    Offset(file.recs, n) == LiveIn(st.index, file.id, file.recs, n) + Dead(st.dead, file.id)
  }

  /** Dropping k from the index moves its record's bytes from live to dead, in its own file only. */
  lemma BuryKeeps(file: DataFile, n: nat, st: Store, k: Key, files: seq<DataFile>, g: nat, i: nat)
    requires n <= |file.recs| && Balanced(file, n, st) && Ascending(files)
    requires k in st.index && Holds(files, k, st.index[k], g, i)
    requires exists f :: 0 <= f < |files| && files[f] == file && (f == g ==> i < n)
    ensures Balanced(file, n, Store(st.index - {k}, Bury(st, k)))
  {
    var f :| 0 <= f < |files| && files[f] == file && (f == g ==> i < n);
    var less := st.index - {k};
    if f == g {
      forall j | 0 <= j < n && j != i ensures IsLive(st.index, file.id, file.recs, j) <==>
          IsLive(less, file.id, file.recs, j) {
        if file.recs[j].key == k && IsLive(st.index, file.id, file.recs, j) {
          OffsetsDiffer(file.recs, i, j);
        }
      }
      LiveLess(st.index, less, file.id, file.recs, n, i);
    } else {
      assert files[f].id != files[g].id;
      LiveSame(st.index, less, file.id, file.recs, n);
    }
  }

  /** Pointing k at record n leaves earlier records as they were. */
  lemma PointKeeps(file: DataFile, n: nat, st: Store, k: Key, p: Ptr)
    requires n <= |file.recs| && Balanced(file, n, st) && k !in st.index
    requires p.file == file.id ==> forall j :: 0 <= j < n ==> Offset(file.recs, j) != p.offset
    ensures Balanced(file, n, Store(st.index[k := p], st.dead))
  {
    LiveSame(st.index, st.index[k := p], file.id, file.recs, n);
  }

  /** Forgetting k, whether or not it was indexed, keeps a file balanced. */
  lemma ForgetKeeps(files: seq<DataFile>, f: nat, n: nat, h: nat, m: nat, st: Store, k: Key)
    requires f < |files| && n <= |files[f].recs| && Ascending(files) && Placed(files, f, n, st.index, k)
    requires h < |files| && m == (if h < f then |files[h].recs| else if h == f then n else 0)
    requires Balanced(files[h], m, st)
    ensures Balanced(files[h], m, Store(st.index - {k}, Bury(st, k)))
  {
    hide Offset, LiveIn;
    if k in st.index {
      var g: nat, i: nat :| Holds(files, k, st.index[k], g, i) && (g < f || (g == f && i < n));
      if h <= f {
        BuryKeeps(files[h], m, st, k, files, g, i);
      } else {
        assert files[g].id != files[h].id;
        EmptyBalance(files[h], st, st.index - {k});
      }
    } else {
      assert st.index - {k} == st.index;
    }
  }

  lemma EmptyBalance(file: DataFile, st: Store, index: map<Key, Ptr>)
    ensures Balanced(file, 0, st) <==> Dead(st.dead, file.id) == 0
    ensures Balanced(file, 0, Store(index, st.dead)) <==> Dead(st.dead, file.id) == 0
  {
  }

  /** Replaying one more record keeps every byte accounted for. */
  lemma ApplyKeeps(files: seq<DataFile>, f: nat, n: nat, h: nat, m: nat, st: Store)
    requires f < |files| && n < |files[f].recs| && Ascending(files)
    requires Placed(files, f, n, st.index, files[f].recs[n].key)
    requires h < |files| && m == (if h < f then |files[h].recs| else if h == f then n else 0)
    requires Balanced(files[h], m, st)
    ensures Balanced(files[h], if h == f then n + 1 else m,
                     Apply(st, PtrTo(files[f].id, files[f].recs, n), files[f].recs[n]))
  {
    var r, p := files[f].recs[n], PtrTo(files[f].id, files[f].recs, n);
    ForgetKeeps(files, f, n, h, m, st, r.key);
    var forgot := Store(st.index - {r.key}, Bury(st, r.key));
    assert h != f ==> files[h].id != files[f].id;
    if r.cell.Live? {
      forall j | 0 <= j < n ensures Offset(files[f].recs, j) != p.offset {
        OffsetsIncrease(files[f].recs, j, n);
      }
      PointKeeps(files[h], m, forgot, r.key, p);
      assert forgot.index[r.key := p] == st.index[r.key := p];
    }
  }

  lemma {:induction false} ReplayConserves(files: seq<DataFile>, f: nat, n: nat, h: nat)
    requires f < |files| && n <= |files[f].recs| && Ascending(files) && h < |files|
    ensures Balanced(files[h], if h < f then |files[h].recs| else if h == f then n else 0,
                     ReplayRecs(files[f].id, files[f].recs, n, ReplayFiles(files, f)))
    decreases f, n
  {
    if n > 0 {
      ReplayConserves(files, f, n - 1, h);
      ReplayPlaces(files, f, n - 1, files[f].recs[n - 1].key);
      hide ReplayFiles, Offset, LiveIn, Apply;
      ApplyKeeps(files, f, n - 1, h, if h < f then |files[h].recs| else if h == f then n - 1 else 0,
                 ReplayRecs(files[f].id, files[f].recs, n - 1, ReplayFiles(files, f)));
    } else if f > 0 {
      ReplayConserves(files, f - 1, |files[f - 1].recs|, h);
    }
  }

  lemma {:induction false} ReplayPlaces(files: seq<DataFile>, f: nat, n: nat, k: Key)
    requires f < |files| && n <= |files[f].recs|
    ensures Placed(files, f, n, ReplayRecs(files[f].id, files[f].recs, n, ReplayFiles(files, f)).index, k)
    decreases f, n
  {
    hide Offset;
    if n > 0 {
      ReplayPlaces(files, f, n - 1, k);
      if files[f].recs[n - 1].key == k && files[f].recs[n - 1].cell.Live? {
        assert Holds(files, k, PtrTo(files[f].id, files[f].recs, n - 1), f, n - 1);
      }
    } else if f > 0 {
      ReplayPlaces(files, f - 1, |files[f - 1].recs|, k);
    }
  }

  /** After a replay, each file's size is its live bytes plus the bytes counted dead in it. */
  lemma EveryByteCounted(files: seq<DataFile>, h: nat)
    requires Ascending(files) && h < |files|
    ensures FileSize(files[h].recs)
         == LiveIn(Rebuilt(files).index, files[h].id, files[h].recs, |files[h].recs|)
             + Dead(Rebuilt(files).dead, files[h].id)
  {
    var f := |files| - 1;
    ReplayConserves(files, f, |files[f].recs|, h);
    assert Rebuilt(files) == ReplayRecs(files[f].id, files[f].recs, |files[f].recs|, ReplayFiles(files, f));
  }

  lemma {:induction false} TotalsUpTo(files: seq<DataFile>, n: nat)
    requires Ascending(files) && n <= |files|
    ensures TotalSize(files, n) == TotalLive(files, n, Rebuilt(files).index) + TotalDead(files, n, Rebuilt(files).dead)
  {
    hide Offset, LiveIn, ReplayFiles, Dead;
    if n > 0 {
      TotalsUpTo(files, n - 1);
      EveryByteCounted(files, n - 1);
    }
  }

  /** Conservation: the bytes on disk are the live bytes plus the reclaimable ones. */
  lemma SpaceIsConserved(files: seq<DataFile>)
    requires Ascending(files)
    ensures TotalSize(files, |files|)
         == TotalLive(files, |files|, Rebuilt(files).index) + TotalDead(files, |files|, Rebuilt(files).dead)
  {
    TotalsUpTo(files, |files|);
  }
}
