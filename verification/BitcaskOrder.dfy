/** Which ways of installing a merge and deleting its inputs are safe: exactly one order. */
module BitcaskOrder {
  import opened Keys
  import opened Entries
  import opened History
  import opened Records
  import opened BitcaskFiles
  import opened BitcaskSpace
  import opened BitcaskMerge
  import opened BitcaskHints
  import opened BitcaskRuns

  /** n inputs, oldest first, and the empty active file. */
  predicate Mergeable(files: seq<DataFile>, n: nat) {
    |files| == n + 1 && Ascending(files) && files[n].recs == []
  }

  function MergeOf(files: seq<DataFile>, n: nat): seq<Rec>
    requires Mergeable(files, n)
  {
    Copied(files, Rebuilt(files).index, n)
  }

  /** The first q files with the output in the place of input m and the inputs in d deleted. */
  function Remaining(files: seq<DataFile>, merged: seq<Rec>, m: nat, d: set<nat>, q: nat): seq<DataFile>
    requires q <= |files|
  {
    if q == 0 then []
    else
      var before := Remaining(files, merged, m, d, q - 1);
      if q - 1 == m then before + [DataFile(files[m].id, merged, 0)]
      else if q - 1 in d then before
      else before + [files[q - 1]]
  }

  /** Every file older than one that is gone is gone too. */
  predicate OldestFirst(gone: set<nat>) {
    forall i, j: nat :: i in gone && j < i ==> j in gone
  }

  /** With the output over input m and inputs d deleted, whatever the inputs hold, replay finds what it did before. */
  ghost predicate Safe(n: nat, m: nat, d: set<nat>)
    requires m < n
  {
    forall files :: Mergeable(files, n) ==>
      Contents(Remaining(files, MergeOf(files, n), m, d, n + 1)) == Contents(files)
  }

  // -- Oldest first is safe ---------------------------------------------------------------------------

  lemma {:induction false} RemainingTail(files: seq<DataFile>, merged: seq<Rec>, m: nat, d: set<nat>, g: nat, q: nat)
    requires q <= |files| && m < g <= |files| && m !in d
    requires forall i: nat :: i < g && i != m ==> i in d
    requires forall i: nat :: i in d ==> i < g
    ensures Remaining(files, merged, m, d, q)
         == (if q <= m then [] else [DataFile(files[m].id, merged, 0)]) + (if q <= g then [] else files[g..q])
  {
    if q > 0 {
      RemainingTail(files, merged, m, d, g, q - 1);
      if q > g {
        assert files[g..q] == (if q - 1 <= g then [] else files[g..q - 1]) + [files[q - 1]];
      }
    }
  }

  /** What is gone, if oldest first, is the inputs below some number. */
  lemma {:induction false} GoneIsPrefix(gone: set<nat>, n: nat) returns (g: nat)
    requires OldestFirst(gone) && (forall i :: i in gone ==> i < n)
    ensures g <= n && forall i: nat :: i in gone <==> i < g
  {
    if n == 0 {
      g := 0;
    } else if n - 1 in gone {
      g := n;
    } else {
      g := GoneIsPrefix(gone, n - 1);
    }
  }

  lemma OldestFirstIsSafe(files: seq<DataFile>, n: nat, m: nat, d: set<nat>)
    requires m < n && m !in d && (forall i :: i in d ==> i < n) && OldestFirst(d + {m}) && Mergeable(files, n)
    ensures Contents(Remaining(files, MergeOf(files, n), m, d, n + 1)) == Contents(files)
  {
    hide Contents, Rebuilt, Copied;
    var g := GoneIsPrefix(d + {m}, n);
    assert m in d + {m};
    forall i: nat | i < g && i != m ensures i in d {
      assert i in d + {m};
    }
    var merged := MergeOf(files, n);
    RemainingTail(files, merged, m, d, g, n + 1);
    PartwayContents(files, g);
    assert files[g..n + 1] == files[g..];
    SameContents(Remaining(files, merged, m, d, n + 1), Partway(files, merged, g));
  }

  // -- Any other order is not -------------------------------------------------------------------------------

  /** A key put in one file and removed in a later one, and nothing else anywhere. */
  function Witness(j: nat, i: nat, q: nat): DataFile {
    DataFile(q + 1, if q == j then [Rec([1], Live([]), 0)] else if q == i then [Rec([1], Tombstone, 0)] else [], 0)
  }

  function Witnesses(n: nat, j: nat, i: nat): (files: seq<DataFile>)
    ensures |files| == n + 1 && forall q :: 0 <= q <= n ==> files[q] == Witness(j, i, q)
  {
    seq(n + 1, q requires 0 <= q <= n => Witness(j, i, q))
  }

  const ThePut: Write := Write([1], Live([]))
  const TheRemove: Write := Write([1], Tombstone)

  lemma {:induction false} WitnessWrites(n: nat, j: nat, i: nat, q: nat)
    requires j < i < n && q <= n + 1
    ensures WritesIn(Witnesses(n, j, i), q) == (if q > j then [ThePut] else []) + (if q > i then [TheRemove] else [])
  {
    if q > 0 {
      WitnessWrites(n, j, i, q - 1);
      var f := Witness(j, i, q - 1);
      assert WritesOf(f.recs) == if q - 1 == j then [ThePut] else if q - 1 == i then [TheRemove] else [];
    }
  }

  lemma WitnessIsGone(n: nat, j: nat, i: nat)
    requires j < i < n
    ensures [1] !in Contents(Witnesses(n, j, i))
  {
    hide WritesIn, PlainMap, Witnesses;
    WitnessWrites(n, j, i, n + 1);
    PlainPush([ThePut], TheRemove);
  }

  /** Nothing live, so nothing copied. */
  lemma WitnessMerge(n: nat, j: nat, i: nat)
    requires j < i < n
    ensures Mergeable(Witnesses(n, j, i), n) && MergeOf(Witnesses(n, j, i), n) == []
  {
    hide Contents, Rebuilt, Copied, Witnesses;
    var files := Witnesses(n, j, i);
    WitnessIsGone(n, j, i);
    IndexIsContents(files, [1]);
    if Copied(files, Rebuilt(files).index, n) != [] {
      CopiedAre(Rebuilt(files).index, files, n, 0);
      assert false;
    }
  }

  lemma {:induction false} WitnessRemaining(n: nat, m: nat, d: set<nat>, j: nat, i: nat, q: nat)
    requires j < i < n && m < n && j !in d && j != m && (i in d || i == m) && q <= n + 1
    ensures var left := Remaining(Witnesses(n, j, i), [], m, d, q);
            WritesIn(left, |left|) == if q > j then [ThePut] else []
  {
    hide WritesIn, Witnesses;
    var files := Witnesses(n, j, i);
    if q == 0 {
      NoWrites([]);
    } else {
      WitnessRemaining(n, m, d, j, i, q - 1);
      var before := Remaining(files, [], m, d, q - 1);
      if q - 1 == m || q - 1 !in d {
        OneMore(before, if q - 1 == m then DataFile(files[m].id, [], 0) else files[q - 1],
                if q - 1 == j then [ThePut] else []);
      }
    }
  }

  lemma OneMore(before: seq<DataFile>, file: DataFile, ws: seq<Write>)
    requires WritesOf(file.recs) == ws
    ensures WritesIn(before + [file], |before| + 1) == WritesIn(before, |before|) + ws
  {
    hide WritesIn, WritesOf;
    WritesInConcat(before, [file]);
    OneFile(file);
  }

  lemma WitnessResurrects(n: nat, m: nat, d: set<nat>, j: nat, i: nat)
    requires m < n && j < i < n && j !in d + {m} && i in d + {m}
    ensures [1] in Contents(Remaining(Witnesses(n, j, i), [], m, d, n + 1))
  {
    hide Remaining, WritesIn, Witness;
    WitnessRemaining(n, m, d, j, i, n + 1);
    PlainPush([], ThePut);
    assert [] + [ThePut] == [ThePut];
  }

  /** Leave a put and lose the remove after it, and the key comes back. */
  lemma OtherOrdersResurrect(n: nat, m: nat, d: set<nat>, j: nat, i: nat)
    requires m < n && j < i < n && j !in d + {m} && i in d + {m}
    ensures !Safe(n, m, d)
  {
    hide Contents, Remaining, MergeOf, Mergeable, Witnesses;
    var files := Witnesses(n, j, i);
    WitnessMerge(n, j, i);
    WitnessIsGone(n, j, i);
    WitnessResurrects(n, m, d, j, i);
    assert Contents(Remaining(files, MergeOf(files, n), m, d, n + 1)) != Contents(files);
  }

  /**
   * The rule, exactly: with the output in the place of input m and inputs d deleted, every possible
   * content of the inputs survives if and only if no surviving input is older than one that is gone.
   * So the output may go over the oldest input and no other, and inputs may be deleted oldest first
   * and in no other order.
   */
  lemma SafeIffOldestFirst(n: nat, m: nat, d: set<nat>)
    requires m < n && m !in d && forall i :: i in d ==> i < n
    ensures Safe(n, m, d) <==> OldestFirst(d + {m})
  {
    hide Contents, Remaining, MergeOf;
    if OldestFirst(d + {m}) {
      forall files | Mergeable(files, n) ensures Contents(Remaining(files, MergeOf(files, n), m, d, n + 1))
          == Contents(files) {
        OldestFirstIsSafe(files, n, m, d);
      }
    } else {
      var i, j: nat :| i in d + {m} && j < i && j !in d + {m};
      OtherOrdersResurrect(n, m, d, j, i);
    }
  }
}
