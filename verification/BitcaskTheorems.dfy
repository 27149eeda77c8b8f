/** Bitcask over whole runs of writes, compactions and crashes: it is a plain map, and it leaks no byte. */
module BitcaskTheorems {
  import opened Keys
  import opened Entries
  import opened History
  import opened Records
  import opened BitcaskFiles
  import opened BitcaskSpace
  import opened BitcaskMerge
  import opened BitcaskHints
  import opened BitcaskRuns

  /** An operation that touches the disk. */
  datatype Event = Wrote(rec: Rec) | Compacted

  /** An append to the active file, byte by byte. */
  function WriteFrom(d: Dir, r: Rec): seq<Dir>
    requires |d.files| >= 1
  {
    [d] + Partials(d, r) + [Appended(d, r)]
  }

  /** Compaction of a directory whose active file is empty. */
  function CompactFrom(d: Dir): seq<Dir>
    requires |d.files| >= 1
  {
    if NothingToMerge(d.files) then [d] else [d] + Merging(d)
  }

  /** Every directory an operation passes through, the one it starts from first. */
  function Passes(d: Dir, e: Event, maxFileSize: nat): (ps: seq<Dir>)
    requires |d.files| >= 1
    ensures |ps| >= 1
  {
    match e
    case Wrote(r) =>
      if !NeedsRotation(d, r, maxFileSize) then WriteFrom(d, r)
      else if Active(d).id >= MaxFileId then [d]
      else [d] + WriteFrom(Rotated(d), r)
    case Compacted =>
      if Active(d).recs == [] then CompactFrom(d)
      else if Active(d).id >= MaxFileId then [d]
      else [d] + CompactFrom(Rotated(d))
  }

  function Finish(d: Dir, e: Event, maxFileSize: nat): Dir
    requires |d.files| >= 1
  {
    Passes(d, e, maxFileSize)[|Passes(d, e, maxFileSize)| - 1]
  }

  /** The write an operation leaves behind if it stops at directory number c. */
  function Landed(d: Dir, e: Event, maxFileSize: nat, c: nat): seq<Write>
    requires |d.files| >= 1
  {
    if e.Wrote? && 0 < c && c == |Passes(d, e, maxFileSize)| - 1 then [Write(e.rec.key, e.rec.cell)] else []
  }

  // -- One operation ------------------------------------------------------------------------------

  lemma WriteStands(d: Dir, r: Rec, maxFileSize: nat, c: nat)
    requires Settled(d) && c < |Passes(d, Wrote(r), maxFileSize)|
    ensures Healthy(Passes(d, Wrote(r), maxFileSize)[c])
    ensures Contents(Passes(d, Wrote(r), maxFileSize)[c].files)
         == PlainMap(WritesIn(d.files, |d.files|) + Landed(d, Wrote(r), maxFileSize, c))
    ensures c == |Passes(d, Wrote(r), maxFileSize)| - 1 ==> Settled(Passes(d, Wrote(r), maxFileSize)[c])
  {
    hide WritesIn, PlainMap, Describes, Offset, WriteFrom, Rotated;
    var h := WritesIn(d.files, |d.files|);
    assert h + [] == h;
    if !NeedsRotation(d, r, maxFileSize) {
      WriteFromStands(d, r, c);
    } else if c > 0 {
      RotateKeeps(d);
      RotatedWrites(d);
      WriteFromStands(Rotated(d), r, c - 1);
      assert Passes(d, Wrote(r), maxFileSize)[c] == WriteFrom(Rotated(d), r)[c - 1];
    }
  }

  lemma WriteFromStands(d: Dir, r: Rec, c: nat)
    requires Settled(d) && c < |WriteFrom(d, r)|
    ensures |WriteFrom(d, r)| > 2 && Healthy(WriteFrom(d, r)[c])
    ensures c == |WriteFrom(d, r)| - 1 ==> Settled(WriteFrom(d, r)[c])
    ensures Contents(WriteFrom(d, r)[c].files)
         == PlainMap(WritesIn(d.files, |d.files|) + if c == |WriteFrom(d, r)| - 1 then [Write(r.key, r.cell)] else [])
  {
    hide WritesIn, PlainMap, Describes, Offset, Appended, Torn;
    var h := WritesIn(d.files, |d.files|);
    assert h + [] == h;
    TornKeeps(d, c);
    LandedHolds(d, r);
  }

  lemma LandedHolds(d: Dir, r: Rec)
    requires Settled(d)
    ensures Settled(Appended(d, r))
    ensures Contents(Appended(d, r).files) == PlainMap(WritesIn(d.files, |d.files|) + [Write(r.key, r.cell)])
  {
    AppendSettles(d, r);
    AppendWrites(d, r);
  }

  lemma RotatedWrites(d: Dir)
    requires |d.files| >= 1
    ensures WritesIn(Rotated(d).files, |Rotated(d).files|) == WritesIn(d.files, |d.files|)
  {
    var next := DataFile(Active(d).id + 1, [], 0);
    WritesInConcat(d.files, [next]);
    OneFile(next);
  }

  lemma CompactStands(d: Dir, maxFileSize: nat, c: nat)
    requires Settled(d) && c < |Passes(d, Compacted, maxFileSize)|
    ensures Stands(d, Passes(d, Compacted, maxFileSize)[c])
    ensures c == |Passes(d, Compacted, maxFileSize)| - 1 ==> Settled(Passes(d, Compacted, maxFileSize)[c])
  {
    hide Merging, Describes, Contents, Rebuilt, NothingToMerge, Rotated;
    RotateKeeps(d);
    if Active(d).recs == [] {
      CompactFromStands(d, c);
    } else if c > 0 && Active(d).id < MaxFileId {
      CompactFromStands(Rotated(d), c - 1);
      assert Passes(d, Compacted, maxFileSize)[c] == CompactFrom(Rotated(d))[c - 1];
    }
  }

  lemma CompactFromStands(d: Dir, c: nat)
    requires Settled(d) && Active(d).recs == [] && c < |CompactFrom(d)|
    ensures Stands(d, CompactFrom(d)[c])
    ensures c == |CompactFrom(d)| - 1 ==> Settled(CompactFrom(d)[c])
  {
    hide Merging, Describes, Contents, Rebuilt;
    if c > 0 {
      MergingStands(d, c - 1);
      MergingEnds(d);
    }
  }

  /** The last directory of a merge: the merged file, the empty active one, and one hint beside them. */
  lemma MergingEnds(d: Dir)
    requires |d.files| >= 2
    ensures var last := Merging(d)[|Merging(d)| - 1];
            && last == Deleted(d, |d.files| - 1, |d.files| - 1)
            && (Settled(d) && Healthy(last) ==> Settled(last))
  {
    hide Describes, Merged, HintOf, Ids;
    var n := |d.files| - 1;
    assert n > 1 ==> Deleting(d, n)[|Deleting(d, n)| - 1] == Deleted(d, n, n);
  }

  // -- Runs ------------------------------------------------------------------------------------------

  /** An operation; the directory it got to before the process died, if it did; and then where each
      recovery that died in its turn had got to. */
  datatype Step = Step(event: Event, crash: Option<nat>, cleanUps: seq<Dir>)

  /** From d on, one recovery after another is cut short. */
  ghost predicate CutShort(d: Dir, cleanUps: seq<Dir>)
    decreases |cleanUps|
  {
    cleanUps == [] ||
    ((PartlyReopened(d, cleanUps[0]) || cleanUps[0] == Reopened(d)) && CutShort(cleanUps[0], cleanUps[1..]))
  }

  function LeftBy(d: Dir, cleanUps: seq<Dir>): Dir {
    if cleanUps == [] then d else cleanUps[|cleanUps| - 1]
  }

  /** However many recoveries are cut short, the one that is not ends where the first would have. */
  lemma {:induction false} CutShortIsNoMatter(d: Dir, cleanUps: seq<Dir>)
    requires Healthy(d) && CutShort(d, cleanUps)
    ensures Healthy(LeftBy(d, cleanUps)) && Reopened(LeftBy(d, cleanUps)) == Reopened(d)
    decreases |cleanUps|
  {
    hide Healthy, PartlyReopened, Reopened;
    if cleanUps != [] {
      RecoveryRestarts(d, cleanUps[0]);
      CutShortIsNoMatter(cleanUps[0], cleanUps[1..]);
      assert LeftBy(cleanUps[0], cleanUps[1..]) == LeftBy(d, cleanUps);
    }
  }

  /** From d, holding the writes h: finish, or die somewhere inside and reopen, at whatever attempt. */
  ghost predicate Next(d: Dir, h: seq<Write>, s: Step, maxFileSize: nat, e: Dir, g: seq<Write>)
    requires |d.files| >= 1
  {
    var ps := Passes(d, s.event, maxFileSize);
    match s.crash
    case None => e == Finish(d, s.event, maxFileSize) && g == h + Landed(d, s.event, maxFileSize, |ps| - 1)
    case Some(c) =>
      c < |ps| && CutShort(ps[c], s.cleanUps) && e == Reopened(LeftBy(ps[c], s.cleanUps))
      && g == h + Landed(d, s.event, maxFileSize, c)
  }

  /** Steps taken from an empty directory, with the directory and the surviving writes after each. */
  ghost predicate Execution(dirs: seq<Dir>, logs: seq<seq<Write>>, steps: seq<Step>, maxFileSize: nat) {
    && |dirs| == |logs| == |steps| + 1
    && dirs[0] == Reopened(Nothing) && logs[0] == []
    && forall i :: 0 <= i < |steps| ==>
       |dirs[i].files| >= 1 && Next(dirs[i], logs[i], steps[i], maxFileSize, dirs[i + 1], logs[i + 1])
  }

  lemma SameMapMore(a: seq<Write>, b: seq<Write>, w: seq<Write>)
    requires PlainMap(a) == PlainMap(b) && |w| <= 1
    ensures PlainMap(a + w) == PlainMap(b + w)
  {
    if w == [] {
      assert a + w == a && b + w == b;
    } else {
      assert (a + w)[..|a|] == a && (b + w)[..|b|] == b;
    }
  }

  /** Wherever an operation stops, reopening finds exactly the writes that landed. */
  lemma NextHolds(d: Dir, h: seq<Write>, s: Step, maxFileSize: nat, e: Dir, g: seq<Write>)
    requires Settled(d) && Contents(d.files) == PlainMap(h) && Next(d, h, s, maxFileSize, e, g)
    ensures Settled(e) && Contents(e.files) == PlainMap(g)
  {
    hide Passes, PlainMap, WritesIn, Describes, Reopened, CutShort, LeftBy;
    var ps := Passes(d, s.event, maxFileSize);
    var c := if s.crash.None? then |ps| - 1 else s.crash.value;
    var w := Landed(d, s.event, maxFileSize, c);
    SameMapMore(WritesIn(d.files, |d.files|), h, w);
    if s.event.Wrote? {
      WriteStands(d, s.event.rec, maxFileSize, c);
    } else {
      CompactStands(d, maxFileSize, c);
      assert WritesIn(d.files, |d.files|) + [] == WritesIn(d.files, |d.files|);
    }
    ReopenKeeps(ps[c]);
    if s.crash.Some? {
      CutShortIsNoMatter(ps[c], s.cleanUps);
    }
  }

  /**
   * A Bitcask is a plain map: after any run of puts, removes and compactions, each finished or cut
   * short anywhere and reopened, with the reopening itself cut short any number of times, it holds
   * exactly the writes that landed, and no others.
   */
  lemma {:induction false} BitcaskIsPlainMap(dirs: seq<Dir>, logs: seq<seq<Write>>, steps: seq<Step>,
      maxFileSize: nat, n: nat)
    requires Execution(dirs, logs, steps, maxFileSize) && n <= |steps|
    ensures Settled(dirs[n]) && Contents(dirs[n].files) == PlainMap(logs[n])
  {
    hide Next, PlainMap, Contents, Settled, Reopened;
    if n == 0 {
      EmptyStart();
    } else {
      BitcaskIsPlainMap(dirs, logs, steps, maxFileSize, n - 1);
      NextHolds(dirs[n - 1], logs[n - 1], steps[n - 1], maxFileSize, dirs[n], logs[n]);
    }
  }

  lemma EmptyStart()
    ensures Settled(Reopened(Nothing)) && Contents(Reopened(Nothing).files) == PlainMap([])
  {
    var file := DataFile(FirstFileId, [], 0);
    OneFile(file);
    assert Reopened(Nothing).files == [file];
  }

  /** At every point of every run, recovery by hints rebuilds the index and dead counts of a full replay. */
  lemma RecoveryIsReplay(dirs: seq<Dir>, logs: seq<seq<Write>>, steps: seq<Step>, maxFileSize: nat, n: nat)
    requires Execution(dirs, logs, steps, maxFileSize) && n <= |steps|
    ensures Recovered(dirs[n], |dirs[n].files|) == Rebuilt(dirs[n].files)
  {
    hide Next, ReplayFiles, Contents;
    BitcaskIsPlainMap(dirs, logs, steps, maxFileSize, n);
    HintsChangeNothing(dirs[n], |dirs[n].files|);
  }

  // -- Space --------------------------------------------------------------------------------------------

  function Reclaimable(files: seq<DataFile>): nat {
    TotalDead(files, |files|, Rebuilt(files).dead)
  }

  function DiskSize(files: seq<DataFile>): nat {
    TotalSize(files, |files|)
  }

  lemma {:induction false} TotalsSame(a: seq<DataFile>, b: seq<DataFile>, n: nat, dead: map<nat, nat>)
    requires n <= |a| && n <= |b| && forall i :: 0 <= i < n ==> a[i] == b[i]
    ensures TotalSize(a, n) == TotalSize(b, n) && TotalDead(a, n, dead) == TotalDead(b, n, dead)
  {
    hide Offset, Dead;
    if n > 0 {
      TotalsSame(a, b, n - 1, dead);
    }
  }

  lemma RotateSpace(d: Dir)
    requires Settled(d)
    ensures DiskSize(Rotated(d).files) == DiskSize(d.files) && Reclaimable(Rotated(d).files) == Reclaimable(d.files)
  {
    hide Describes, ReplayFiles, LiveIn;
    RotateKeeps(d);
    var n, files := |d.files|, Rotated(d).files;
    TotalsSame(d.files, files, n, Rebuilt(d.files).dead);
    EveryByteCounted(files, n);
    assert files[n].recs == [];
  }

  lemma MergeSpace(d: Dir)
    requires Settled(d) && |d.files| >= 2 && Active(d).recs == []
    ensures var e := Deleted(d, |d.files| - 1, |d.files| - 1);
            DiskSize(e.files) + Reclaimable(d.files) == DiskSize(d.files) && Reclaimable(e.files) == 0
  {
    hide Describes, ReplayFiles, Copied;
    var n := |d.files| - 1;
    var e := Deleted(d, n, n);
    AdoptedIsRebuilt(d.files);
    CopiedSize(d.files, Rebuilt(d.files).index, n);
    SpaceIsConserved(d.files);
    assert e.files == [DataFile(d.files[0].id, Merged(d), 0), d.files[n]];
    TwoTotals(e.files, map[]);
    assert TotalLive(d.files, n + 1, Rebuilt(d.files).index) == TotalLive(d.files, n, Rebuilt(d.files).index);
  }

  lemma TwoTotals(files: seq<DataFile>, dead: map<nat, nat>)
    requires |files| == 2
    ensures TotalSize(files, 2) == FileSize(files[0].recs) + FileSize(files[1].recs)
    ensures TotalDead(files, 2, dead) == Dead(dead, files[0].id) + Dead(dead, files[1].id)
  {
    assert TotalSize(files, 0) == 0 && TotalDead(files, 0, dead) == 0;
    assert TotalSize(files, 1) == FileSize(files[0].recs) && TotalDead(files, 1, dead) == Dead(dead, files[0].id);
  }

  lemma NothingToReclaim(d: Dir)
    requires Settled(d) && Active(d).recs == [] && NothingToMerge(d.files)
    ensures Reclaimable(d.files) == 0
  {
    hide Describes, ReplayFiles, LiveIn;
    EveryByteCounted(d.files, |d.files| - 1);
    if |d.files| == 2 {
      TwoTotals(d.files, Rebuilt(d.files).dead);
    } else {
      assert TotalDead(d.files, 0, Rebuilt(d.files).dead) == 0;
    }
  }

  /** A compaction that gets to run shrinks the disk by exactly the reclaimable bytes and leaves none. */
  lemma CompactReclaims(d: Dir, maxFileSize: nat)
    requires Settled(d) && (Active(d).recs == [] || Active(d).id < MaxFileId)
    ensures var e := Finish(d, Compacted, maxFileSize);
            DiskSize(e.files) + Reclaimable(d.files) == DiskSize(d.files) && Reclaimable(e.files) == 0
  {
    hide Describes, DiskSize, Reclaimable, NothingToMerge, Merging, Rotated, Deleted;
    var base := if Active(d).recs == [] then d else Rotated(d);
    RotateKeeps(d);
    RotateSpace(d);
    if NothingToMerge(base.files) {
      NothingToReclaim(base);
    } else {
      CompactFromEnds(base);
      MergeSpace(base);
    }
  }

  lemma CompactFromEnds(d: Dir)
    requires |d.files| >= 1 && !NothingToMerge(d.files)
    ensures |d.files| >= 2
    ensures CompactFrom(d)[|CompactFrom(d)| - 1] == Deleted(d, |d.files| - 1, |d.files| - 1)
  {
    hide Deleted, Rebuilt;
    MergingEnds(d);
  }
}
