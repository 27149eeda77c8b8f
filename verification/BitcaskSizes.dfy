/** How large data files get, over whole runs: a record starts a new file exactly when it would not fit the old one,
    so no file but a merged one outgrows the limit, unless by a single record. */
module BitcaskSizes {
  import opened Keys
  import opened Entries
  import opened History
  import opened Records
  import opened BitcaskFiles
  import opened BitcaskSpace
  import opened BitcaskMerge
  import opened BitcaskHints
  import opened BitcaskRuns
  import opened BitcaskTheorems

  lemma WriteEnds(d: Dir, r: Rec, maxFileSize: nat)
    requires |d.files| >= 1
    ensures Finish(d, Wrote(r), maxFileSize)
         == if !NeedsRotation(d, r, maxFileSize) then Appended(d, r)
            else if Active(d).id < MaxFileId then Appended(Rotated(d), r) else d
  {
    hide NeedsRotation, Appended, Partials;
  }

  /**
   * Where a finished write puts its record: alone in a file under the next id if the active file had something in it
   * and the record would take it past the limit, and at the end of the active file otherwise.
   */
  lemma WriteGoesWhereItFits(d: Dir, r: Rec, maxFileSize: nat)
    requires |d.files| >= 1
    ensures var a, files := Active(d), Finish(d, Wrote(r), maxFileSize).files;
            if FileSize(a.recs) == 0 || FileSize(a.recs) + RecSize(r) <= maxFileSize
            then files == d.files[..|d.files| - 1] + [a.(recs := a.recs + [r])]
            else if a.id < MaxFileId then files == d.files + [DataFile(a.id + 1, [r], 0)]
            else files == d.files
  {
    hide Offset, Finish, RecSize;
    WriteEnds(d, r, maxFileSize);
    assert Rotated(d).files[..|d.files|] == d.files;
    assert [] + [r] == [r];
  }

  /** Within the limit, or a single record. */
  predicate Within(file: DataFile, maxFileSize: nat) {
    FileSize(file.recs) <= maxFileSize || |file.recs| <= 1
  }

  /** A merge writes over the first file, and never over the last. */
  ghost predicate Limited(d: Dir, maxFileSize: nat, merged: bool) {
    && |d.files| >= 1
    && (forall i :: 0 < i < |d.files| ==> Within(d.files[i], maxFileSize))
    && (!merged || |d.files| == 1 ==> Within(d.files[0], maxFileSize))
  }

  lemma OneRecord(recs: seq<Rec>, r: Rec)
    ensures FileSize(recs) == 0 ==> recs == []
    ensures FileSize(recs + [r]) == FileSize(recs) + RecSize(r)
  {
    hide RecSize;
    OffsetSame(recs, recs + [r], |recs|);
    if recs != [] {
      OffsetsIncrease(recs, 0, |recs|);
    }
  }

  lemma AppendLimited(d: Dir, r: Rec, maxFileSize: nat, merged: bool)
    requires Limited(d, maxFileSize, merged)
    requires FileSize(Active(d).recs) == 0 || FileSize(Active(d).recs) + RecSize(r) <= maxFileSize
    ensures Limited(Appended(d, r), maxFileSize, merged)
  {
    hide Offset, RecSize;
    OneRecord(Active(d).recs, r);
    var a, e := Active(d), Appended(d, r);
    assert Within(a.(recs := a.recs + [r]), maxFileSize);
    forall i | 0 <= i < |e.files| - 1 ensures e.files[i] == d.files[i] {
    }
  }

  lemma WriteFromLimited(d: Dir, r: Rec, maxFileSize: nat, merged: bool, c: nat)
    requires Limited(d, maxFileSize, merged) && c < |WriteFrom(d, r)|
    requires FileSize(Active(d).recs) == 0 || FileSize(Active(d).recs) + RecSize(r) <= maxFileSize
    ensures Limited(WriteFrom(d, r)[c], maxFileSize, merged)
  {
    hide Offset, Appended;
    AppendLimited(d, r, maxFileSize, merged);
    if 0 < c < |WriteFrom(d, r)| - 1 {
      var e := Torn(d, c);
      assert WriteFrom(d, r)[c] == e;
      forall i | 0 <= i < |e.files| ensures e.files[i].recs == d.files[i].recs {
      }
    }
  }

  lemma {:induction false} DeletingLimited(d: Dir, j: nat, maxFileSize: nat, merged: bool, c: nat)
    requires Limited(d, maxFileSize, merged) && 1 <= j < |d.files| && c < |Deleting(d, j)|
    ensures Limited(Deleting(d, j)[c], maxFileSize, true)
  {
    hide Offset, Merged, HintsWith, Ids;
    if c < |Deleting(d, j)| - 2 {
      DeletingLimited(d, j - 1, maxFileSize, merged, c);
    } else {
      PartwayLimited(d, j, maxFileSize, merged);
    }
  }

  lemma PartwayLimited(d: Dir, j: nat, maxFileSize: nat, merged: bool)
    requires Limited(d, maxFileSize, merged) && 1 <= j < |d.files|
    ensures forall e: Dir :: e.files == Partway(d.files, Merged(d), j) ==> Limited(e, maxFileSize, true)
  {
    hide Offset, Merged;
    var files := Partway(d.files, Merged(d), j);
    forall i | 0 < i < |files| ensures Within(files[i], maxFileSize) {
      assert files[i] == d.files[j + i - 1];
    }
  }

  lemma CompactFromLimited(d: Dir, maxFileSize: nat, merged: bool, c: nat)
    requires Limited(d, maxFileSize, merged) && c < |CompactFrom(d)|
    ensures Limited(CompactFrom(d)[c], maxFileSize, true)
  {
    hide Offset, Merged, Deleting, Rebuilt, Dead, HintsWith, Ids, Within;
    if c >= 5 {
      DeletingLimited(d, |d.files| - 1, maxFileSize, merged, c - 5);
      assert CompactFrom(d)[c] == Deleting(d, |d.files| - 1)[c - 5];
    } else if c >= 3 {
      PartwayLimited(d, 1, maxFileSize, merged);
    }
  }

  lemma RotatedLimited(d: Dir, maxFileSize: nat, merged: bool)
    requires Limited(d, maxFileSize, merged)
    ensures Limited(Rotated(d), maxFileSize, merged) && FileSize(Active(Rotated(d)).recs) == 0
  {
    var e := Rotated(d);
    forall i | 0 <= i < |d.files| ensures e.files[i] == d.files[i] {
    }
  }

  lemma PassesLimited(d: Dir, e: Event, maxFileSize: nat, merged: bool, c: nat)
    requires Limited(d, maxFileSize, merged) && c < |Passes(d, e, maxFileSize)|
    ensures Limited(Passes(d, e, maxFileSize)[c], maxFileSize, merged || e.Compacted?)
  {
    hide Offset, WriteFrom, CompactFrom, Rotated, Within, RecSize;
    RotatedLimited(d, maxFileSize, merged);
    match e
    case Wrote(r) =>
      if !NeedsRotation(d, r, maxFileSize) {
        WriteFromLimited(d, r, maxFileSize, merged, c);
      } else if c > 0 {
        WriteFromLimited(Rotated(d), r, maxFileSize, merged, c - 1);
      }
    case Compacted =>
      if Active(d).recs == [] {
        CompactFromLimited(d, maxFileSize, merged, c);
      } else if c > 0 {
        CompactFromLimited(Rotated(d), maxFileSize, merged, c - 1);
      }
  }

  lemma ReopenLimited(d: Dir, maxFileSize: nat, merged: bool)
    requires Limited(d, maxFileSize, merged)
    ensures Limited(Reopened(d), maxFileSize, merged)
  {
    var e := Reopened(d);
    forall i | 0 <= i < |e.files| ensures e.files[i].recs == d.files[i].recs {
    }
  }

  lemma {:induction false} CutShortLimited(d: Dir, cleanUps: seq<Dir>, maxFileSize: nat, merged: bool)
    requires Limited(d, maxFileSize, merged) && CutShort(d, cleanUps)
    ensures Limited(LeftBy(d, cleanUps), maxFileSize, merged)
    decreases |cleanUps|
  {
    hide Within, Reopened;
    if cleanUps != [] {
      ReopenLimited(d, maxFileSize, merged);
      CutShortLimited(cleanUps[0], cleanUps[1..], maxFileSize, merged);
    }
  }

  function First(d: Dir): Option<DataFile> {
    if d.files == [] then None else Some(d.files[0])
  }

  lemma NextLimited(d: Dir, h: seq<Write>, s: Step, maxFileSize: nat, merged: bool, e: Dir, g: seq<Write>)
    requires Limited(d, maxFileSize, merged) && Next(d, h, s, maxFileSize, e, g)
    ensures Limited(e, maxFileSize, merged || (s.event.Compacted? && First(e) != First(d)))
  {
    hide Passes, Within, Reopened, CutShort, LeftBy, Landed;
    var ps := Passes(d, s.event, maxFileSize);
    var c := if s.crash.None? then |ps| - 1 else s.crash.value;
    PassesLimited(d, s.event, maxFileSize, merged, c);
    if s.crash.Some? {
      CutShortLimited(ps[c], s.cleanUps, maxFileSize, merged || s.event.Compacted?);
      ReopenLimited(LeftBy(ps[c], s.cleanUps), maxFileSize, merged || s.event.Compacted?);
    }
  }

  /** Some compaction so far has written its output over the first file. */
  ghost predicate MergedOver(dirs: seq<Dir>, steps: seq<Step>, n: nat)
    requires n <= |steps| < |dirs|
  {
    exists q :: 0 <= q < n && steps[q].event.Compacted? && First(dirs[q + 1]) != First(dirs[q])
  }

  lemma {:induction false} RunLimited(dirs: seq<Dir>, logs: seq<seq<Write>>, steps: seq<Step>, maxFileSize: nat, n: nat)
    requires Execution(dirs, logs, steps, maxFileSize) && n <= |steps|
    ensures Limited(dirs[n], maxFileSize, MergedOver(dirs, steps, n))
  {
    hide Next, Within, Reopened;
    if n == 0 {
      EmptyLimited(maxFileSize);
    } else {
      RunLimited(dirs, logs, steps, maxFileSize, n - 1);
      var merged := MergedOver(dirs, steps, n - 1);
      NextLimited(dirs[n - 1], logs[n - 1], steps[n - 1], maxFileSize, merged, dirs[n], logs[n]);
    }
  }

  lemma EmptyLimited(maxFileSize: nat)
    ensures Limited(Reopened(Nothing), maxFileSize, false)
  {
  }

  /**
   * After any run of puts, removes, compactions and crashes, a file larger than the limit holds a single record,
   * whether it is the active one or any other, unless it is the first and a compaction has written over it.
   */
  lemma FilesStayWithinLimit(dirs: seq<Dir>, logs: seq<seq<Write>>, steps: seq<Step>, maxFileSize: nat, n: nat, i: nat)
    requires Execution(dirs, logs, steps, maxFileSize) && n <= |steps| && i < |dirs[n].files|
    ensures i > 0 || i == |dirs[n].files| - 1 || !MergedOver(dirs, steps, n) ==>
      FileSize(dirs[n].files[i].recs) <= maxFileSize || |dirs[n].files[i].recs| == 1
  {
    hide Next, Reopened, Offset;
    RunLimited(dirs, logs, steps, maxFileSize, n);
    if dirs[n].files[i].recs == [] {
      NoBytes();
    }
  }

  lemma NoBytes()
    ensures FileSize([]) == 0
  {
  }

  // -- When a compaction merges -----------------------------------------------------------------------

  /**
   * A compaction that finds the active file empty leaves the directory alone exactly when there is no sealed file,
   * or one and all its bytes are live.
   */
  lemma MergesUnlessAllLive(d: Dir)
    requires Settled(d) && Active(d).recs == []
    ensures CompactFrom(d) == [d] <==>
      |d.files| == 1
      || (|d.files| == 2
          && LiveIn(Rebuilt(d.files).index, d.files[0].id, d.files[0].recs, |d.files[0].recs|)
             == FileSize(d.files[0].recs))
  {
    hide LiveIn, Rebuilt, Describes, Deleting, Merged, HintsWith;
    if |d.files| == 2 {
      EveryByteCounted(d.files, 0);
    }
    assert |d.files| >= 2 ==> |Merging(d)| >= 4;
  }

  /**
   * What a compaction leaves: the live records in one file at most, and an empty active file, which is the one there
   * was if that was empty already and otherwise has the next id.
   */
  lemma CompactionLeaves(d: Dir, maxFileSize: nat)
    requires Settled(d) && (Active(d).recs == [] || Active(d).id < MaxFileId)
    ensures var e := Finish(d, Compacted, maxFileSize);
            && 1 <= |e.files| <= 2
            && Active(e) == DataFile(if Active(d).recs == [] then Active(d).id else Active(d).id + 1, [], 0)
  {
    hide Describes, NothingToMerge, Merging, Rotated, Deleted, Finish;
    var base := if Active(d).recs == [] then d else Rotated(d);
    RotateKeeps(d);
    CompactionEnds(d, maxFileSize);
    ActiveAfter(d);
    if !NothingToMerge(base.files) {
      CompactFromEnds(base);
      DeletedEnds(base);
    } else {
      FewFiles(base.files);
    }
  }

  lemma CompactionEnds(d: Dir, maxFileSize: nat)
    requires |d.files| >= 1 && (Active(d).recs == [] || Active(d).id < MaxFileId)
    ensures var base := if Active(d).recs == [] then d else Rotated(d);
            Finish(d, Compacted, maxFileSize) == CompactFrom(base)[|CompactFrom(base)| - 1]
  {
    hide Merging, NothingToMerge;
  }

  lemma ActiveAfter(d: Dir)
    requires |d.files| >= 1
    ensures Active(Rotated(d)) == DataFile(Active(d).id + 1, [], 0)
  {
  }

  lemma DeletedEnds(d: Dir)
    requires |d.files| >= 2
    ensures var e := Deleted(d, |d.files| - 1, |d.files| - 1); |e.files| == 2 && Active(e) == Active(d)
  {
    hide Merged, HintsWith, Ids;
  }

  lemma FewFiles(files: seq<DataFile>)
    requires |files| >= 1 && NothingToMerge(files)
    ensures |files| <= 2
  {
    hide Rebuilt;
  }
}
