/** Every directory a Bitcask leaves behind, whatever it was doing when it stopped, and what reopening makes of it. */
module BitcaskRuns {
  import opened Keys
  import opened Entries
  import opened History
  import opened Records
  import opened BitcaskFiles
  import opened BitcaskSpace
  import opened BitcaskMerge
  import opened BitcaskHints

  const FirstFileId: nat := 1
  const MaxFileId: nat := 0xFFFF_FFFF

  /** A Bitcask directory: data files by ascending id, hints by id, and an unfinished compaction's output. */
  datatype Dir = Dir(files: seq<DataFile>, hints: map<nat, Hint>, temp: Option<seq<Rec>>, hintTemp: Option<Hint>)

  const Nothing: Dir := Dir([], map[], None, None)

  function Active(d: Dir): DataFile
    requires |d.files| >= 1
  {
    d.files[|d.files| - 1]
  }

  /** What holds of every directory, including one a crash left mid-operation. */
  ghost predicate Healthy(d: Dir) {
    && |d.files| >= 1 && Ascending(d.files)
    && (forall i :: 0 <= i < |d.files| - 1 ==> d.files[i].tail == 0)
    && (forall id :: id in d.hints ==> id < Active(d).id)
    && (forall i :: 0 <= i < |d.files| && d.files[i].id in d.hints ==>
       Describes(d.hints[d.files[i].id], d.files[i].recs))
  }

  /** A directory as an open store keeps it. */
  ghost predicate Settled(d: Dir) {
    Healthy(d) && Active(d).tail == 0 && d.temp.None? && d.hintTemp.None?
  }

  // -- Recovery ---------------------------------------------------------------------------------

  /** Replay in ascending order, taking a sealed file's hint where there is an acceptable one. */
  function Recovered(d: Dir, n: nat): Store
    requires n <= |d.files|
  {
    if n == 0 then Fresh
    else
      var file, before := d.files[n - 1], Recovered(d, n - 1);
      if n < |d.files| && file.id in d.hints && Accepts(d.hints[file.id], Size(file))
      then ReplayHint(file.id, d.hints[file.id].entries, |d.hints[file.id].entries|, before)
      else ReplayFile(file, before)
  }

  function Size(file: DataFile): nat {
    FileSize(file.recs) + file.tail
  }

  /** A sealed file that does not end at its last record, and that no hint speaks for. */
  ghost predicate Damaged(d: Dir) {
    exists i :: 0 <= i < |d.files| - 1 && d.files[i].tail > 0
             && !(d.files[i].id in d.hints && Accepts(d.hints[d.files[i].id], Size(d.files[i])))
  }

  function Mend(file: DataFile): DataFile {
    file.(tail := 0)
  }

  predicate HasId(files: seq<DataFile>, id: nat) {
    exists i :: 0 <= i < |files| && files[i].id == id
  }

  /** The hints whose data file is there. */
  function OwnHints(files: seq<DataFile>, hints: map<nat, Hint>): map<nat, Hint> {
    map id | id in hints && HasId(files, id) :: hints[id]
  }

  /** The directory after recovery: temporaries and orphan hints gone, the torn tail cut off. */
  function Reopened(d: Dir): Dir {
    if d.files == [] then Dir([DataFile(FirstFileId, [], 0)], map[], None, None)
    else Dir(d.files[..|d.files| - 1] + [Mend(Active(d))],
             OwnHints(d.files, d.hints), None, None)
  }

  /** Hints change nothing: recovery rebuilds what a full replay would. */
  lemma {:induction false} HintsChangeNothing(d: Dir, n: nat)
    requires Healthy(d) && n <= |d.files|
    ensures Recovered(d, n) == ReplayFiles(d.files, n)
  {
    if n > 0 {
      HintsChangeNothing(d, n - 1);
      var file := d.files[n - 1];
      HintReplaysAll(file.id, file.recs, ReplayFiles(d.files, n - 1));
    }
  }

  lemma HintReplaysAll(id: nat, recs: seq<Rec>, st: Store)
    ensures AllPuts(recs) ==>
      ReplayHint(id, HintOf(recs).entries, |HintOf(recs).entries|, st) == ReplayRecs(id, recs, |recs|, st)
  {
    if AllPuts(recs) {
      HintReplaysTheFile(id, recs, |recs|, st);
    }
  }

  /** Reopening a healthy directory settles it and loses nothing. */
  lemma ReopenKeeps(d: Dir)
    requires Healthy(d)
    ensures Settled(Reopened(d)) && Contents(Reopened(d).files) == Contents(d.files)
  {
    hide Contents, Describes;
    SameContents(d.files, Reopened(d).files);
  }

  /** A directory recovery had begun to clean up: some temporaries and orphan hints already gone. */
  ghost predicate PartlyReopened(d: Dir, e: Dir) {
    && e.files == d.files
    && (e.temp == d.temp || e.temp.None?) && (e.hintTemp == d.hintTemp || e.hintTemp.None?)
    && (forall id :: id in e.hints ==> id in d.hints && e.hints[id] == d.hints[id])
    && (forall i :: 0 <= i < |d.files| && d.files[i].id in d.hints ==> d.files[i].id in e.hints)
  }

  lemma PartlyIsNoMatter(d: Dir, e: Dir)
    requires Healthy(d) && PartlyReopened(d, e)
    ensures Healthy(e) && Reopened(e) == Reopened(d)
  {
    hide Describes;
    assert OwnHints(d.files, d.hints).Keys == OwnHints(e.files, e.hints).Keys;
  }

  lemma ReopenedOnce(d: Dir)
    requires |d.files| >= 1
    ensures Reopened(Reopened(d)) == Reopened(d)
  {
    var e := Reopened(d);
    forall id ensures HasId(e.files, id) <==> HasId(d.files, id) {
      if HasId(d.files, id) {
        var i :| 0 <= i < |d.files| && d.files[i].id == id;
        assert e.files[i].id == id;
      }
    }
    assert OwnHints(e.files, e.hints).Keys == e.hints.Keys;
  }

  /** Recovery can itself be cut short: recovering from where it got to ends in the same directory. */
  lemma RecoveryRestarts(d: Dir, e: Dir)
    requires Healthy(d) && (PartlyReopened(d, e) || e == Reopened(d))
    ensures Healthy(e) && Reopened(e) == Reopened(d)
  {
    hide Describes, Reopened, Contents;
    if PartlyReopened(d, e) {
      PartlyIsNoMatter(d, e);
    } else {
      ReopenedOnce(d);
      ReopenKeeps(d);
    }
  }

  lemma SameContents(a: seq<DataFile>, b: seq<DataFile>)
    requires |a| == |b| && forall i :: 0 <= i < |a| ==> a[i].recs == b[i].recs
    ensures Contents(a) == Contents(b)
  {
    WritesInSame(a, b, |a|);
  }

  // -- Writing --------------------------------------------------------------------------------------

  function Rotated(d: Dir): Dir
    requires |d.files| >= 1
  {
    d.(files := d.files + [DataFile(Active(d).id + 1, [], 0)])
  }

  /** Rotation is for a file with something in it that the record would take past the limit. */
  predicate NeedsRotation(d: Dir, r: Rec, maxFileSize: nat)
    requires |d.files| >= 1
  {
    FileSize(Active(d).recs) > 0 && FileSize(Active(d).recs) + RecSize(r) > maxFileSize
  }

  /** Part of a record, t bytes of it, after the last whole one. */
  function Torn(d: Dir, t: nat): Dir
    requires |d.files| >= 1
  {
    d.(files := d.files[..|d.files| - 1] + [Active(d).(tail := t)])
  }

  /** Every directory an append goes through, byte by byte, before its last byte is written. */
  function Partials(d: Dir, r: Rec): (ps: seq<Dir>)
    requires |d.files| >= 1
    ensures |ps| == RecSize(r) - 1
  {
    seq(RecSize(r) - 1, i requires 0 <= i < RecSize(r) - 1 => Torn(d, i + 1))
  }

  function Appended(d: Dir, r: Rec): Dir
    requires |d.files| >= 1
  {
    d.(files := d.files[..|d.files| - 1] + [Active(d).(recs := Active(d).recs + [r])])
  }

  lemma RotateKeeps(d: Dir)
    requires Settled(d)
    ensures Settled(Rotated(d)) && Contents(Rotated(d).files) == Contents(d.files) && Active(Rotated(d)).recs == []
    ensures Rebuilt(Rotated(d).files) == Rebuilt(d.files)
  {
    hide Describes;
    var next := DataFile(Active(d).id + 1, [], 0);
    WritesInConcat(d.files, [next]);
    OneFile(next);
    assert WritesIn(d.files, |d.files|) + [] == WritesIn(d.files, |d.files|);
    PrefixReplay(d.files, d.files + [next], |d.files|);
  }

  lemma {:induction false} PrefixReplay(a: seq<DataFile>, b: seq<DataFile>, n: nat)
    requires n <= |a| && n <= |b| && forall i :: 0 <= i < n ==> a[i].id == b[i].id && a[i].recs == b[i].recs
    ensures ReplayFiles(a, n) == ReplayFiles(b, n)
  {
    hide ReplayRecs;
    if n > 0 {
      PrefixReplay(a, b, n - 1);
    }
  }

  lemma MendReplay(d: Dir)
    requires |d.files| >= 1
    ensures Rebuilt(Reopened(d).files) == Rebuilt(d.files)
  {
    PrefixReplay(d.files, Reopened(d).files, |d.files|);
  }

  lemma TornKeeps(d: Dir, t: nat)
    requires Settled(d)
    ensures Healthy(Torn(d, t)) && Contents(Torn(d, t).files) == Contents(d.files)
  {
    hide Contents, Describes;
    SameContents(d.files, Torn(d, t).files);
  }

  lemma AppendSettles(d: Dir, r: Rec)
    requires Settled(d)
    ensures Settled(Appended(d, r)) && Active(Appended(d, r)) == Active(d).(recs := Active(d).recs + [r])
  {
    hide Describes;
  }

  lemma AppendWrites(d: Dir, r: Rec)
    requires |d.files| >= 1
    ensures WritesIn(Appended(d, r).files, |d.files|) == WritesIn(d.files, |d.files|) + [Write(r.key, r.cell)]
  {
    var n, a := |d.files|, Active(d);
    WritesInSame(Appended(d, r).files, d.files, n - 1);
    WritesPush(a.recs, r);
  }

  lemma AppendReplays(d: Dir, r: Rec)
    requires |d.files| >= 1
    ensures Rebuilt(Appended(d, r).files)
         == Apply(Rebuilt(d.files), Ptr(Active(d).id, FileSize(Active(d).recs), r.ts, RecSize(r)), r)
  {
    hide Apply;
    var n, a := |d.files|, Active(d);
    PrefixReplay(d.files, Appended(d, r).files, n - 1);
    PushReplays(a.id, a.recs, r, ReplayFiles(d.files, n - 1));
  }

  lemma PushReplays(id: nat, recs: seq<Rec>, r: Rec, st: Store)
    ensures ReplayRecs(id, recs + [r], |recs| + 1, st)
         == Apply(ReplayRecs(id, recs, |recs|, st), Ptr(id, FileSize(recs), r.ts, RecSize(r)), r)
  {
    hide Apply;
    PrefixRecs(id, recs, recs + [r], |recs|, st);
    OffsetSame(recs, recs + [r], |recs|);
  }

  lemma {:induction false} PrefixRecs(id: nat, a: seq<Rec>, b: seq<Rec>, n: nat, st: Store)
    requires n <= |a| && n <= |b| && forall i :: 0 <= i < n ==> a[i] == b[i]
    ensures ReplayRecs(id, a, n, st) == ReplayRecs(id, b, n, st)
  {
    hide Apply;
    if n > 0 {
      PrefixRecs(id, a, b, n - 1, st);
      OffsetSame(a, b, n - 1);
    }
  }

  // -- Compacting -----------------------------------------------------------------------------------

  /** A merge would gain nothing: at most one input, and all of it live. */
  predicate NothingToMerge(files: seq<DataFile>)
    requires |files| >= 1
  {
    |files| == 1 || (|files| == 2 && Dead(Rebuilt(files).dead, files[0].id) == 0)
  }

  function Merged(d: Dir): seq<Rec>
    requires |d.files| >= 1
  {
    Copied(d.files, Rebuilt(d.files).index, |d.files| - 1)
  }

  /** The hints once the merged file has its own: none yet deleted. */
  function HintsWith(d: Dir): map<nat, Hint>
    requires |d.files| >= 1
  {
    d.hints[d.files[0].id := HintOf(Merged(d))]
  }

  /** Ids of inputs 1 up to j: deleted, in that order, once the output is installed. */
  function Ids(files: seq<DataFile>, j: nat): set<nat>
    requires 1 <= j <= |files|
  {
    set i | 1 <= i < j :: files[i].id
  }

  /** Inputs up to j gone, and the hints of inputs up to h. */
  function Deleted(d: Dir, j: nat, h: nat): Dir
    requires 1 <= h <= j <= |d.files|
  {
    Dir(Partway(d.files, Merged(d), j), HintsWith(d) - Ids(d.files, h), None, None)
  }

  function Deleting(d: Dir, j: nat): seq<Dir>
    requires 1 <= j <= |d.files|
  {
    if j == 1 then [] else Deleting(d, j - 1) + [Deleted(d, j, j - 1), Deleted(d, j, j)]
  }

  function WithTemps(d: Dir): Dir
    requires |d.files| >= 1
  {
    d.(temp := Some(Merged(d)), hintTemp := Some(HintOf(Merged(d))))
  }

  /** The output installed over the lowest input, whose own hint went first. */
  function Installed(d: Dir): Dir
    requires |d.files| >= 2
  {
    Dir(Partway(d.files, Merged(d), 1), d.hints - {d.files[0].id}, None, Some(HintOf(Merged(d))))
  }

  /** The directories a merge of everything but the empty active file goes through, in order. */
  function Merging(d: Dir): seq<Dir>
    requires |d.files| >= 2
  {
    [WithTemps(d), WithTemps(d).(hints := d.hints - {d.files[0].id}), Installed(d), Deleted(d, 1, 1)]
    + Deleting(d, |d.files| - 1)
  }

  /** A directory with the same contents as d, that recovery accepts. */
  ghost predicate Stands(d: Dir, e: Dir) {
    Healthy(e) && Contents(e.files) == Contents(d.files)
  }

  lemma MergedDescribed(d: Dir)
    requires |d.files| >= 1
    ensures Describes(HintOf(Merged(d)), Merged(d))
  {
    CopiedPuts(Rebuilt(d.files).index, d.files, |d.files| - 1);
  }

  lemma PartwayHolds(d: Dir, j: nat)
    requires Settled(d) && Active(d).recs == [] && 1 <= j <= |d.files| - 1
    ensures Contents(Partway(d.files, Merged(d), j)) == Contents(d.files)
  {
    hide Contents, Describes;
    PartwayContents(d.files, j);
  }

  lemma DeletedStands(d: Dir, j: nat, h: nat)
    requires Settled(d) && Active(d).recs == [] && 1 <= h <= j <= |d.files| - 1
    ensures Stands(d, Deleted(d, j, h))
  {
    hide Contents, Describes, Merged, HintOf;
    MergedDescribed(d);
    PartwayHolds(d, j);
    var e := Deleted(d, j, h);
    forall i | 0 <= i < |e.files| && e.files[i].id in e.hints
        ensures Describes(e.hints[e.files[i].id], e.files[i].recs) {
      if i > 0 {
        assert e.files[i] == d.files[i + j - 1];
      }
    }
  }

  lemma {:induction false} DeletingStands(d: Dir, j: nat, q: nat)
    requires Settled(d) && Active(d).recs == [] && 1 <= j <= |d.files| - 1 && q < |Deleting(d, j)|
    ensures Stands(d, Deleting(d, j)[q])
  {
    hide Stands, Deleted;
    if q < |Deleting(d, j - 1)| {
      DeletingStands(d, j - 1, q);
    } else {
      DeletedStands(d, j, j - 1);
      DeletedStands(d, j, j);
    }
  }

  lemma InstalledStands(d: Dir)
    requires Settled(d) && |d.files| >= 2 && Active(d).recs == []
    ensures Stands(d, Installed(d))
  {
    hide Contents, Describes, Merged, HintOf;
    PartwayHolds(d, 1);
    var e := Installed(d);
    forall i | 0 <= i < |e.files| && e.files[i].id in e.hints
        ensures Describes(e.hints[e.files[i].id], e.files[i].recs) {
      assert e.files[i] == d.files[i];
    }
  }

  lemma FewerHintsStands(d: Dir, e: Dir)
    requires Settled(d) && e.files == d.files && forall id :: id in e.hints ==>
      id in d.hints && e.hints[id] == d.hints[id]
    ensures Stands(d, e)
  {
    hide Contents, Describes;
  }

  /** Every directory a compaction passes through is accepted and replays to the same map. */
  lemma MergingStands(d: Dir, q: nat)
    requires Settled(d) && |d.files| >= 2 && Active(d).recs == [] && q < |Merging(d)|
    ensures Stands(d, Merging(d)[q])
  {
    hide Stands, Deleted, Merged, HintOf, Installed, Deleting;
    if q < 2 {
      FewerHintsStands(d, Merging(d)[q]);
    } else if q == 2 {
      InstalledStands(d);
    } else if q == 3 {
      DeletedStands(d, 1, 1);
    } else {
      DeletingStands(d, |d.files| - 1, q - 4);
      assert Merging(d)[q] == Deleting(d, |d.files| - 1)[q - 4];
    }
  }
}
