/** The Bitcask engine itself, each operation proved to take the directory through the states its
    specification lists. */
module Bitcask {
  import opened Keys
  import opened Entries
  import opened History
  import opened Records
  import opened BitcaskFiles
  import opened BitcaskSpace
  import opened BitcaskMerge
  import opened BitcaskHints
  import opened BitcaskRuns
  import opened BitcaskTheorems

  const MaxRecordSize: nat := 0xFFFF_FFFF

  datatype Status = Ok | InvalidArgument | NotFound | Corruption | IoError

  /** Reading a record back from the offset its pointer gives. */
  function RecordAt(recs: seq<Rec>, offset: nat, n: nat): Option<Rec>
    requires n <= |recs|
  {
    if n == 0 then None
    else if Offset(recs, n - 1) == offset then Some(recs[n - 1])
    else RecordAt(recs, offset, n - 1)
  }

  lemma {:induction false} RecordIsThere(recs: seq<Rec>, i: nat, n: nat)
    requires i < n <= |recs|
    ensures RecordAt(recs, Offset(recs, i), n) == Some(recs[i])
  {
    if i < n - 1 {
      OffsetsIncrease(recs, i, n - 1);
      RecordIsThere(recs, i, n - 1);
    }
  }

  lemma {:induction false} DeadFilesExist(files: seq<DataFile>, f: nat, n: nat, id: nat)
    requires f < |files| && n <= |files[f].recs|
    requires id in ReplayRecs(files[f].id, files[f].recs, n, ReplayFiles(files, f)).dead
    ensures exists g :: 0 <= g < |files| && files[g].id == id && files[g].recs != []
    decreases f, n
  {
    hide Offset;
    if n > 0 {
      var st := ReplayRecs(files[f].id, files[f].recs, n - 1, ReplayFiles(files, f));
      var r := files[f].recs[n - 1];
      if id in st.dead {
        DeadFilesExist(files, f, n - 1, id);
      } else if id == files[f].id {
        assert files[f].recs != [];
      } else {
        ReplayPlaces(files, f, n - 1, r.key);
        var g: nat, i: nat :| Holds(files, r.key, st.index[r.key], g, i) && (g < f || (g == f && i < n - 1));
        assert files[g].recs != [];
      }
    } else if f > 0 {
      DeadFilesExist(files, f - 1, |files[f - 1].recs|, id);
    } else {
      assert false;
    }
  }

  lemma DeadFilesNamed(files: seq<DataFile>, id: nat)
    requires |files| >= 1 && id in Rebuilt(files).dead
    ensures exists g :: 0 <= g < |files| && files[g].id == id && files[g].recs != []
  {
    var f := |files| - 1;
    assert Rebuilt(files) == ReplayRecs(files[f].id, files[f].recs, |files[f].recs|, ReplayFiles(files, f));
    DeadFilesExist(files, f, |files[f].recs|, id);
  }

  lemma FreshMerge(out: nat)
    ensures FileSize([]) == 0 && HintOf([]).entries == [] && Staged(out, [], 0) == map[]
  {
  }

  /** Only the files being merged have dead bytes: erasing their counts leaves none. */
  lemma NothingElseDead(files: seq<DataFile>)
    requires |files| >= 1 && files[|files| - 1].recs == []
    ensures Rebuilt(files).dead - (set f | f in files[..|files| - 1] :: f.id) == map[]
  {
    hide Rebuilt;
    forall id | id in Rebuilt(files).dead ensures id in (set f | f in files[..|files| - 1] :: f.id) {
      DeadFilesNamed(files, id);
      var g :| 0 <= g < |files| && files[g].id == id && files[g].recs != [];
      assert files[..|files| - 1][g] == files[g];
    }
  }

  lemma InstallFirst(d: Dir)
    requires |d.files| >= 2
    ensures [DataFile(d.files[0].id, Merged(d), 0)] + d.files[1..] == Partway(d.files, Merged(d), 1)
  {
  }

  lemma InstallHint(d: Dir)
    requires |d.files| >= 2
    ensures Partway(d.files, Merged(d), 1)[0].id == d.files[0].id
    ensures (d.hints - {d.files[0].id})[d.files[0].id := HintOf(Merged(d))] == HintsWith(d) - Ids(d.files, 1)
  {
    assert Ids(d.files, 1) == {};
  }

  /** What a compaction adds to the trace, and where it ends, by case. */
  lemma CompactPasses(d: Dir, maxFileSize: nat)
    requires |d.files| >= 1
    ensures var ps := Passes(d, Compacted, maxFileSize);
            var base := if Active(d).recs == [] then d else Rotated(d);
            var rotated := if Active(d).recs == [] then [] else [base];
            if Active(d).recs != [] && Active(d).id >= MaxFileId then ps == [d]
            else if NothingToMerge(base.files) then ps[1..] == rotated && ps[|ps| - 1] == base
            else && ps[1..] == rotated + Merging(base)
                 && ps[|ps| - 1] == Deleted(base, |base.files| - 1, |base.files| - 1)
  {
    hide Merging, Deleted, Rebuilt, Rotated;
    var base := if Active(d).recs == [] then d else Rotated(d);
    RotatedHasFiles(d);
    if !NothingToMerge(base.files) {
      CompactFromEnds(base);
    }
  }

  lemma RotatedHasFiles(d: Dir)
    requires |d.files| >= 1
    ensures |Rotated(d).files| == |d.files| + 1
  {
  }

  /** The result of a merge is settled, and memory after adopting it is what replaying it rebuilds. */
  lemma MergedSettles(d: Dir)
    requires Settled(d) && |d.files| >= 2 && Active(d).recs == []
    ensures Settled(Deleted(d, |d.files| - 1, |d.files| - 1))
    ensures Rebuilt(Partway(d.files, Merged(d), |d.files| - 1))
         == Store(Rebuilt(d.files).index + Staged(d.files[0].id, Merged(d), |Merged(d)|), map[])
  {
    hide Describes, ReplayFiles, Staged, Deleted;
    MergingEnds(d);
    MergingStands(d, |Merging(d)| - 1);
    AdoptedIsRebuilt(d.files);
  }

  lemma DeleteOne(d: Dir, j: nat)
    requires 1 <= j < |d.files| - 1 && Ascending(d.files)
    ensures var p := Partway(d.files, Merged(d), j);
            |p| >= 2 && p[1].id == d.files[j].id && [p[0]] + p[2..] == Partway(d.files, Merged(d), j + 1)
    ensures HintsWith(d) - Ids(d.files, j) - {d.files[j].id} == HintsWith(d) - Ids(d.files, j + 1)
  {
    hide Merged, HintsWith;
    assert Ids(d.files, j + 1) == Ids(d.files, j) + {d.files[j].id};
  }

  lemma {:induction false} OneLessDead(files: seq<DataFile>, n: nat, dead: map<nat, nat>, g: nat)
    requires Ascending(files) && n <= |files| && g < |files| && files[g].id in dead
    ensures TotalDead(files, n, dead)
         == TotalDead(files, n, dead - {files[g].id}) + if g < n then dead[files[g].id] else 0
  {
    if n > 0 {
      OneLessDead(files, n - 1, dead, g);
    }
  }

  lemma {:induction false} NoneDead(files: seq<DataFile>, n: nat)
    requires n <= |files|
    ensures TotalDead(files, n, map[]) == 0
  {
    if n > 0 {
      NoneDead(files, n - 1);
    }
  }

  lemma HealthyOpens(found: Dir)
    requires Healthy(found)
    ensures !Damaged(found) && Settled(Reopened(found)) && Contents(Reopened(found).files) == Contents(found.files)
    ensures Recovered(found, |found.files|) == Rebuilt(Reopened(found).files)
  {
    hide Describes, Contents, Recovered, ReplayFiles;
    ReopenKeeps(found);
    HintsChangeNothing(found, |found.files|);
    MendReplay(found);
  }

  class Engine {
    const maxFileSize: nat
    var dir: Dir
    var index: map<Key, Ptr>
    var dead: map<nat, nat>

    /** Every directory the store has passed through. */
    ghost var trace: seq<Dir>

    /** Memory is what replaying the directory would rebuild. */
    ghost predicate Valid()
      reads this
    {
      Settled(dir) && Store(index, dead) == Rebuilt(dir.files)
    }

    constructor (max: nat)
      ensures maxFileSize == max && dir == Nothing && trace == []
    {
      maxFileSize, dir, index, dead, trace := max, Nothing, map[], map[], [];
    }

    /** Opening a directory: refuse damage, otherwise replay it, by hint where there is one. */
    method Recover(found: Dir) returns (s: Status)
      requires Ascending(found.files)
      modifies this
      ensures s == if Damaged(found) then Corruption else Ok
      ensures s == Ok ==> dir == Reopened(found) && Store(index, dead) == Recovered(found, |found.files|)
      ensures Healthy(found) ==> s == Ok && Valid() && Contents(dir.files) == Contents(found.files)
    {
      hide Healthy, Contents, Settled, ReplayFile, ReplayHint, Offset, Reopened, Accepts;
      if Healthy(found) {
        HealthyOpens(found);
      }
      index, dead := map[], map[];
      var i := 0;
      while i < |found.files|
        invariant 0 <= i <= |found.files|
        invariant Store(index, dead) == Recovered(found, i)
        invariant forall q :: 0 <= q < i && q < |found.files| - 1 && found.files[q].tail > 0 ==>
                    found.files[q].id in found.hints && Accepts(found.hints[found.files[q].id], Size(found.files[q]))
      {
        var file := found.files[i];
        if i + 1 < |found.files| && file.id in found.hints && Accepts(found.hints[file.id], Size(file)) {
          TakeHint(file.id, found.hints[file.id].entries);
        } else {
          Scan(file);
          if i + 1 < |found.files| && file.tail > 0 {
            return Corruption;
          }
        }
        i := i + 1;
      }
      dir, trace := Reopened(found), trace + [Reopened(found)];
      s := Ok;
    }

    /** Replaying one data file record by record. */
    method Scan(file: DataFile)
      modifies `index, `dead
      ensures Store(index, dead) == ReplayFile(file, old(Store(index, dead)))
    {
      var i, offset := 0, 0;
      while i < |file.recs|
        invariant 0 <= i <= |file.recs| && offset == Offset(file.recs, i)
        invariant Store(index, dead) == ReplayRecs(file.id, file.recs, i, old(Store(index, dead)))
      {
        var r := file.recs[i];
        ApplyRecord(Ptr(file.id, offset, r.ts, RecSize(r)), r);
        offset, i := offset + RecSize(r), i + 1;
      }
    }

    /** What one record does: displace, then point or bury. */
    method ApplyRecord(p: Ptr, r: Rec)
      modifies `index, `dead
      ensures Store(index, dead) == Apply(old(Store(index, dead)), p, r)
    {
      if r.key in index {
        dead := MarkDead(dead, index[r.key].file, index[r.key].size);
      }
      if r.cell.Tombstone? {
        index := index - {r.key};
        dead := MarkDead(dead, p.file, p.size);
      } else {
        index := index[r.key := p];
      }
    }

    /** A hint's entries into the index, in order. */
    method TakeHint(id: nat, entries: seq<HintEntry>)
      modifies `index, `dead
      ensures Store(index, dead) == ReplayHint(id, entries, |entries|, old(Store(index, dead)))
    {
      var i := 0;
      while i < |entries|
        invariant 0 <= i <= |entries|
        invariant Store(index, dead) == ReplayHint(id, entries, i, old(Store(index, dead)))
      {
        var e := entries[i];
        if e.key in index {
          dead := MarkDead(dead, index[e.key].file, index[e.key].size);
        }
        index := index[e.key := Ptr(id, e.offset, e.ts, e.size)];
        i := i + 1;
      }
    }

    /** A read answers from the plain map the directory holds; it never meets a bad pointer. */
    method Get(key: Key) returns (s: Status, value: Value)
      requires Valid()
      ensures s == if key in Contents(dir.files) then Ok else NotFound
      ensures s == Ok ==> value == Contents(dir.files)[key]
    {
      hide PlainMap, WritesIn, Offset, ReplayFiles;
      value := [];
      IndexIsContents(dir.files, key);
      if key !in index {
        return NotFound, value;
      }
      var p := index[key];
      ghost var f: nat, i: nat :| Holds(dir.files, key, p, f, i)
          && dir.files[f].recs[i].cell == Live(Contents(dir.files)[key]);
      var q := 0;
      while q < |dir.files| && dir.files[q].id != p.file
        invariant 0 <= q <= f
      {
        q := q + 1;
      }
      assert q == f;
      RecordIsThere(dir.files[f].recs, i, |dir.files[f].recs|);
      var found := RecordAt(dir.files[q].recs, p.offset, |dir.files[q].recs|);
      if found.None? || found.value.key != key || found.value.cell.Tombstone? {
        return Corruption, value;
      }
      return Ok, found.value.cell.value;
    }

    method Rotate() returns (s: Status)
      requires Valid()
      modifies `dir, `trace
      ensures Valid()
      ensures s == if old(Active(dir).id) >= MaxFileId then IoError else Ok
      ensures s == Ok ==> dir == Rotated(old(dir)) && trace == old(trace) + [dir]
      ensures s != Ok ==> dir == old(dir) && trace == old(trace)
    {
      if Active(dir).id >= MaxFileId {
        return IoError;
      }
      RotateKeeps(dir);
      dir, trace := Rotated(dir), trace + [Rotated(dir)];
      s := Ok;
    }

    /** rotate_if_needed: a file with something in it that the record would take past the limit is sealed. */
    method RotateIfNeeded(r: Rec) returns (s: Status)
      requires Valid()
      modifies `dir, `trace
      ensures Valid()
      ensures var a := old(Active(dir));
              if FileSize(a.recs) == 0 || FileSize(a.recs) + RecSize(r) <= maxFileSize
              then s == Ok && dir == old(dir) && trace == old(trace)
              else if a.id >= MaxFileId then s == IoError && dir == old(dir) && trace == old(trace)
              else s == Ok && dir == Rotated(old(dir)) && trace == old(trace) + [dir] && Active(dir).recs == []
    {
      hide Describes, Offset, Rotated, RecSize;
      s := Ok;
      if NeedsRotation(dir, r, maxFileSize) {
        RotateKeeps(dir);
        s := Rotate();
      }
    }

    /** Append one record, rotating first if it would not fit, and bring the index up to date. */
    method Append(r: Rec) returns (s: Status)
      requires Valid()
      modifies this
      ensures Valid() && dir == Finish(old(dir), Wrote(r), maxFileSize)
      ensures trace == old(trace) + Passes(old(dir), Wrote(r), maxFileSize)[1..]
      ensures var a := old(Active(dir));
              var fits := FileSize(a.recs) == 0 || FileSize(a.recs) + RecSize(r) <= maxFileSize;
              && s == (if !fits && a.id >= MaxFileId then IoError else Ok)
              && (s == Ok ==> Active(dir).recs == if fits then a.recs + [r] else [r])
      ensures s == Ok ==>
        Contents(dir.files) == PlainMap(WritesIn(old(dir.files), |old(dir.files)|) + [Write(r.key, r.cell)])
      ensures s != Ok ==> Contents(dir.files) == Contents(old(dir.files))
    {
      hide Describes, WritesIn, PlainMap, ReplayFiles, Offset, Apply, Appended, Rotated, RecSize, Partials;
      ghost var c := |Passes(dir, Wrote(r), maxFileSize)| - 1;
      WriteStands(dir, r, maxFileSize, c);
      s := RotateIfNeeded(r);
      if s != Ok {
        return;
      }
      assert [] + [r] == [r];
      AppendReplays(dir, r);
      AppendSettles(dir, r);
      var p := Ptr(Active(dir).id, FileSize(Active(dir).recs), r.ts, RecSize(r));
      trace := trace + Partials(dir, r) + [Appended(dir, r)];
      dir := Appended(dir, r);
      ApplyRecord(p, r);
      s := Ok;
    }

    method Put(key: Key, value: Value, ts: nat) returns (s: Status)
      requires Valid()
      modifies this
      ensures Valid()
      ensures s == InvalidArgument <==> key == [] || 21 + |key| + |value| > MaxRecordSize
      ensures s == InvalidArgument ==> dir == old(dir) && trace == old(trace)
      ensures s != InvalidArgument ==>
        trace == old(trace) + Passes(old(dir), Wrote(Rec(key, Live(value), ts)), maxFileSize)[1..]
      ensures Contents(dir.files)
           == if s == Ok then old(Contents(dir.files))[key := value] else old(Contents(dir.files))
    {
      hide Describes, WritesIn, PlainMap, ReplayFiles, Passes;
      if key == [] || 21 + |key| + |value| > MaxRecordSize {
        return InvalidArgument;
      }
      PlainPush(WritesIn(dir.files, |dir.files|), Write(key, Live(value)));
      s := Append(Rec(key, Live(value), ts));
    }

    method Remove(key: Key, ts: nat) returns (s: Status)
      requires Valid()
      modifies this
      ensures Valid()
      ensures s == InvalidArgument <==> key == [] || 21 + |key| > MaxRecordSize
      ensures s == InvalidArgument ==> dir == old(dir) && trace == old(trace)
      ensures s != InvalidArgument ==>
        trace == old(trace) + Passes(old(dir), Wrote(Rec(key, Tombstone, ts)), maxFileSize)[1..]
      ensures Contents(dir.files) == if s == Ok then old(Contents(dir.files)) - {key} else old(Contents(dir.files))
    {
      hide Describes, WritesIn, PlainMap, ReplayFiles, Passes;
      if key == [] || 21 + |key| > MaxRecordSize {
        return InvalidArgument;
      }
      PlainPush(WritesIn(dir.files, |dir.files|), Write(key, Tombstone));
      s := Append(Rec(key, Tombstone, ts));
    }

    /** Copy every live record of every sealed file, with its hint entry and its new pointer. */
    method CopyLive() returns (merged: seq<Rec>, hint: Hint, staged: map<Key, Ptr>)
      requires Valid()
      ensures merged == Copied(dir.files, index, |dir.files| - 1)
      ensures hint == HintOf(merged) && staged == Staged(dir.files[0].id, merged, |merged|)
    {
      hide Describes, Rebuilt, Offset, Staged, LiveRecs;
      merged, staged := [], map[];
      var entries, written, i := [], 0, 0;
      FreshMerge(dir.files[0].id);
      while i < |dir.files| - 1
        invariant 0 <= i <= |dir.files| - 1
        invariant merged == Copied(dir.files, index, i) && written == FileSize(merged)
        invariant entries == HintOf(merged).entries && staged == Staged(dir.files[0].id, merged, |merged|)
      {
        merged, entries, written, staged := CopyFile(dir.files[i], dir.files[0].id, merged, entries, written, staged);
        i := i + 1;
      }
      hint := Hint(entries, written);
    }

    method CopyFile(file: DataFile, out: nat, before: seq<Rec>, hints: seq<HintEntry>, size: nat,
                    pointers: map<Key, Ptr>)
      returns (merged: seq<Rec>, entries: seq<HintEntry>, written: nat, staged: map<Key, Ptr>)
      requires size == FileSize(before) && hints == HintOf(before).entries && pointers == Staged(out, before, |before|)
      ensures merged == before + LiveRecs(index, file.id, file.recs, |file.recs|) && written == FileSize(merged)
      ensures entries == HintOf(merged).entries && staged == Staged(out, merged, |merged|)
    {
      hide HintOf, Staged;
      merged, entries, written, staged := before, hints, size, pointers;
      var j, offset := 0, 0;
      while j < |file.recs|
        invariant 0 <= j <= |file.recs| && offset == Offset(file.recs, j)
        invariant merged == before + LiveRecs(index, file.id, file.recs, j) && written == FileSize(merged)
        invariant entries == HintOf(merged).entries && staged == Staged(out, merged, |merged|)
      {
        var r := file.recs[j];
        if !r.cell.Tombstone? && r.key in index && index[r.key].file == file.id && index[r.key].offset == offset {
          HintPush(merged, r);
          StagedPush(out, merged, r);
          entries := entries + [HintEntry(r.key, r.ts, written, RecSize(r))];
          staged := staged[r.key := Ptr(out, written, r.ts, RecSize(r))];
          merged, written := merged + [r], written + RecSize(r);
        }
        offset, j := offset + RecSize(r), j + 1;
      }
    }

    /** compact: rotate if anything is in the active file, then merge unless nothing would be gained. */
    method Compact() returns (s: Status)
      requires Valid()
      modifies this
      ensures Valid() && dir == Finish(old(dir), Compacted, maxFileSize)
      ensures trace == old(trace) + Passes(old(dir), Compacted, maxFileSize)[1..]
      ensures s == if old(Active(dir).recs) != [] && old(Active(dir).id) >= MaxFileId then IoError else Ok
      ensures Contents(dir.files) == Contents(old(dir.files))
    {
      hide Describes, Contents, ReplayFiles, Merging, Rotated, Passes, Deleted, Ascending;
      CompactStands(dir, maxFileSize, |Passes(dir, Compacted, maxFileSize)| - 1);
      CompactPasses(dir, maxFileSize);
      RotateKeeps(dir);
      if Active(dir).recs != [] {
        s := Rotate();
        if s != Ok {
          return;
        }
      }
      s := Ok;
      if |dir.files| == 1 || (|dir.files| == 2 && Dead(dead, dir.files[0].id) == 0) {
        return;
      }
      Merge();
    }

    method Merge()
      requires Valid() && |dir.files| >= 2 && Active(dir).recs == []
      modifies this
      ensures Valid() && dir == Deleted(old(dir), |old(dir.files)| - 1, |old(dir.files)| - 1)
      ensures trace == old(trace) + Merging(old(dir))
    {
      hide Describes, Contents, ReplayFiles, Staged, Copied, Partway, WithTemps, Installed, Deleting, Ascending;
      ghost var d := dir;
      MergedSettles(d);
      InstallMerged();
      DeleteInputs(d);
      assert Deleted(d, |d.files| - 1, |d.files| - 1).files == Partway(d.files, Merged(d), |d.files| - 1);
    }

    /** Write the output aside, drop the hint it outdates, rename it in, and only then give it its hint. */
    method InstallMerged()
      requires Valid() && |dir.files| >= 2 && Active(dir).recs == []
      modifies this
      ensures var d := old(dir);
              && dir == Deleted(d, 1, 1)
              && trace == old(trace)
                 + [WithTemps(d), WithTemps(d).(hints := d.hints - {d.files[0].id}), Installed(d), dir]
              && index == old(index) + Staged(d.files[0].id, Merged(d), |Merged(d)|) && dead == map[]
    {
      hide Describes, ReplayFiles, Staged, HintOf, Copied, Ids, HintsWith, Partway, Ascending;
      ghost var d := dir;
      NothingElseDead(d.files);
      var inputs := set f | f in dir.files[..|dir.files| - 1] :: f.id;
      var merged, hint, staged := CopyLive();
      assert merged == Merged(d);
      InstallFirst(d);
      InstallHint(d);
      Commit(dir.(temp := Some(merged), hintTemp := Some(hint)));
      Commit(dir.(hints := dir.hints - {dir.files[0].id}));
      Commit(dir.(files := [DataFile(dir.files[0].id, merged, 0)] + dir.files[1..], temp := None));
      index := index + staged;
      dead := dead - inputs;
      Commit(dir.(hints := dir.hints[dir.files[0].id := hint], hintTemp := None));
    }

    method Commit(d: Dir)
      modifies `dir, `trace
      ensures dir == d && trace == old(trace) + [d]
    {
      dir, trace := d, trace + [d];
    }

    /** Inputs go lowest id first: what remains is always the newest part of the history. */
    method DeleteInputs(ghost d: Dir)
      requires |d.files| >= 2 && Ascending(d.files) && dir == Deleted(d, 1, 1)
      modifies `dir, `trace
      ensures dir == Deleted(d, |d.files| - 1, |d.files| - 1)
      ensures trace == old(trace) + Deleting(d, |d.files| - 1)
    {
      hide Merged, Ids;
      ghost var j := 1;
      while |dir.files| > 2
        invariant 1 <= j <= |d.files| - 1 && dir == Deleted(d, j, j) && |dir.files| == |d.files| - j + 1
        invariant trace == old(trace) + Deleting(d, j)
      {
        var id := dir.files[1].id;
        DeleteOne(d, j);
        Commit(dir.(files := [dir.files[0]] + dir.files[2..]));
        Commit(dir.(hints := dir.hints - {id}));
        j := j + 1;
      }
    }

    /** total_disk_size. */
    method TotalDiskSize() returns (total: nat)
      requires Valid()
      ensures total == DiskSize(dir.files)
    {
      total := 0;
      for i := 0 to |dir.files|
        invariant total == TotalSize(dir.files, i)
      {
        total := total + FileSize(dir.files[i].recs);
      }
    }

    /** reclaimable_bytes: the sum over the dead-byte table is the sum over the files. */
    method ReclaimableBytes() returns (total: nat)
      requires Valid()
      ensures total == Reclaimable(dir.files)
      ensures DiskSize(dir.files) == total + TotalLive(dir.files, |dir.files|, index)
    {
      hide ReplayFiles, Describes;
      SpaceIsConserved(dir.files);
      total := 0;
      var left := dead;
      while left != map[]
        invariant forall id :: id in left ==> id in dead
        invariant total + TotalDead(dir.files, |dir.files|, left) == Reclaimable(dir.files)
        decreases |left.Keys|
      {
        var id :| id in left;
        DeadFilesNamed(dir.files, id);
        ghost var g :| 0 <= g < |dir.files| && dir.files[g].id == id;
        OneLessDead(dir.files, |dir.files|, left, g);
        total := total + left[id];
        assert (left - {id}).Keys == left.Keys - {id};
        left := left - {id};
      }
      NoneDead(dir.files, |dir.files|);
    }
  }
}
