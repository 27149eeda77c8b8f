/** How large the parts of a table file are, and so where its blocks are cut and which runs cannot be
    written at all. */
module TableSizes {
  import opened Keys
  import opened Entries
  import opened Bytes

  const EntryHeaderSize: nat := 9
  const BlockTrailerSize: nat := 4
  const IndexHeaderSize: nat := 4
  const IndexEntryFixedSize: nat := 16

  function ValueBytes(e: Entry): Value {
    if e.cell.Live? then e.cell.value else []
  }

  function EntrySize(e: Entry): nat {
    EntryHeaderSize + |e.key| + |ValueBytes(e)|
  }

  predicate EntryFits(e: Entry) {
    e.key != [] && EntrySize(e) <= U32Max
  }

  /** The first n entries, back to back. */
  function BlockSize(es: Run, n: nat): nat
    requires n <= |es|
  {
    if n == 0 then 0 else BlockSize(es, n - 1) + EntrySize(es[n - 1])
  }

  // -- Where blocks are cut -----------------------------------------------------------------------

  /** Blocks that are done, and the entries of the one being filled. */
  datatype Filling = Filling(blocks: seq<Run>, pending: Run)

  /** One more entry: it closes the block when the block has grown to the block size. */
  function Fed(f: Filling, e: Entry, blockSize: nat): Filling {
    var p := f.pending + [e];
    if BlockSize(p, |p|) >= blockSize then Filling(f.blocks + [p], []) else Filling(f.blocks, p)
  }

  function Fill(run: Run, n: nat, blockSize: nat): Filling
    requires n <= |run|
  {
    if n == 0 then Filling([], []) else Fed(Fill(run, n - 1, blockSize), run[n - 1], blockSize)
  }

  function Closed(f: Filling): seq<Run> {
    if f.pending == [] then f.blocks else f.blocks + [f.pending]
  }

  /** The blocks a run is written as. */
  function Cut(run: Run, blockSize: nat): seq<Run> {
    Closed(Fill(run, |run|, blockSize))
  }

  /** A block closed by its last entry: that entry takes it to the block size, and no earlier one did. */
  predicate JustFull(block: Run, blockSize: nat) {
    && block != [] && BlockSize(block, |block|) >= blockSize
    && forall n :: 0 < n < |block| ==> BlockSize(block, n) < blockSize
  }

  // -- What is too large ----------------------------------------------------------------------------

  function LastKeySize(block: Run): nat {
    if block == [] then 0 else |block[|block| - 1].key|
  }

  /** The index of the first n blocks, without its checksum. */
  function IndexSize(blocks: seq<Run>, n: nat): nat
    requires n <= |blocks|
  {
    if n == 0 then IndexHeaderSize else IndexSize(blocks, n - 1) + IndexEntryFixedSize + LastKeySize(blocks[n - 1])
  }

  /** A block, or the index of all of them, is over 4 GiB. */
  predicate TooLarge(blocks: seq<Run>) {
    || (exists i :: 0 <= i < |blocks| && BlockSize(blocks[i], |blocks[i]|) + BlockTrailerSize > U32Max)
    || IndexSize(blocks, |blocks|) + BlockTrailerSize > U32Max
  }

  /** A run that can be written as a table. */
  predicate Buildable(run: Run, blockSize: nat) {
    blockSize > 0 && !TooLarge(Cut(run, blockSize))
  }

  lemma TwoSizes(a: Entry, b: Entry)
    ensures BlockSize([a], 1) == EntrySize(a) && BlockSize([a, b], 2) == EntrySize(a) + EntrySize(b)
  {
    hide EntrySize;
    assert BlockSize([a], 0) == 0 && BlockSize([a, b], 0) == 0;
    assert BlockSize([a, b], 1) == EntrySize([a, b][0]);
  }

  /**
   * Two entries can each be small enough and not fit one table: the first does not fill a block, so
   * the second, which nearly fills 4 GiB, has to share it.
   */
  lemma SmallThenHuge(a: Entry, b: Entry, blockSize: nat)
    requires EntrySize(a) < blockSize <= EntrySize(a) + EntrySize(b)
    requires EntrySize(a) + EntrySize(b) + BlockTrailerSize > U32Max
    ensures Cut([a, b], blockSize) == [[a, b]] && !Buildable([a, b], blockSize)
  {
    hide BlockSize, EntrySize, IndexSize;
    TwoSizes(a, b);
    var run := [a, b];
    assert Fill(run, 0, blockSize) == Filling([], []);
    assert [] + [a] == [a] && [a] + [b] == run;
    assert Fed(Filling([], []), run[0], blockSize) == Filling([], [a]);
    assert Fed(Filling([], [a]), run[1], blockSize) == Filling([run], []);
    assert Fill(run, 1, blockSize) == Filling([], [a]);
    assert Fill(run, 2, blockSize) == Filling([run], []);
    assert Cut(run, blockSize)[0] == run;
  }
}
