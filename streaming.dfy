/**
 * The read loop of `HashFile`: the file is read in chunks of the block size
 * and each non-empty chunk is fed to the hash object, until a read returns
 * nothing.
 */
module Streaming {
  import opened Common
  import opened Hashing
  import opened Files

  /** A positive read size. */
  type ChunkSize = n: nat | 0 < n witness 1

  /**
   * The chunks a sequence of `read(size)` calls returns on a regular file
   * from position `pos` on: full blocks, then the remainder; the final empty
   * read is not a chunk.
   */
  function ChunksFrom(content: seq<byte>, pos: nat, size: ChunkSize): (cs: seq<seq<byte>>)
    requires pos <= |content|
    ensures forall i :: 0 <= i < |cs| ==> 0 < |cs[i]| <= size
    ensures |cs| <= |content| - pos
    decreases |content| - pos
  {
    if pos == |content| then []
    else
      var n := Min(size, |content| - pos);
      [content[pos..pos + n]] + ChunksFrom(content, pos + n, size)
  }

  /** The chunks of a whole file. */
  function Chunks(content: seq<byte>, size: ChunkSize): seq<seq<byte>>
  {
    ChunksFrom(content, 0, size)
  }

  lemma {:induction false} FlattenChunksFrom(content: seq<byte>, pos: nat, size: ChunkSize)
    requires pos <= |content|
    ensures Flatten(ChunksFrom(content, pos, size)) == content[pos..]
    decreases |content| - pos
  {
    if pos < |content| {
      var n := Min(size, |content| - pos);
      var cs := ChunksFrom(content, pos, size);
      FlattenChunksFrom(content, pos + n, size);
      assert cs[1..] == ChunksFrom(content, pos + n, size);
      assert content[pos..] == content[pos..pos + n] + content[pos + n..];
    }
  }

  /** The chunks put back together are the whole content, whatever the block size. */
  lemma FlattenChunks(content: seq<byte>, size: ChunkSize)
    ensures Flatten(Chunks(content, size)) == content
  {
    FlattenChunksFrom(content, 0, size);
    assert content[0..] == content;
  }

  lemma {:induction false} FullBlocksFrom(content: seq<byte>, pos: nat, size: ChunkSize)
    requires pos <= |content|
    ensures var cs := ChunksFrom(content, pos, size);
            forall i :: 0 <= i < |cs| - 1 ==> |cs[i]| == size
    decreases |content| - pos
  {
    if pos < |content| {
      var n := Min(size, |content| - pos);
      var cs := ChunksFrom(content, pos, size);
      FullBlocksFrom(content, pos + n, size);
      assert cs[1..] == ChunksFrom(content, pos + n, size);
      if |cs| > 1 {
        assert pos + n < |content|;
      }
    }
  }

  /** Every chunk but the last is a full block. */
  lemma ChunksAreFullBlocks(content: seq<byte>, size: ChunkSize)
    ensures forall i :: 0 <= i < |Chunks(content, size)| - 1 ==> |Chunks(content, size)[i]| == size
  {
    FullBlocksFrom(content, 0, size);
    var cs := Chunks(content, size);
    forall i | 0 <= i < |cs| - 1
      ensures |cs[i]| == size
    {
      assert cs == ChunksFrom(content, 0, size);
    }
  }

  lemma {:induction false} ChunkCountFrom(content: seq<byte>, pos: nat, size: ChunkSize)
    requires pos <= |content|
    ensures var k := |ChunksFrom(content, pos, size)|;
            |content| - pos <= k * size && (k > 0 ==> (k - 1) * size < |content| - pos)
    decreases |content| - pos
  {
    if pos < |content| {
      var n := Min(size, |content| - pos);
      var k := |ChunksFrom(content, pos + n, size)|;
      ChunkCountFrom(content, pos + n, size);
      assert |ChunksFrom(content, pos, size)| == k + 1;
      assert (k + 1) * size == k * size + size;
      if |content| - pos <= size {
        assert k == 0;
      }
    }
  }

  /** The chunks cover the content and no block more: ceil(|content| / size) of them. */
  lemma ChunkCount(content: seq<byte>, size: ChunkSize)
    ensures |content| <= |Chunks(content, size)| * size
    ensures |Chunks(content, size)| > 0 ==> (|Chunks(content, size)| - 1) * size < |content|
  {
    ChunkCountFrom(content, 0, size);
  }

  /** The number of `read` calls the loop makes on a file it reads to the end. */
  function ReadCalls(content: seq<byte>, size: ChunkSize): nat
  {
    |Chunks(content, size)| + 1
  }

  /** Whether one of the loop's `read` calls raises. */
  predicate ReadFails(f: FileData, size: ChunkSize)
  {
    f.readFault.Some? && f.readFault.value < ReadCalls(f.content, size)
  }

  datatype ReadResult = Data(bytes: seq<byte>) | ReadRaised

  /** An opened binary file: its content, the read position and the calls made. */
  class InFile {
    const content: seq<byte>
    const fault: Option<nat>
    var pos: nat
    var calls: nat

    ghost predicate Valid()
      reads this
    {
      pos <= |content|
    }

    /** `open(path, 'rb')` on a regular file that opens. */
    constructor (f: FileData)
      ensures Valid()
      ensures content == f.content && fault == f.readFault && pos == 0 && calls == 0
    {
      content := f.content;
      fault := f.readFault;
      pos := 0;
      calls := 0;
    }

    /** `read(size)`: the next `size` bytes or what is left, empty at the end. */
    method Read(size: ChunkSize) returns (r: ReadResult)
      requires Valid()
      modifies this
      ensures Valid() && calls == old(calls) + 1
      ensures fault == Some(old(calls)) ==> r == ReadRaised && pos == old(pos)
      ensures fault != Some(old(calls)) ==>
                && r == Data(content[old(pos)..old(pos) + Min(size, |content| - old(pos))])
                && pos == old(pos) + |r.bytes|
    {
      calls := calls + 1;
      if fault == Some(calls - 1) {
        r := ReadRaised;
      } else {
        var n := Min(size, |content| - pos);
        r := Data(content[pos..pos + n]);
        pos := pos + n;
      }
    }
  }

  /**
   * The `while True` loop of `HashFile`. On success (Some) the object has
   * been updated with exactly the chunks of the block size, in file order,
   * so it has been fed the whole content, and the loop made one read more
   * than there are chunks. When a read raises (None), the chunks read before
   * it are the first chunks of the file.
   */
  method StreamDigest(inFile: InFile, h0: HashObject, size: ChunkSize)
    returns (r: Option<HashObject>, ghost chunks: seq<seq<byte>>)
    requires inFile.Valid() && inFile.pos == 0 && inFile.calls == 0
    modifies inFile
    ensures r.Some? <==> !(inFile.fault.Some? && inFile.fault.value < ReadCalls(inFile.content, size))
    ensures r.Some? ==> r.value == HashObject(h0.algorithm, h0.updates + chunks)
    ensures r.Some? ==> r.value.Fed() == h0.Fed() + inFile.content
    ensures r.Some? ==> chunks == Chunks(inFile.content, size) && inFile.calls == ReadCalls(inFile.content, size)
    ensures r.None? ==> chunks == Chunks(inFile.content, size)[..inFile.fault.value]
  {
    var hashObj := h0;
    chunks := [];
    ghost var all := Chunks(inFile.content, size);
    assert h0.updates + [] == h0.updates;
    while true
      invariant inFile.Valid() && inFile.calls == |chunks|
      invariant chunks + ChunksFrom(inFile.content, inFile.pos, size) == all
      invariant hashObj == HashObject(h0.algorithm, h0.updates + chunks)
      invariant !(inFile.fault.Some? && inFile.fault.value < inFile.calls)
      decreases |inFile.content| - inFile.pos
    {
      ghost var before := inFile.pos;
      var buff := inFile.Read(size);
      if buff.ReadRaised? {
        assert chunks == all[..|chunks|];
        assert inFile.fault.value == |chunks| < ReadCalls(inFile.content, size);
        r := None;
        return;
      }
      if |buff.bytes| > 0 {
        ghost var after := inFile.pos;
        assert buff.bytes == inFile.content[before..after];
        ChunksStep(chunks, all, inFile.content, before, after, size);
        assert (h0.updates + chunks) + [buff.bytes] == h0.updates + (chunks + [buff.bytes]);
        hashObj := hashObj.Update(buff.bytes);
        chunks := chunks + [buff.bytes];
      } else {
        assert chunks == all;
        assert inFile.calls == ReadCalls(inFile.content, size);
        FlattenConcat(h0.updates, chunks);
        FlattenChunks(inFile.content, size);
        r := Some(hashObj);
        return;
      }
    }
  }

  /** Reading one chunk from position `p` leaves the chunks from the next position. */
  lemma ChunksStep(done: seq<seq<byte>>, all: seq<seq<byte>>, content: seq<byte>, p: nat, q: nat, size: ChunkSize)
    requires p < |content| && q == p + Min(size, |content| - p)
    requires done + ChunksFrom(content, p, size) == all
    ensures (done + [content[p..q]]) + ChunksFrom(content, q, size) == all
  {
    var tail := ChunksFrom(content, q, size);
    assert ChunksFrom(content, p, size) == [content[p..q]] + tail;
    assert (done + [content[p..q]]) + tail == done + ([content[p..q]] + tail);
  }

  /**
   * Determinism: a file read to the end is fed to the hash as the same bytes
   * whatever the block size, so its digest does not depend on it.
   */
  lemma BlockSizeIrrelevant(content: seq<byte>, s1: ChunkSize, s2: ChunkSize)
    ensures Flatten(Chunks(content, s1)) == Flatten(Chunks(content, s2))
  {
    FlattenChunks(content, s1);
    FlattenChunks(content, s2);
  }
}
