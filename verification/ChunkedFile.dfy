/** The receiver's in-flight chunked file: deferred writes chained behind the wire. */
module ChunkedFile {
  import opened Bytes
  import opened FrameCodec
  import opened Sparse

  const WRITE_QUEUE_DEPTH: nat := 32

  lemma {:induction false} ConcatHead(a: seq<byte>, rest: seq<seq<byte>>)
    ensures Concat([a] + rest) == a + Concat(rest)
  {
    if rest == [] {
      assert [a] + rest == [a] && [a][..0] == [];
    } else {
      var front, last := rest[..|rest| - 1], rest[|rest| - 1];
      ConcatHead(a, front);
      assert ([a] + rest)[..|rest|] == [a] + front;
      BytesAssociate(a, Concat(front), last);
    }
  }

  lemma ConcatLast(parts: seq<seq<byte>>, d: seq<byte>)
    ensures Concat(parts + [d]) == Concat(parts) + d
  {
    assert (parts + [d])[..|parts|] == parts;
  }

  class InFlight {
    const fileId: u64
    const path: Text
    const size: nat
    const hashing: bool
    const writer: SparseWriter
    /** Chunks accepted and not yet written, oldest first. */
    var queue: seq<seq<byte>>
    var offset: nat
    /** What the hasher has seen. */
    var fed: seq<byte>
    /** Every chunk byte received for this file. */
    ghost var received: seq<byte>

    /** Written bytes plus queued chunks are the bytes received, in order; the hasher
        keeps pace with the writes, the counter with the wire. */
    ghost predicate Valid()
      reads this, writer, writer.inner
    {
      && writer.Valid() && writer.total == size && writer.stream + Concat(queue) == received
      && offset == |received| && |queue| <= WRITE_QUEUE_DEPTH && (hashing ==> fed == writer.stream)
    }

    constructor (fileId: u64, path: Text, size: nat, hashing: bool, writer: SparseWriter)
      requires writer.Valid() && writer.stream == [] && writer.total == size
      ensures Valid() && received == [] && queue == [] && this.writer == writer
      ensures this.fileId == fileId && this.path == path && this.size == size && this.hashing == hashing
    {
      this.fileId, this.path, this.size, this.hashing, this.writer := fileId, path, size, hashing, writer;
      queue, offset, fed, received := [], 0, [], [];
    }

    /** The oldest deferred write completes. */
    method WriteOldest()
      requires Valid() && queue != []
      modifies this`queue, this`fed, writer, writer.inner
      ensures Valid() && queue == old(queue)[1..]
    {
      hide Concat;
      var chunk := queue[0];
      assert queue == [chunk] + queue[1..];
      ConcatHead(chunk, queue[1..]);
      BytesAssociate(writer.stream, chunk, Concat(queue[1..]));
      queue := queue[1..];
      writer.WriteAll(chunk);
      if hashing {
        fed := fed + chunk;
      }
    }

    /** A chunk arrives: it waits only for a free slot, never for the disk. */
    method Accept(data: seq<byte>)
      requires Valid()
      modifies this, writer, writer.inner
      ensures Valid() && received == old(received) + data
    {
      hide Concat;
      while |queue| >= WRITE_QUEUE_DEPTH
        invariant Valid() && received == old(received)
        decreases |queue|
      {
        WriteOldest();
      }
      ConcatLast(queue, data);
      BytesAssociate(writer.stream, Concat(queue), data);
      queue := queue + [data];
      offset := offset + |data|;
      received := received + data;
    }

    /** Any number of deferred writes complete. */
    method Progress(n: nat)
      requires Valid()
      modifies this`queue, this`fed, writer, writer.inner
      ensures Valid()
    {
      var left := n;
      while left > 0 && |queue| > 0
        invariant Valid()
        decreases left
      {
        WriteOldest();
        left := left - 1;
      }
    }

    /** Join the write chain and finish the file. */
    method Join()
      requires Valid()
      modifies this`queue, this`fed, writer, writer.inner
      ensures writer.inner.content == Fit(received, size) && (hashing ==> fed == received)
    {
      while |queue| > 0
        invariant Valid()
        decreases |queue|
      {
        WriteOldest();
      }
      assert writer.stream + Concat([]) == writer.stream;
      writer.Finish();
    }

    /** The abort path under `--partial`: join, then cut to the bytes received. */
    method Abort()
      requires Valid()
      modifies this`queue, this`fed, writer, writer.inner
      ensures writer.inner.content == received
    {
      while |queue| > 0
        invariant Valid()
        decreases |queue|
      {
        WriteOldest();
      }
      assert writer.stream + Concat([]) == writer.stream;
      writer.SetLen(offset);
    }
  }
}
