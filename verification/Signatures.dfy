/** Basis signatures of the fixed-block engine and their streaming generator. */
module Signatures {
  import opened Bytes
  import opened Reader
  import opened DeltaOps
  import Rollsum

  datatype ChunkSig = ChunkSig(offset: nat, len: nat, weak: Option<u32>, strong: Digest)

  /** Block lengths fit the 32-bit field that carries them. */
  predicate Slim(chunks: seq<ChunkSig>) {
    forall i | 0 <= i < |chunks| :: chunks[i].len < 0x1_0000_0000
  }

  datatype Signature = Signature(fileSize: nat, chunks: seq<ChunkSig>)

  // ---- specification: the contiguous block tiling ----

  function BlockSig(data: seq<byte>, offset: nat, len: nat, h: Hash): ChunkSig
    requires offset + len <= |data|
  {
    var block := Slice(data, offset, len);
    ChunkSig(offset, len, Some(Rollsum.WeakOf(block)), h(block))
  }

  /** Blocks of `block` bytes from `offset` on; the last one may be short. */
  function Tile(data: seq<byte>, offset: nat, block: nat, h: Hash): seq<ChunkSig>
    requires offset <= |data| && block > 0
    decreases |data| - offset
  {
    if offset == |data| then []
    else
      var n := Min(block, |data| - offset);
      [BlockSig(data, offset, n, h)] + Tile(data, offset + n, block, h)
  }

  /** What a tile list covers: the blocks are contiguous from `offset` to the end,
      every block but the last is full, and each carries the checksums of its own
      bytes. */
  lemma {:induction false} TileShape(data: seq<byte>, offset: nat, block: nat, h: Hash, i: nat)
    requires offset <= |data| && block > 0
    requires i < |Tile(data, offset, block, h)|
    ensures var t := Tile(data, offset, block, h); var c := t[i];
      && (i == 0 ==> c.offset == offset)
      && 0 < c.len <= block && c.offset + c.len <= |data|
      && c == BlockSig(data, c.offset, c.len, h)
      && (if i + 1 < |t| then c.len == block && t[i + 1].offset == c.offset + block
          else c.offset + c.len == |data|)
    decreases |data| - offset
  {
    var n := Min(block, |data| - offset);
    var t, rest := Tile(data, offset, block, h), Tile(data, offset + n, block, h);
    assert t == [BlockSig(data, offset, n, h)] + rest;
    assert rest == [] ==> offset + n == |data|;
    hide Tile;
    if i > 0 {
      TileShape(data, offset + n, block, h, i - 1);
      assert t[i] == rest[i - 1];
    } else if rest != [] {
      TileShape(data, offset + n, block, h, 0);
    }
  }

  /** Block i starts at i times the block size. */
  lemma {:induction false} TileOffset(data: seq<byte>, block: nat, h: Hash, i: nat)
    requires block > 0 && i < |Tile(data, 0, block, h)|
    ensures Tile(data, 0, block, h)[i].offset == i * block
    decreases i
  {
    if i == 0 {
      TileShape(data, 0, block, h, 0);
    } else {
      hide Tile;
      TileOffset(data, block, h, i - 1);
      TileShape(data, 0, block, h, i - 1);
      assert (i - 1) * block + block == i * block;
    }
  }

  // ---- the background hash worker ----

  /** One thread behind two FIFO channels: blocks in, digests out. */
  class HashWorker {
    const h: Hash
    var inbox: seq<(nat, seq<byte>)>
    var outbox: seq<(nat, Digest)>

    constructor (h: Hash)
      ensures this.h == h && Due() == []
    {
      this.h := h;
      inbox, outbox := [], [];
    }

    /** The digests still to be received, in submission order. */
    ghost function Due(): seq<(nat, Digest)>
      reads this
    {
      outbox + seq(|inbox|, i requires 0 <= i < |inbox| reads this => (inbox[i].0, h(inbox[i].1)))
    }

    method Submit(offset: nat, data: seq<byte>)
      modifies this
      ensures Due() == old(Due()) + [(offset, h(data))]
    {
      inbox := inbox + [(offset, data)];
    }

    /** The worker hashes its oldest block: invisible from the outside. */
    method HashOne()
      requires inbox != []
      modifies this
      ensures Due() == old(Due()) && |inbox| == |old(inbox)| - 1 && outbox != []
    {
      outbox := outbox + [(inbox[0].0, h(inbox[0].1))];
      inbox := inbox[1..];
    }

    /** `recv`: however far the worker has run, the oldest submission comes back. */
    method Receive() returns (offset: nat, digest: Digest)
      requires Due() != []
      modifies this
      ensures old(Due()) == [(offset, digest)] + Due()
    {
      var ahead := *;
      var ran := 0;
      while inbox != [] && (outbox == [] || ran < ahead)
        invariant Due() == old(Due())
        decreases |inbox|
      {
        HashOne();
        ran := ran + 1;
      }
      offset, digest := outbox[0].0, outbox[0].1;
      outbox := outbox[1..];
    }
  }

  function Unhashed(c: ChunkSig): ChunkSig {
    c.(strong := Zeros(32))
  }

  /** `full` is the batch's final form, `chunks` what the scan pushed so far:
      strong hashes filled in below `filled`, the rest still due from the worker. */
  ghost predicate BatchState(
    full: seq<ChunkSig>, chunks: seq<ChunkSig>, filled: nat, due: seq<(nat, Digest)>)
  {
    && |chunks| == |full| && filled <= |full|
    && chunks[..filled] == full[..filled]
    && (forall j | filled <= j < |full| :: chunks[j] == Unhashed(full[j]))
    && |due| == |full| - filled
    && (forall j | 0 <= j < |due| :: due[j] == (full[filled + j].offset, full[filled + j].strong))
  }

  lemma BatchPushed(
    full: seq<ChunkSig>, chunks: seq<ChunkSig>, filled: nat, due: seq<(nat, Digest)>, c: ChunkSig)
    requires BatchState(full, chunks, filled, due)
    ensures BatchState(full + [c], chunks + [Unhashed(c)], filled, due + [(c.offset, c.strong)])
  {
    assert (chunks + [Unhashed(c)])[..filled] == chunks[..filled];
    assert (full + [c])[..filled] == full[..filled];
  }

  lemma BatchFilled(
    full: seq<ChunkSig>, chunks: seq<ChunkSig>, filled: nat, due: seq<(nat, Digest)>)
    requires BatchState(full, chunks, filled, due) && filled < |chunks|
    ensures due != [] && due[0].0 == chunks[filled].offset
    ensures BatchState(full, chunks[filled := chunks[filled].(strong := due[0].1)], filled + 1, due[1..])
  {
    var next := chunks[filled := chunks[filled].(strong := due[0].1)];
    assert next[..filled + 1] == chunks[..filled] + [full[filled]];
    assert full[..filled + 1] == full[..filled] + [full[filled]];
    forall j | 0 <= j < |due| - 1
      ensures due[1..][j] == (full[filled + 1 + j].offset, full[filled + 1 + j].strong)
    {
      assert due[1..][j] == due[j + 1];
    }
  }

  /** One buffered batch: weak checksums in the foreground, strong hashes from the
      worker, the sub-block remainder kept for the next batch. */
  method SignBatch(
    worker: HashWorker, ghost seen: seq<byte>, chunks: seq<ChunkSig>, offset: nat, src: seq<byte>, block: nat,
    ghost data: seq<byte>) returns (chunks': seq<ChunkSig>, offset': nat, src': seq<byte>)
    requires block > 0 && worker.Due() == []
    requires offset <= |seen| && src == seen[offset..] && seen <= data
    requires chunks + Tile(data, offset, block, worker.h) == Tile(data, 0, block, worker.h)
    modifies worker
    ensures worker.Due() == []
    ensures offset' <= |seen| && src' == seen[offset'..] && |src'| < block
    ensures chunks' + Tile(data, offset', block, worker.h) == Tile(data, 0, block, worker.h)
  {
    hide Tile;
    var h := worker.h;
    chunks', offset' := chunks, offset;
    var batchStart := |chunks|;
    var pos: nat := 0;
    ghost var full := chunks;
    while pos + block <= |src|
      invariant pos <= |src| && offset' == offset + pos
      invariant BatchState(full, chunks', batchStart, worker.Due())
      invariant full + Tile(data, offset', block, h) == Tile(data, 0, block, h)
    {
      var window := src[pos..pos + block];
      assert window == Slice(data, offset', block);
      var s1, s2 := Rollsum.WeakInit(window);
      BatchPushed(full, chunks', batchStart, worker.Due(), BlockSig(data, offset', block, h));
      TileNext(full, data, offset', block, h);
      worker.Submit(offset', window);
      chunks' := chunks' + [ChunkSig(offset', block, Some(Rollsum.WeakValue(s1, s2)), Zeros(32))];
      full := full + [BlockSig(data, offset', block, h)];
      offset' := offset' + block;
      pos := pos + block;
    }
    chunks' := CollectHashes(worker, chunks', batchStart, full);
    src' := src[pos..];
  }

  /** Fill in the batch's strong hashes, in submission order. */
  method CollectHashes(worker: HashWorker, chunks: seq<ChunkSig>, batchStart: nat, ghost full: seq<ChunkSig>)
    returns (chunks': seq<ChunkSig>)
    requires BatchState(full, chunks, batchStart, worker.Due())
    modifies worker
    ensures chunks' == full && worker.Due() == []
  {
    chunks' := chunks;
    var i := batchStart;
    while i < |chunks'|
      invariant batchStart <= i <= |chunks'|
      invariant BatchState(full, chunks', i, worker.Due())
    {
      hide BatchState;
      BatchFilled(full, chunks', i, worker.Due());
      ghost var due := worker.Due();
      var off, digest := worker.Receive();
      assert due[0] == (off, digest) && due[1..] == worker.Due();
      chunks' := chunks'[i := chunks'[i].(strong := digest)];
      i := i + 1;
    }
    assert chunks'[..i] == chunks' && full[..i] == full;
  }

  /** The streaming generator yields exactly the tiling of its input, whatever the
      read splitting, the buffer size and the worker's progress. */
  method GenerateRollsum(source: Source, blockSize: nat, h: Hash, buf: nat)
    returns (r: Result<Signature, DeltaError>)
    requires source.Valid() && source.pos == 0 && buf > 0
    modifies source
    ensures r.Ok? ==> r.value == Signature(|source.data|, Tile(source.data, 0, BlockOf(blockSize), h))
    ensures r.Err? ==> r.error == Chunking
    ensures NoFailure(source.schedule) && BlockOf(blockSize) < 0x1_0000_0000 ==> r.Ok?
  {
    hide Tile;
    var block := BlockOf(blockSize);
    var worker := new HashWorker(h);
    ghost var data := source.data;
    var chunks: seq<ChunkSig> := [];
    var src: seq<byte> := [];
    var offset: nat := 0;
    while true
      invariant source.Valid() && fresh(worker) && worker.h == h && worker.Due() == []
      invariant offset <= source.pos && src == data[offset..source.pos] && |src| < block
      invariant chunks + Tile(data, offset, block, h) == Tile(data, 0, block, h)
      decreases |data| - source.pos
    {
      ghost var before := source.pos;
      var got := source.Fill(buf);
      if got.Err? {
        return Err(Chunking);
      }
      assert data[offset..before] + data[before..source.pos] == data[offset..source.pos];
      src := src + got.value;
      if |got.value| == 0 {
        assert source.pos == |data|;
        break;
      }
      if block >= 0x1_0000_0000 && block <= |src| {
        return Err(Chunking);
      }
      assert src == data[..source.pos][offset..];
      ghost var seen := source.pos;
      chunks, offset, src := SignBatch(worker, data[..seen], chunks, offset, src, block, data);
      assert src == data[offset..seen];
    }
    if |src| >= 0x1_0000_0000 {
      return Err(Chunking);
    }
    chunks := SignTail(worker, chunks, offset, src, block, data);
    return Ok(Signature(offset + |src|, chunks));
  }

  /** The final short block, if any. */
  method SignTail(
    worker: HashWorker, chunks: seq<ChunkSig>, offset: nat, src: seq<byte>, block: nat, ghost data: seq<byte>)
    returns (chunks': seq<ChunkSig>)
    requires worker.Due() == [] && |src| < block
    requires offset <= |data| && src == data[offset..]
    requires chunks + Tile(data, offset, block, worker.h) == Tile(data, 0, block, worker.h)
    modifies worker
    ensures chunks' == Tile(data, 0, block, worker.h)
  {
    hide Tile;
    chunks' := chunks;
    TileEnd(data, block, worker.h);
    if |src| == 0 {
      assert offset == |data| && chunks + [] == chunks;
    } else {
      TileNext(chunks, data, offset, block, worker.h);
      ghost var c := BlockSig(data, offset, |src|, worker.h);
      assert chunks + [c] + [] == chunks + [c];
      assert src == Slice(data, offset, |src|);
      var s1, s2 := Rollsum.WeakInit(src);
      worker.Submit(offset, src);
      var last := ChunkSig(offset, |src|, Some(Rollsum.WeakValue(s1, s2)), Zeros(32));
      assert worker.Due()[0] == (offset, worker.h(src)) && |worker.Due()| == 1;
      ghost var due := worker.Due();
      var off, digest := worker.Receive();
      assert due[0] == (off, digest);
      assert last.(strong := digest) == c;
      chunks' := chunks + [last.(strong := digest)];
    }
  }

  /** `block_size.max(1)`. */
  function BlockOf(blockSize: nat): nat {
    if blockSize == 0 then 1 else blockSize
  }

  lemma TileEnd(data: seq<byte>, block: nat, h: Hash)
    requires block > 0
    ensures Tile(data, |data|, block, h) == []
  {
  }

  lemma TileNext(done: seq<ChunkSig>, data: seq<byte>, offset: nat, block: nat, h: Hash)
    requires block > 0 && offset < |data|
    requires done + Tile(data, offset, block, h) == Tile(data, 0, block, h)
    ensures var n := Min(block, |data| - offset);
      done + [BlockSig(data, offset, n, h)] + Tile(data, offset + n, block, h) == Tile(data, 0, block, h)
  {
  }
}
