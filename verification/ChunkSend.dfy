/** `send_chunked`: a large file as a stream of chunk frames, read one buffer ahead
    and written to the wire in batches. */
module ChunkSend {
  import opened Bytes
  import opened Reader
  import opened DeltaOps
  import opened FrameCodec
  import opened FrameReceive
  import opened Sparse

  datatype SendError = ReadFailed | Unsendable

  // ---- what is put on the wire ----

  /** Frames in order. */
  function WireAll(c: Codec, outs: seq<Outgoing>): seq<byte> {
    if outs == [] then [] else WireAll(c, outs[..|outs| - 1]) + WireOf(c, outs[|outs| - 1])
  }

  function Control(f: Frame): Outgoing { OutControl(f, false, 0) }

  function ChunkOuts(fileId: u64, chunks: seq<seq<byte>>): seq<Outgoing> {
    seq(|chunks|, k requires 0 <= k < |chunks| => OutChunk(fileId, chunks[k]))
  }

  /** The frames of one chunked file. */
  function FileOuts(fileId: u64, path: Text, size: nat, chunks: seq<seq<byte>>): seq<Outgoing> {
    [Control(FileStart(fileId, path, size))] + ChunkOuts(fileId, chunks) + [Control(FileEnd(fileId))]
  }

  /** The frames of one that broke off. */
  function OpenOuts(fileId: u64, path: Text, size: nat, chunks: seq<seq<byte>>): seq<Outgoing> {
    [Control(FileStart(fileId, path, size))] + ChunkOuts(fileId, chunks)
  }

  /** The start and end frames fit the length field. */
  predicate Announceable(c: Codec, fileId: u64, path: Text, size: nat) {
    Encode(c, FileStart(fileId, path, size), false, 0).Ok? && Encode(c, FileEnd(fileId), false, 0).Ok?
  }

  predicate GoodChunks(chunks: seq<seq<byte>>, chunkSize: nat) {
    forall k | 0 <= k < |chunks| :: 0 < |chunks[k]| <= chunkSize
  }

  lemma WireSnoc(c: Codec, outs: seq<Outgoing>, o: Outgoing)
    ensures WireAll(c, outs + [o]) == WireAll(c, outs) + WireOf(c, o)
  {
    assert (outs + [o])[..|outs|] == outs;
  }

  lemma ChunksSnoc(fileId: u64, chunks: seq<seq<byte>>, d: seq<byte>)
    ensures ChunkOuts(fileId, chunks + [d]) == ChunkOuts(fileId, chunks) + [OutChunk(fileId, d)]
    ensures Concat(chunks + [d]) == Concat(chunks) + d
  {
    assert (chunks + [d])[..|chunks|] == chunks;
  }

  // ---- the code ----

  method SendFrame(ctrl: Wire, c: Codec, f: Frame) returns (ok: bool)
    modifies ctrl
    ensures ok <==> Encode(c, f, false, 0).Ok?
    ensures ctrl.bytes == if ok then old(ctrl.bytes) + WireOf(c, Control(f)) else old(ctrl.bytes)
  {
    hide Encode;
    var w := Encode(c, f, false, 0);
    ok := w.Ok?;
    if ok {
      ctrl.Put(w.value);
    }
  }

  /** The stream so far: frames for `chunks` are on the wire or in the batch buffer,
      the next chunk has been read ahead, and the hasher has seen it. */
  ghost predicate Streaming(
    c: Codec, data: seq<byte>, pos: nat, start: seq<byte>, ctrl: seq<byte>, batch: seq<byte>, fileId: u64,
    chunks: seq<seq<byte>>, current: seq<byte>, sent: nat, fed: seq<byte>, chunkSize: nat, verify: bool)
  {
    && ctrl + batch == start + WireAll(c, ChunkOuts(fileId, chunks))
    && GoodChunks(chunks, chunkSize) && |current| <= chunkSize
    && pos <= |data| && Concat(chunks) + current == data[..pos] && sent == |Concat(chunks)|
    && (verify ==> fed == data[..pos])
  }

  lemma StreamStep(
    c: Codec, data: seq<byte>, pos: nat, start: seq<byte>, ctrl: seq<byte>, batch: seq<byte>, fileId: u64,
    chunks: seq<seq<byte>>, current: seq<byte>, sent: nat, fed: seq<byte>, chunkSize: nat, verify: bool,
    next: seq<byte>, ctrl': seq<byte>, batch': seq<byte>, fed': seq<byte>)
    requires Streaming(c, data, pos, start, ctrl, batch, fileId, chunks, current, sent, fed, chunkSize, verify)
    requires current != [] && pos + |next| <= |data| && next == data[pos..pos + |next|] && |next| <= chunkSize
    requires ctrl' + batch' == ctrl + (batch + ChunkWire(fileId, current)) && (verify ==> fed' == fed + next)
    ensures Streaming(c, data, pos + |next|, start, ctrl', batch', fileId, chunks + [current], next,
      sent + |current|, fed', chunkSize, verify)
  {
    hide ChunkWire;
    ChunksSnoc(fileId, chunks, current);
    WireSnoc(c, ChunkOuts(fileId, chunks), OutChunk(fileId, current));
    BytesAssociate(ctrl, batch, ChunkWire(fileId, current));
    BytesAssociate(start, WireAll(c, ChunkOuts(fileId, chunks)), ChunkWire(fileId, current));
    assert data[..pos] + next == data[..pos + |next|];
  }

  /** The chunks on the wire so far, the batch buffer apart. */
  ghost predicate Flushed(
    c: Codec, data: seq<byte>, start: seq<byte>, ctrl: seq<byte>, fileId: u64, out: seq<seq<byte>>, chunkSize: nat)
  {
    && ctrl == start + WireAll(c, ChunkOuts(fileId, out))
    && GoodChunks(out, chunkSize) && Concat(out) <= data
  }

  lemma FlushedStart(c: Codec, data: seq<byte>, start: seq<byte>, fileId: u64, chunkSize: nat)
    ensures Flushed(c, data, start, start, fileId, [], chunkSize)
  {
    assert start + [] == start;
  }

  /** A full batch buffer puts every chunk framed so far on the wire. */
  lemma FlushedAll(
    c: Codec, data: seq<byte>, pos: nat, start: seq<byte>, ctrl: seq<byte>, batch: seq<byte>, fileId: u64,
    chunks: seq<seq<byte>>, current: seq<byte>, sent: nat, fed: seq<byte>, chunkSize: nat, verify: bool)
    requires Streaming(c, data, pos, start, ctrl, batch, fileId, chunks, current, sent, fed, chunkSize, verify)
    requires current != []
    ensures Flushed(c, data, start, ctrl + (batch + ChunkWire(fileId, current)), fileId, chunks + [current], chunkSize)
  {
    hide ChunkWire;
    ChunksSnoc(fileId, chunks, current);
    WireSnoc(c, ChunkOuts(fileId, chunks), OutChunk(fileId, current));
    BytesAssociate(ctrl, batch, ChunkWire(fileId, current));
    BytesAssociate(start, WireAll(c, ChunkOuts(fileId, chunks)), ChunkWire(fileId, current));
    assert data[..pos] <= data;
  }

  /** The double-buffered loop: the next chunk is read before the current one is
      framed. A failed read drops what is still in the batch buffer. */
  method StreamChunks(
    ctrl: Wire, ghost c: Codec, source: Source, fileId: u64, chunkSize: nat, batchBytes: nat, verify: bool)
    returns (ok: bool, sent: nat, fed: seq<byte>, ghost chunks: seq<seq<byte>>)
    requires source.Valid() && source.pos == 0 && 0 < chunkSize && 9 + chunkSize <= MAX_LEN
    modifies ctrl, source
    ensures ctrl.bytes == old(ctrl.bytes) + WireAll(c, ChunkOuts(fileId, chunks))
    ensures GoodChunks(chunks, chunkSize) && Concat(chunks) <= source.data && (ok ==> Concat(chunks) == source.data)
    ensures ok ==> sent == |source.data| && (verify ==> fed == source.data)
    ensures NoFailure(source.schedule) ==> ok
  {
    hide Streaming, WireAll, ChunkOuts, Concat, ChunkWire, GoodChunks, Flushed;
    ghost var data, start := source.data, ctrl.bytes;
    chunks, fed, sent := [], [], 0;
    ghost var out: seq<seq<byte>> := [];
    FlushedStart(c, data, start, fileId, chunkSize);
    FlushedMeans(c, data, start, ctrl.bytes, fileId, out, chunkSize);
    var first := source.Read(chunkSize);
    if first.Err? {
      return false, sent, fed, out;
    }
    var bufs: seq<seq<byte>> := [first.value, []];
    if verify {
      fed := first.value;
    }
    var batch := new Wire();
    StreamStart(c, data, source.pos, start, fileId, first.value, fed, chunkSize, verify);
    var cur: nat := 0;
    while |bufs[cur]| > 0
      invariant cur < 2 && |bufs| == 2 && source.Valid() && fresh(batch)
      invariant Streaming(c, data, source.pos, start, ctrl.bytes, batch.bytes, fileId, chunks, bufs[cur], sent, fed,
        chunkSize, verify)
      invariant bufs[cur] == [] ==> source.pos == |data|
      invariant Flushed(c, data, start, ctrl.bytes, fileId, out, chunkSize)
      decreases |data| - source.pos, |bufs[cur]|
    {
      ghost var at, wire, held, seen := source.pos, ctrl.bytes, batch.bytes, fed;
      ghost var current := bufs[cur];
      ChunkFits(c, data, at, start, wire, held, fileId, chunks, current, sent, fed, chunkSize, verify);
      var next := 1 - cur;
      var ahead := source.Read(chunkSize);
      FlushedAll(c, data, at, start, wire, held, fileId, chunks, current, sent, fed, chunkSize, verify);
      var flushed := FrameChunk(ctrl, batch, fileId, bufs[cur], batchBytes);
      out := if flushed then chunks + [current] else out;
      sent := sent + |bufs[cur]|;
      if ahead.Err? {
        FlushedMeans(c, data, start, ctrl.bytes, fileId, out, chunkSize);
        return false, sent, fed, out;
      }
      if verify {
        fed := fed + ahead.value;
      }
      StreamStep(c, data, at, start, wire, held, fileId, chunks, current, sent - |current|, seen, chunkSize, verify,
        ahead.value, ctrl.bytes, batch.bytes, fed);
      chunks := chunks + [current];
      bufs := bufs[next := ahead.value];
      cur := next;
    }
    StreamEnd(c, data, start, ctrl.bytes, batch.bytes, fileId, chunks, sent, fed, chunkSize, verify);
    ctrl.Put(batch.bytes);
    ok := true;
  }

  /** Streams a file. However the reads split it, what crosses the wire is the start
      frame, chunk frames whose data joins to exactly the bytes read, and the end
      frame; the count and the hash are those of the same bytes. When the file cannot be
      opened (a first read that fails) or a read fails, the start frame is already out,
      with chunk frames of some prefix of the data, and no end frame follows. */
  method SendChunked(
    ctrl: Wire, c: Codec, source: Source, fileId: u64, path: Text, size: nat, chunkSize: nat, batchBytes: nat,
    verify: bool, h: Hash)
    returns (r: Result<(nat, Digest), SendError>, ghost chunks: seq<seq<byte>>)
    requires source.Valid() && source.pos == 0 && 0 < chunkSize && 9 + chunkSize <= MAX_LEN
    modifies ctrl, source
    ensures r.Ok? ==> ctrl.bytes == old(ctrl.bytes) + WireAll(c, FileOuts(fileId, path, size, chunks))
    ensures r.Ok? ==> GoodChunks(chunks, chunkSize) && Concat(chunks) == source.data
    ensures r.Ok? ==> Announceable(c, fileId, path, size)
    ensures r == Err(ReadFailed) ==> ctrl.bytes == old(ctrl.bytes) + WireAll(c, OpenOuts(fileId, path, size, chunks))
    ensures r == Err(ReadFailed) ==> GoodChunks(chunks, chunkSize) && Concat(chunks) <= source.data
    ensures r == Err(ReadFailed) ==> Encode(c, FileStart(fileId, path, size), false, 0).Ok?
    ensures r == Err(Unsendable) ==> !Announceable(c, fileId, path, size)
    ensures r.Ok? ==> r.value.0 == |source.data| && r.value.1 == if verify then h(source.data) else Zeros(32)
    ensures NoFailure(source.schedule) && Announceable(c, fileId, path, size) ==> r.Ok?
  {
    hide Encode, WireOf, WireAll, ChunkOuts, Concat, GoodChunks, FileOuts, OpenOuts;
    chunks := [];
    var announced := SendFrame(ctrl, c, FileStart(fileId, path, size));
    if !announced {
      return Err(Unsendable), [];
    }
    var ok, sent, fed;
    ok, sent, fed, chunks := StreamChunks(ctrl, c, source, fileId, chunkSize, batchBytes, verify);
    if !ok {
      OpenWire(c, old(ctrl.bytes), fileId, path, size, chunks);
      return Err(ReadFailed), chunks;
    }
    ghost var streamed := ctrl.bytes;
    var ended := SendFrame(ctrl, c, FileEnd(fileId));
    if !ended {
      return Err(Unsendable), chunks;
    }
    FileWire(c, old(ctrl.bytes), fileId, path, size, chunks, streamed);
    r := Ok((sent, if verify then h(fed) else Zeros(32)));
  }

  lemma StreamStart(
    c: Codec, data: seq<byte>, pos: nat, start: seq<byte>, fileId: u64, current: seq<byte>, fed: seq<byte>,
    chunkSize: nat, verify: bool)
    requires pos <= |data| && current == data[0..pos] && |current| <= chunkSize && (verify ==> fed == current)
    ensures Streaming(c, data, pos, start, start, [], fileId, [], current, 0, fed, chunkSize, verify)
  {
    assert [] + current == data[..pos];
    assert start + [] == start;
  }

  lemma ChunkFits(
    c: Codec, data: seq<byte>, pos: nat, start: seq<byte>, ctrl: seq<byte>, batch: seq<byte>, fileId: u64,
    chunks: seq<seq<byte>>, current: seq<byte>, sent: nat, fed: seq<byte>, chunkSize: nat, verify: bool)
    requires Streaming(c, data, pos, start, ctrl, batch, fileId, chunks, current, sent, fed, chunkSize, verify)
    ensures |current| <= chunkSize && pos <= |data|
  {
  }

  lemma StreamEnd(
    c: Codec, data: seq<byte>, start: seq<byte>, ctrl: seq<byte>, batch: seq<byte>, fileId: u64,
    chunks: seq<seq<byte>>, sent: nat, fed: seq<byte>, chunkSize: nat, verify: bool)
    requires Streaming(c, data, |data|, start, ctrl, batch, fileId, chunks, [], sent, fed, chunkSize, verify)
    ensures ctrl + batch == start + WireAll(c, ChunkOuts(fileId, chunks)) && GoodChunks(chunks, chunkSize)
    ensures Concat(chunks) == data && sent == |data| && (verify ==> fed == data)
  {
    assert Concat(chunks) + [] == Concat(chunks) && data[..|data|] == data;
  }

  /** Frame a chunk into the batch buffer, and write that out once it is large enough. */
  method FrameChunk(ctrl: Wire, batch: Wire, fileId: u64, data: seq<byte>, batchBytes: nat) returns (flushed: bool)
    requires ctrl != batch && 9 + |data| <= MAX_LEN
    modifies ctrl, batch
    ensures ctrl.bytes + batch.bytes == old(ctrl.bytes) + (old(batch.bytes) + ChunkWire(fileId, data))
    ensures ctrl.bytes ==
      if flushed then old(ctrl.bytes) + (old(batch.bytes) + ChunkWire(fileId, data)) else old(ctrl.bytes)
  {
    hide ChunkWire;
    var framed := ChunkFrameWire(fileId, data, batch);
    flushed := |batch.bytes| >= batchBytes;
    if flushed {
      ctrl.Put(batch.bytes);
      batch.bytes := [];
    }
  }

  lemma FlushedMeans(
    c: Codec, data: seq<byte>, start: seq<byte>, ctrl: seq<byte>, fileId: u64, out: seq<seq<byte>>, chunkSize: nat)
    requires Flushed(c, data, start, ctrl, fileId, out, chunkSize)
    ensures ctrl == start + WireAll(c, ChunkOuts(fileId, out))
    ensures GoodChunks(out, chunkSize) && Concat(out) <= data
  {
  }

  lemma {:induction false} OpenWire(
    c: Codec, before: seq<byte>, fileId: u64, path: Text, size: nat, chunks: seq<seq<byte>>)
    ensures before + WireOf(c, Control(FileStart(fileId, path, size))) + WireAll(c, ChunkOuts(fileId, chunks))
         == before + WireAll(c, OpenOuts(fileId, path, size, chunks))
  {
    hide WireOf, ChunkOuts;
    var first, body := Control(FileStart(fileId, path, size)), ChunkOuts(fileId, chunks);
    WireCons(c, first, body);
    BytesAssociate(before, WireOf(c, first), WireAll(c, body));
  }

  lemma {:induction false} FileWire(
    c: Codec, before: seq<byte>, fileId: u64, path: Text, size: nat, chunks: seq<seq<byte>>, streamed: seq<byte>)
    requires streamed == before + WireOf(c, Control(FileStart(fileId, path, size))) + WireAll(c, ChunkOuts(fileId, chunks))
    ensures streamed + WireOf(c, Control(FileEnd(fileId))) == before + WireAll(c, FileOuts(fileId, path, size, chunks))
  {
    hide WireOf, ChunkOuts;
    var first, body, last := Control(FileStart(fileId, path, size)), ChunkOuts(fileId, chunks), Control(FileEnd(fileId));
    WireCons(c, first, body);
    WireSnoc(c, [first] + body, last);
    assert before + WireOf(c, first) + WireAll(c, body) + WireOf(c, last)
        == before + (WireOf(c, first) + WireAll(c, body) + WireOf(c, last));
  }

  lemma {:induction false} WireCons(c: Codec, o: Outgoing, outs: seq<Outgoing>)
    ensures WireAll(c, [o] + outs) == WireOf(c, o) + WireAll(c, outs)
  {
    hide WireOf;
    if outs == [] {
      assert [o] + outs == [o] && [o][..0] == [];
    } else {
      var front, last := outs[..|outs| - 1], outs[|outs| - 1];
      WireCons(c, o, front);
      assert ([o] + outs)[..|outs|] == [o] + front;
      BytesAssociate(WireOf(c, o), WireAll(c, front), WireOf(c, last));
    }
  }
}
