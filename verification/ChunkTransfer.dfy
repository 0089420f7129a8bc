/** A chunked file from the sender's reads to the receiver's committed bytes. */
module ChunkTransfer {
  import opened Bytes
  import opened Reader
  import opened DeltaOps
  import opened FrameCodec
  import opened FrameReceive
  import opened Sparse
  import opened ChunkedFile
  import opened ChunkSend
  import opened Applies
  import opened ReceiverState

  datatype TransferError = Send(s: SendError) | Frame(f: FrameError) | Apply(a: ApplyError) | Unexpected

  // ---- the frames still to come ----

  /** The frames from the `i`th on come next, and take the stream to `end`. */
  ghost predicate FramesAhead(
    c: Codec, data: seq<byte>, pos: nat, outs: seq<Outgoing>, i: nat, utf8: Text -> bool, end: nat)
  {
    && i <= |outs| && Ahead(data, pos, WireAll(c, outs[i..])) && pos + |WireAll(c, outs[i..])| == end
    && forall k | 0 <= k < |outs| :: CanSend(c, outs[k], utf8)
  }

  lemma NextFrame(
    c: Codec, data: seq<byte>, pos: nat, outs: seq<Outgoing>, i: nat, utf8: Text -> bool, end: nat)
    requires FramesAhead(c, data, pos, outs, i, utf8, end) && i < |outs|
    ensures CanSend(c, outs[i], utf8) && Ahead(data, pos, WireOf(c, outs[i]))
    ensures FramesAhead(c, data, pos + |WireOf(c, outs[i])|, outs, i + 1, utf8, end)
  {
    hide WireOf, CanSend, Ahead;
    WireCons(c, outs[i], outs[i + 1..]);
    assert [outs[i]] + outs[i + 1..] == outs[i..];
    Split(data, pos, WireOf(c, outs[i]), WireAll(c, outs[i + 1..]));
  }

  lemma FileSendable(
    c: Codec, fileId: u64, path: Text, size: nat, chunks: seq<seq<byte>>, chunkSize: nat, utf8: Text -> bool, k: nat)
    requires GoodChunks(chunks, chunkSize) && 9 + chunkSize <= MAX_LEN && k < |FileOuts(fileId, path, size, chunks)|
    requires Announceable(c, fileId, path, size)
    ensures CanSend(c, FileOuts(fileId, path, size, chunks)[k], utf8)
  {
    hide Encode;
  }

  lemma FileShape(fileId: u64, path: Text, size: nat, chunks: seq<seq<byte>>)
    ensures var outs := FileOuts(fileId, path, size, chunks);
      && |outs| == |chunks| + 2 && outs[0] == Control(FileStart(fileId, path, size))
      && outs[|chunks| + 1] == Control(FileEnd(fileId))
      && forall k | 0 <= k < |chunks| :: outs[k + 1] == OutChunk(fileId, chunks[k])
  {
  }

  // ---- the receive loop over one file's frames ----

  /** Decode one frame and hand it to its handler; `ended` after an end frame. */
  method ReceiveOne(
    pipe: Pipe, c: Codec, utf8: Text -> bool, state: ApplyState, luck: Luck, preallocated: nat, most: nat,
    ghost out: Outgoing)
    returns (r: Result<bool, TransferError>)
    requires pipe.Valid() && Faithful(c) && state.Valid() && most > 0 && luck.staged
    requires CanSend(c, out, utf8) && Ahead(pipe.data, pipe.pos, WireOf(c, out))
    requires FrameOf(out).FileStart? ==> state.slot.Idle?
    requires FrameOf(out).FileChunk? ==> state.slot.Receiving? && state.slot.file.fileId == FrameOf(out).fileId
    requires FrameOf(out).FileEnd? ==> state.slot.Receiving?
    modifies pipe, state`slot, state`skipped, state`written, state`reused, state`dest, state`streams, state`hashes, state`plain,
      state`due, state.Flight()
    ensures pipe.Valid() && pipe.pos == old(pipe.pos) + |WireOf(c, out)|
    ensures FrameOf(out).FileStart? ==>
      && r == Ok(false) && state.Valid() && state.slot.Receiving? && fresh(state.Flight())
      && state.slot.file.received == [] && state.slot.file.path == FrameOf(out).path
      && state.slot.file.size == FrameOf(out).size && state.slot.file.fileId == FrameOf(out).fileId
      && state.dest == old(state.dest) && state.hashes == old(state.hashes)
    ensures FrameOf(out).FileChunk? ==>
      && r == Ok(false) && state.Valid() && state.slot == old(state.slot)
      && state.slot.file.received == old(state.slot.file.received) + FrameOf(out).data
      && state.dest == old(state.dest) && state.hashes == old(state.hashes)
    ensures FrameOf(out).FileEnd? ==>
      var p, stream := old(state.slot).file.path, old(state.slot.file.received);
      var content := Fit(stream, old(state.slot).file.size);
      && (r == Ok(true) <==> luck.committed && (p in state.sizes ==> luck.stamped)) && (r.Ok? ==> r == Ok(true))
      && (r.Ok? ==> state.Valid() && state.dest == old(state.dest)[p := content])
      && (r.Ok? ==> p in state.streams && state.streams[p] == stream)
      && (r.Ok? && state.verify && (p in state.sizes ==> luck.still && |content| == state.sizes[p]) ==>
            state.hashes == old(state.hashes)[p := state.h(stream)])
  {
    hide Ahead, WireOf, CanSend, Faithful, Consistent, Held, Concat, Fit, Recipes;
    var frame := ReceiveFrame(pipe, c, utf8, Some(out));
    match frame.value {
      case FileStart(fileId, path, size) =>
        var started := state.HandleFileStart(fileId, path, size, luck.staged, preallocated, most);
        r := Ok(false);
      case FileChunk(fileId, data) =>
        var accepted := state.HandleFileChunk(fileId, data);
        r := Ok(false);
      case FileEnd(_) =>
        var ended := state.HandleFileEnd(luck);
        r := if ended.Ok? then Ok(true) else Err(Apply(ended.error));
      case _ =>
        r := Err(Unexpected);
    }
  }

  /** After `i` frames of the file: its chunks so far have been received. */
  ghost predicate Midway(state: ApplyState, fileId: u64, path: Text, size: nat, chunks: seq<seq<byte>>, i: nat)
    reads state, state.Flight()
  {
    && state.Valid() && 1 <= i <= |chunks| + 1 && state.slot.Receiving?
    && state.slot.file.fileId == fileId && state.slot.file.path == path && state.slot.file.size == size
    && state.slot.file.received == Concat(chunks[..i - 1])
  }

  /** The file has been committed, and hashed if it settled. */
  ghost predicate Landed(
    state: ApplyState, dest: Files, hashes: map<Text, Digest>, path: Text, size: nat, chunks: seq<seq<byte>>, luck: Luck)
    reads state, state.Flight()
  {
    && state.Valid() && luck.committed && (path in state.sizes ==> luck.stamped)
    && state.dest == dest[path := Fit(Concat(chunks), size)]
    && path in state.streams && state.streams[path] == Concat(chunks)
    && (state.verify && (path in state.sizes ==> luck.still && size == state.sizes[path]) ==>
          state.hashes == hashes[path := state.h(Concat(chunks))])
  }

  /** One more frame of the file: a chunk, or the end. */
  method ReceiveNext(
    pipe: Pipe, c: Codec, utf8: Text -> bool, state: ApplyState, luck: Luck, preallocated: nat, most: nat,
    ghost fileId: u64, ghost path: Text, ghost size: nat, ghost chunks: seq<seq<byte>>, ghost i: nat, ghost end: nat)
    returns (r: Result<bool, TransferError>)
    requires pipe.Valid() && Faithful(c) && most > 0 && luck.staged
    requires Midway(state, fileId, path, size, chunks, i)
    requires FramesAhead(c, pipe.data, pipe.pos, FileOuts(fileId, path, size, chunks), i, utf8, end)
    modifies pipe, state`slot, state`skipped, state`written, state`reused, state`dest, state`streams, state`hashes, state`plain,
      state`due, state.Flight()
    ensures pipe.Valid() && FramesAhead(c, pipe.data, pipe.pos, FileOuts(fileId, path, size, chunks), i + 1, utf8, end)
    ensures i <= |chunks| ==> r == Ok(false) && Midway(state, fileId, path, size, chunks, i + 1)
    ensures i <= |chunks| ==>
      state.dest == old(state.dest) && state.hashes == old(state.hashes) && state.slot == old(state.slot)
    ensures i == |chunks| + 1 ==> (r == Ok(true) <==> luck.committed && (path in state.sizes ==> luck.stamped))
    ensures i == |chunks| + 1 && r.Ok? ==>
      r == Ok(true) && Landed(state, old(state.dest), old(state.hashes), path, size, chunks, luck)
  {
    hide FramesAhead, WireAll, WireOf, CanSend, Ahead, FileOuts, Faithful, Consistent, Held, Concat, Fit;
    ghost var outs := FileOuts(fileId, path, size, chunks);
    FileShape(fileId, path, size, chunks);
    if i <= |chunks| {
      assert outs[i] == OutChunk(fileId, chunks[i - 1]);
    }
    NextFrame(c, pipe.data, pipe.pos, outs, i, utf8, end);
    ChunkJoins(chunks, i);
    FitSame(Concat(chunks), size);
    r := ReceiveOne(pipe, c, utf8, state, luck, preallocated, most, outs[i]);
  }

  /** The frames after the start frame, with deferred writes completing in any rhythm. */
  method ReceiveRest(
    pipe: Pipe, c: Codec, utf8: Text -> bool, state: ApplyState, luck: Luck, preallocated: nat, most: nat,
    rhythm: nat -> nat, ghost fileId: u64, ghost path: Text, ghost size: nat, ghost chunks: seq<seq<byte>>, ghost end: nat)
    returns (r: Result<(), TransferError>)
    requires pipe.Valid() && Faithful(c) && most > 0 && luck.staged
    requires Midway(state, fileId, path, size, chunks, 1)
    requires FramesAhead(c, pipe.data, pipe.pos, FileOuts(fileId, path, size, chunks), 1, utf8, end)
    modifies pipe, state`slot, state`skipped, state`written, state`reused, state`dest, state`streams, state`hashes, state`plain,
      state`due, state.Flight()
    ensures pipe.Valid() && (r.Ok? <==> luck.committed && (path in state.sizes ==> luck.stamped))
    ensures r.Ok? ==> Landed(state, old(state.dest), old(state.hashes), path, size, chunks, luck)
    ensures r.Ok? ==>
      FramesAhead(c, pipe.data, pipe.pos, FileOuts(fileId, path, size, chunks), |chunks| + 2, utf8, end)
  {
    hide FramesAhead, Midway, Landed, FileOuts, Faithful;
    ghost var i := 1;
    var ended := false;
    var n: nat := 0;
    while !ended
      invariant pipe.Valid() && 1 <= i <= |chunks| + 2
      invariant FramesAhead(c, pipe.data, pipe.pos, FileOuts(fileId, path, size, chunks), i, utf8, end)
      invariant !ended ==> i <= |chunks| + 1 && Midway(state, fileId, path, size, chunks, i)
      invariant !ended ==> state.dest == old(state.dest) && state.hashes == old(state.hashes) && state.slot == old(state.slot)
      invariant ended ==> i == |chunks| + 2 && luck.committed && (path in state.sizes ==> luck.stamped)
      invariant ended ==> Landed(state, old(state.dest), old(state.hashes), path, size, chunks, luck)
      decreases |chunks| + 2 - i, !ended
    {
      Writes(state, rhythm(n), fileId, path, size, chunks, i);
      n := n + 1;
      var step := ReceiveNext(
        pipe, c, utf8, state, luck, preallocated, most, fileId, path, size, chunks, i, end);
      i := i + 1;
      if step.Err? {
        return Err(step.error);
      }
      ended := step.value;
    }
    r := Ok(());
  }

  /** Receives the frames of one chunked file and commits it, whether or not its path was
      written before: the file holds the joined chunks cut or padded to the announced
      size. */
  method ReceiveFile(
    pipe: Pipe, c: Codec, utf8: Text -> bool, state: ApplyState, luck: Luck, preallocated: nat, most: nat,
    rhythm: nat -> nat, ghost fileId: u64, ghost path: Text, ghost size: nat, ghost chunks: seq<seq<byte>>, ghost end: nat)
    returns (r: Result<(), TransferError>)
    requires pipe.Valid() && Faithful(c) && state.Valid() && state.slot.Idle? && most > 0 && luck.staged
    requires FramesAhead(c, pipe.data, pipe.pos, FileOuts(fileId, path, size, chunks), 0, utf8, end)
    modifies pipe, state
    ensures pipe.Valid() && (r.Ok? <==> luck.committed && (path in state.sizes ==> luck.stamped))
    ensures r.Ok? ==> Landed(state, old(state.dest), old(state.hashes), path, size, chunks, luck)
    ensures r.Ok? ==>
      FramesAhead(c, pipe.data, pipe.pos, FileOuts(fileId, path, size, chunks), |chunks| + 2, utf8, end)
  {
    hide FramesAhead, WireAll, WireOf, CanSend, Ahead, FileOuts, Faithful, Consistent, Held, Concat, Fit, Midway, Landed;
    FileShape(fileId, path, size, chunks);
    NextFrame(c, pipe.data, pipe.pos, FileOuts(fileId, path, size, chunks), 0, utf8, end);
    var started := ReceiveOne(
      pipe, c, utf8, state, luck, preallocated, most, FileOuts(fileId, path, size, chunks)[0]);
    NothingYet(chunks);
    JustStarted(state, fileId, path, size, chunks);
    r := ReceiveRest(pipe, c, utf8, state, luck, preallocated, most, rhythm, fileId, path, size, chunks, end);
  }

  lemma JustStarted(state: ApplyState, fileId: u64, path: Text, size: nat, chunks: seq<seq<byte>>)
    requires state.Valid() && state.slot.Receiving?
    requires state.slot.file.fileId == fileId && state.slot.file.path == path && state.slot.file.size == size
    requires state.slot.file.received == [] == Concat(chunks[..0])
    ensures Midway(state, fileId, path, size, chunks, 1)
  {
  }

  /** Background writes change nothing that was received. */
  method Writes(
    state: ApplyState, n: nat, ghost fileId: u64, ghost path: Text, ghost size: nat, ghost chunks: seq<seq<byte>>,
    ghost i: nat)
    requires Midway(state, fileId, path, size, chunks, i)
    modifies state.Flight()
    ensures Midway(state, fileId, path, size, chunks, i)
  {
    hide Consistent, Held, Concat;
    state.WritesProgress(n);
  }

  lemma NothingYet(chunks: seq<seq<byte>>)
    ensures Concat(chunks[..0]) == []
  {
  }

  lemma ChunkJoins(chunks: seq<seq<byte>>, i: nat)
    requires 1 <= i <= |chunks| + 1
    ensures i <= |chunks| ==> Concat(chunks[..i]) == Concat(chunks[..i - 1]) + chunks[i - 1]
    ensures i == |chunks| + 1 ==> Concat(chunks[..i - 1]) == Concat(chunks)
  {
    if i <= |chunks| {
      OneMore(chunks, i - 1);
    } else {
      hide Concat;
      assert chunks[..i - 1] == chunks;
    }
  }

  lemma OneMore(chunks: seq<seq<byte>>, i: nat)
    requires i < |chunks|
    ensures Concat(chunks[..i + 1]) == Concat(chunks[..i]) + chunks[i]
  {
    var front := chunks[..i + 1];
    assert front[..|front| - 1] == chunks[..i] && front[|front| - 1] == chunks[i];
  }

  lemma AllSendable(c: Codec, fileId: u64, path: Text, size: nat, chunks: seq<seq<byte>>, chunkSize: nat, utf8: Text -> bool)
    requires GoodChunks(chunks, chunkSize) && 9 + chunkSize <= MAX_LEN
    requires Announceable(c, fileId, path, size)
    ensures var outs := FileOuts(fileId, path, size, chunks);
      forall k | 0 <= k < |outs| :: CanSend(c, outs[k], utf8)
  {
    hide CanSend, Encode;
    forall k | 0 <= k < |FileOuts(fileId, path, size, chunks)|
      ensures CanSend(c, FileOuts(fileId, path, size, chunks)[k], utf8)
    {
      FileSendable(c, fileId, path, size, chunks, chunkSize, utf8, k);
    }
  }

  lemma OnTheWire(c: Codec, outs: seq<Outgoing>, suffix: seq<byte>, utf8: Text -> bool)
    requires forall k | 0 <= k < |outs| :: CanSend(c, outs[k], utf8)
    ensures FramesAhead(c, WireAll(c, outs) + suffix, 0, outs, 0, utf8, |WireAll(c, outs)|)
  {
    hide CanSend, WireAll;
    assert outs[0..] == outs;
    assert (WireAll(c, outs) + suffix)[..|WireAll(c, outs)|] == WireAll(c, outs);
  }

  lemma AtTheEnd(c: Codec, data: seq<byte>, pos: nat, outs: seq<Outgoing>, utf8: Text -> bool, end: nat)
    requires FramesAhead(c, data, pos, outs, |outs|, utf8, end)
    ensures pos == end
  {
    assert outs[|outs|..] == [];
  }

  /** End to end: for every source, read splitting, chunk and batch size, sparse mode,
      preallocation, write splitting and rhythm of the deferred writes, a transfer
      that succeeds leaves the source bytes cut or padded to the announced size, so
      exactly the source when the sizes agree; the hash both sides report is that of
      the source; and whatever follows on the wire is left untouched. */
  method TransferFile(
    source: Source, fileId: u64, path: Text, size: nat, chunkSize: nat, batchBytes: nat, c: Codec, utf8: Text -> bool,
    suffix: seq<byte>, state: ApplyState, luck: Luck, preallocated: nat, most: nat, rhythm: nat -> nat)
    returns (r: Result<Digest, TransferError>, rest: seq<byte>)
    requires source.Valid() && source.pos == 0 && 0 < chunkSize && 9 + chunkSize <= MAX_LEN && Faithful(c)
    requires state.Valid() && state.slot.Idle? && most > 0 && luck.staged
    modifies source, state
    ensures r.Ok? ==> state.Valid() && rest == suffix
    ensures r.Ok? ==> state.dest == old(state.dest)[path := Fit(source.data, size)]
    ensures r.Ok? && size == |source.data| ==> state.dest[path] == source.data
    ensures r.Ok? ==> path in state.streams && state.streams[path] == source.data
    ensures r.Err? && NoFailure(source.schedule) && Announceable(c, fileId, path, size) ==>
      !luck.committed || (path in state.sizes && !luck.stamped)
    ensures r.Ok? && state.verify ==> r.value == state.h(source.data)
    ensures r.Ok? && state.verify && (path in state.sizes ==> luck.still && size == state.sizes[path]) ==>
      path in state.hashes && state.hashes[path] == r.value
  {
    hide FramesAhead, WireAll, CanSend, FileOuts, Faithful, Consistent, Held, Concat, GoodChunks, Encode;
    rest := [];
    var ctrl := new Wire();
    var sent, chunks := SendChunked(ctrl, c, source, fileId, path, size, chunkSize, batchBytes, state.verify, state.h);
    if sent.Err? {
      return Err(Send(sent.error)), [];
    }
    ghost var outs := FileOuts(fileId, path, size, chunks);
    assert [] + WireAll(c, outs) == WireAll(c, outs);
    AllSendable(c, fileId, path, size, chunks, chunkSize, utf8);
    OnTheWire(c, outs, suffix, utf8);
    var pipe := new Pipe(ctrl.bytes + suffix);
    var received := ReceiveFile(
      pipe, c, utf8, state, luck, preallocated, most, rhythm, fileId, path, size, chunks, |WireAll(c, outs)|);
    if received.Err? {
      return Err(received.error), [];
    }
    FileShape(fileId, path, size, chunks);
    AtTheEnd(c, pipe.data, pipe.pos, outs, utf8, |WireAll(c, outs)|);
    rest := pipe.data[pipe.pos..];
    r := Ok(sent.value.1);
  }
}
