/** An updated file from both sides' reads to the Ack: signature, delta, recipe, apply. */
module DeltaRun {
  import opened Bytes
  import opened Reader
  import opened DeltaOps
  import opened Signatures
  import opened BlockTable
  import opened RollsumScan
  import opened RollsumDelta
  import opened RollsumTheorems
  import opened Patch
  import opened FrameCodec
  import opened Sparse
  import opened Applies
  import opened ReceiverState
  import opened RecipeRun
  import CrossFile
  import Pipeline
  import Cdc

  /** Staging, commit and metadata work, the times stay, and the metadata's size is the
      source's. */
  predicate Well(path: Text, size: nat, luck: Luck, sizes: Sizes) {
    && luck.staged && luck.committed && luck.stamped && luck.still
    && (path in sizes ==> sizes[path] == size)
  }

  /** The destination holds the source's bytes, and the Ack says so. */
  ghost predicate Delivered(
    ack: Ack, plain: set<Text>, dest: Files, path: Text, data: seq<byte>, verify: bool, h: Hash)
  {
    && path in dest && dest[path] == data && path !in ack.skipped
    && if verify then path in ack.hashes && ack.hashes[path] == h(data) else path in plain
  }

  lemma ToldDelivered(
    ack: Ack, plain: set<Text>, dest': Files, job: Job, luck: Luck, dest: Files, sizes: Sizes, verify: bool, h: Hash,
    data: seq<byte>)
    requires Told(ack, plain, dest', job, luck, dest, sizes, verify, h) && Well(job.path, |data|, luck, sizes)
    requires job.path in dest && job.basisSize == |dest[job.path]| && job.sourceSize == |data|
    requires InBounds(job.ops, |dest[job.path]|) && Replay(job.ops, dest[job.path]) == data
    requires job.checksum.Some? ==> job.checksum.value == h(data)
    ensures Delivered(ack, plain, dest', job.path, data, verify, h)
  {
    var basis := OwnFile(job, dest);
    if job.basisSize == 0 {
      assert dest[job.path] == [];
    }
    assert basis == dest[job.path];
    EffectiveSame(job.ops, basis);
    FitSame(data, |data|);
    hide Fit, Effective, Replay;
  }

  /** The recipe of a delta that makes the source of the file at the path: at the Ack the
      file is the source. */
  method ApplyDelta(state: ApplyState, path: Text, delta: Delta, luck: Luck, ghost data: seq<byte>) returns (ack: Ack)
    requires state.Valid() && path !in state.written && path in state.dest && Well(path, |data|, luck, state.sizes)
    requires delta.basisSize == |state.dest[path]| && delta.sourceSize == |data|
    requires InBounds(delta.ops, |state.dest[path]|) && Replay(delta.ops, state.dest[path]) == data
    requires delta.checksum.Some? ==> delta.checksum.value == state.h(data)
    modifies state
    ensures state.Valid() && Delivered(ack, state.plain, state.dest, path, data, state.verify, state.h)
  {
    hide Consistent, Fated, Held, Below, HasTask, Told, Replay, InBounds, Delivered, Well;
    ghost var dest := state.dest;
    var job := Job(path, delta.ops, delta.basisSize, delta.checksum, delta.sourceSize, None);
    ack := RunRecipes(state, [job], [luck], _ => []);
    assert [job][0] == job && [luck][0] == luck;
    ToldDelivered(ack, state.plain, state.dest, job, luck, dest, state.sizes, state.verify, state.h, data);
  }

  /** With the rolling engine. For every file at the destination, source, pair of read
      splittings, block length, buffers and budget: unless a read fails or the budget is
      exceeded, the destination holds the source at the Ack. */
  method UpdateRollsum(
    state: ApplyState, path: Text, basisReads: seq<Step>, data: seq<byte>, dataReads: seq<Step>, blockSize: nat,
    signBuf: nat, scanBuf: nat, maxLiteral: nat, luck: Luck)
    returns (r: Result<Ack, DeltaError>)
    requires state.Valid() && path !in state.written && path in state.dest && Well(path, |data|, luck, state.sizes)
    requires signBuf > 0 && scanBuf > 0 && BlockOf(blockSize) <= SCRATCH
    requires |Tile(state.dest[path], 0, BlockOf(blockSize), state.h)| <= 0xffff_ffff
    requires CollisionFree(state.h, state.dest[path], data)
    modifies state
    ensures r.Ok? ==> state.Valid() && Delivered(r.value, state.plain, state.dest, path, data, state.verify, state.h)
    ensures r.Err? ==> r.error == Chunking || r.error == LiteralBudgetExceeded(maxLiteral)
    ensures NoFailure(basisReads) && NoFailure(dataReads) && r.Err? ==> r.error != Chunking
  {
    hide Consistent, Fated, Held, Below, Delivered, Tile, CollisionFree, ScanFrom, Emit, FirstBlock, Replay, InBounds,
      LiteralPushed, ByteCount, BlockBytes, Well, Packed, Slim;
    var basis := state.dest[path];
    Pipeline.TileFirst(basis, BlockOf(blockSize), state.h);
    var s1 := new Source(basis, basisReads);
    var sig := GenerateRollsum(s1, blockSize, state.h, signBuf);
    if sig.Err? {
      return Err(sig.error);
    }
    var s2 := new Source(data, dataReads);
    var delta := ComputeDeltaRollsum(s2, sig.value, maxLiteral, state.verify, state.h, scanBuf);
    if delta.Err? {
      return Err(delta.error);
    }
    ghost var first := FirstBlock(sig.value.chunks);
    if first.Some? {
      RollsumRoundTrip(basis, data, BlockOf(blockSize), state.h, first.value, scanBuf, maxLiteral);
    } else {
      Pipeline.LiteralReplay(data);
    }
    var ack := ApplyDelta(state, path, delta.value, luck, data);
    r := Ok(ack);
  }

  /** With the chunk engine. */
  method UpdateCdc(
    state: ApplyState, path: Text, basisReads: seq<Step>, data: seq<byte>, dataReads: seq<Step>, maxLiteral: nat,
    luck: Luck, cut: Cdc.Cutter)
    returns (r: Result<Ack, DeltaError>)
    requires state.Valid() && path !in state.written && path in state.dest && Well(path, |data|, luck, state.sizes)
    requires Cdc.Streaming(cut) && CollisionFree(state.h, state.dest[path], data)
    modifies state
    ensures r.Ok? ==> state.Valid() && Delivered(r.value, state.plain, state.dest, path, data, state.verify, state.h)
    ensures r.Err? ==> r.error == Chunking || r.error == LiteralBudgetExceeded(maxLiteral)
    ensures NoFailure(basisReads) && NoFailure(dataReads) && r.Err? ==> r.error != Chunking
  {
    hide Consistent, Fated, Held, Below, Delivered, Cdc.Streaming, CollisionFree, Cdc.CdcOps, Cdc.Unmatched, Cdc.Chunks,
      Cdc.SigsOf, Replay, InBounds, Well, Packed, Slim;
    var basis := state.dest[path];
    var s1 := new Source(basis, basisReads);
    var sig := Cdc.GenerateSignature(s1, cut, state.h);
    if sig.Err? {
      return Err(sig.error);
    }
    var s2 := new Source(data, dataReads);
    var delta, sigOut := Cdc.ComputeDeltaLimited(s2, sig.value, maxLiteral, state.verify, state.h, cut);
    if delta.Err? {
      return Err(delta.error);
    }
    Pipeline.CdcTrip(basis, data, cut, state.h);
    var ack := ApplyDelta(state, path, delta.value, luck, data);
    r := Ok(ack);
  }

  /** A sender's cross-file recipe is right for the sibling it signed. */
  lemma {:induction false} CdcRight(
    path: Text, sibling: Text, signed: seq<byte>, data: seq<byte>, checksum: Option<Digest>, cut: Cdc.Cutter, h: Hash)
    requires Cdc.Streaming(cut) && CollisionFree(h, signed, data)
    ensures var ops := Cdc.CdcOps(Cdc.Chunks(data, cut), Cdc.SigsOf(Cdc.Chunks(signed, cut), h), h);
      CrossFile.Right(Job(path, ops, |signed|, checksum, |data|, Some(sibling)), signed, data)
  {
    assert Cdc.Total(cut(data)) <= |data| && Cdc.Total(cut(signed)) <= |signed|;
    hide Cdc.Streaming, CollisionFree, Cdc.CdcOps, Cdc.Chunks, Cdc.SigsOf, Replay, Effective, Cdc.Total;
    Pipeline.CdcTrip(signed, data, cut, h);
    EffectiveSame(Cdc.CdcOps(Cdc.Chunks(data, cut), Cdc.SigsOf(Cdc.Chunks(signed, cut), h), h), signed);
  }
}
