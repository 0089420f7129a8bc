/** Whole transfers: sign a basis, compute a delta against it, patch the basis. */
module Pipeline {
  import opened Bytes
  import opened Reader
  import opened DeltaOps
  import opened Signatures
  import opened BlockTable
  import opened RollsumScan
  import opened RollsumDelta
  import opened RollsumTheorems
  import opened Patch
  import Cdc
  import Rollsum

  lemma TileFirst(basis: seq<byte>, block: nat, h: Hash)
    requires block > 0
    ensures var first := FirstBlock(Tile(basis, 0, block, h));
      (first.None? <==> basis == []) && (first.Some? ==> 0 < first.value <= block)
  {
    if basis != [] {
      TileShape(basis, 0, block, h, 0);
    }
  }

  /** Patching a basis with a delta whose replay is the source cannot fail. */
  method PatchTo(basis: seq<byte>, delta: Delta, ghost data: seq<byte>, hashing: bool, room: nat, verify: bool, h: Hash)
    returns (out: Result<seq<byte>, DeltaError>)
    requires InBounds(delta.ops, |basis|) && Replay(delta.ops, basis) == data && room >= |data|
    requires delta.basisSize == |basis|
    requires delta.checksum == Checksum(verify, h, data)
    ensures out == Ok(data)
  {
    EffectiveSame(delta.ops, basis);
    var file := new BasisFile(basis);
    var sink := new Sink(room);
    var r := ApplyPatch(file, delta, sink, hashing, h);
    out := Ok(sink.written);
  }

  lemma LiteralReplay(data: seq<byte>)
    ensures InBounds(LiteralPushed([], data), 0) && Replay(LiteralPushed([], data), []) == data
  {
    PushedLiteral([], [], data);
    assert Replay([], []) + data == data;
  }

  /** The source fits the literal budget, as the engine counts it. */
  predicate Affordable(chunks: seq<ChunkSig>, h: Hash, data: seq<byte>, buf: nat, max: nat)
    requires buf > 0 && (FirstBlock(chunks).Some? ==> FirstBlock(chunks).value > 0)
  {
    match FirstBlock(chunks)
    case None => |data| <= max
    case Some(block) => ScanFrom(chunks, h, data, 0, 0, block, buf, max, 0).Some?
  }

  /** The rollsum engine end to end. For every basis, source, pair of read
      splittings, block length, buffer sizes, budget and hashing mode: the only
      failures are a failed read and an exceeded budget, and otherwise the patched
      output is the source. */
  method RollsumTransfer(
    basis: seq<byte>, basisReads: seq<Step>, data: seq<byte>, dataReads: seq<Step>, blockSize: nat, signBuf: nat,
    scanBuf: nat, maxLiteral: nat, verify: bool, hashing: bool, room: nat, h: Hash)
    returns (out: Result<seq<byte>, DeltaError>)
    requires signBuf > 0 && scanBuf > 0 && BlockOf(blockSize) <= SCRATCH
    requires |Tile(basis, 0, BlockOf(blockSize), h)| <= 0xffff_ffff
    requires CollisionFree(h, basis, data) && room >= |data|
    ensures out.Ok? ==> out.value == data
    ensures out.Err? ==> out.error == Chunking || out.error == LiteralBudgetExceeded(maxLiteral)
    ensures NoFailure(basisReads) && NoFailure(dataReads) && out.Err? ==> out.error != Chunking
    ensures var chunks := Tile(basis, 0, BlockOf(blockSize), h);
      && (FirstBlock(chunks).Some? ==> FirstBlock(chunks).value > 0)
      && (out.Ok? ==> Affordable(chunks, h, data, scanBuf, maxLiteral))
      && (out.Err? && out.error != Chunking ==> !Affordable(chunks, h, data, scanBuf, maxLiteral))
  {
    TileFirst(basis, BlockOf(blockSize), h);
    hide Tile, CollisionFree, ScanFrom, Emit, FirstBlock, Replay, InBounds, LiteralPushed, ByteCount, BlockBytes;
    var s1 := new Source(basis, basisReads);
    var sig := GenerateRollsum(s1, blockSize, h, signBuf);
    if sig.Err? {
      return Err(sig.error);
    }
    var s2 := new Source(data, dataReads);
    var delta := ComputeDeltaRollsum(s2, sig.value, maxLiteral, verify, h, scanBuf);
    if delta.Err? {
      return Err(delta.error);
    }
    ghost var first := FirstBlock(sig.value.chunks);
    if first.Some? {
      RollsumRoundTrip(basis, data, BlockOf(blockSize), h, first.value, scanBuf, maxLiteral);
    } else {
      LiteralReplay(data);
    }
    out := PatchTo(basis, delta.value, data, hashing, room, verify, h);
  }

  /** With the block length the receiver picks for a basis, the scratch array is always
      large enough: only the 32-bit block count remains to be asked for. */
  method RollsumSync(
    basis: seq<byte>, basisReads: seq<Step>, data: seq<byte>, dataReads: seq<Step>, signBuf: nat, scanBuf: nat,
    maxLiteral: nat, verify: bool, hashing: bool, room: nat, h: Hash)
    returns (out: Result<seq<byte>, DeltaError>)
    requires signBuf > 0 && scanBuf > 0 && |basis| < 0x1_0000_0000_0000_0000
    requires |Tile(basis, 0, BlockOf(Rollsum.BlockSizeOf(|basis|)), h)| <= 0xffff_ffff
    requires CollisionFree(h, basis, data) && room >= |data|
    ensures out.Ok? ==> out.value == data
    ensures out.Err? ==> out.error == Chunking || out.error == LiteralBudgetExceeded(maxLiteral)
    ensures NoFailure(basisReads) && NoFailure(dataReads) && out.Err? ==> out.error != Chunking
  {
    hide Tile, CollisionFree;
    var block := Rollsum.BlockSize(|basis|);
    Rollsum.BlockSizeShape(|basis|, |basis|);
    out := RollsumTransfer(
      basis, basisReads, data, dataReads, block, signBuf, scanBuf, maxLiteral, verify, hashing, room, h);
  }

  /** The content-defined engine end to end. */
  method CdcTransfer(
    basis: seq<byte>, basisReads: seq<Step>, data: seq<byte>, dataReads: seq<Step>, maxLiteral: nat, verify: bool,
    hashing: bool, room: nat, h: Hash, cut: Cdc.Cutter)
    returns (out: Result<seq<byte>, DeltaError>)
    requires Cdc.Streaming(cut) && CollisionFree(h, basis, data) && room >= |data|
    ensures out.Ok? ==> out.value == data
    ensures out.Ok? ==> Cdc.Unmatched(Cdc.Chunks(data, cut), Cdc.SigsOf(Cdc.Chunks(basis, cut), h), h) <= maxLiteral
    ensures out.Err? && out.error != Chunking ==>
      Cdc.Unmatched(Cdc.Chunks(data, cut), Cdc.SigsOf(Cdc.Chunks(basis, cut), h), h) > maxLiteral
    ensures out.Err? ==> out.error == Chunking || out.error == LiteralBudgetExceeded(maxLiteral)
    ensures NoFailure(basisReads) && NoFailure(dataReads) && out.Err? ==> out.error != Chunking
  {
    hide Cdc.Streaming, CollisionFree, Cdc.CdcOps, Cdc.Unmatched, Cdc.Chunks, Cdc.SigsOf, Replay, InBounds;
    var s1 := new Source(basis, basisReads);
    var sig := Cdc.GenerateSignature(s1, cut, h);
    if sig.Err? {
      return Err(sig.error);
    }
    var s2 := new Source(data, dataReads);
    var delta, sigOut := Cdc.ComputeDeltaLimited(s2, sig.value, maxLiteral, verify, h, cut);
    if delta.Err? {
      return Err(delta.error);
    }
    CdcTrip(basis, data, cut, h);
    out := PatchTo(basis, delta.value, data, hashing, room, verify, h);
  }

  lemma {:induction false} CdcTrip(basis: seq<byte>, data: seq<byte>, cut: Cdc.Cutter, h: Hash)
    requires Cdc.Streaming(cut) && CollisionFree(h, basis, data)
    ensures var ops := Cdc.CdcOps(Cdc.Chunks(data, cut), Cdc.SigsOf(Cdc.Chunks(basis, cut), h), h);
      InBounds(ops, |basis|) && Replay(ops, basis) == data
  {
    hide *;
    Cdc.CdcRoundTrip(basis, data, cut, h);
  }
}
