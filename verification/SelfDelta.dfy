/** A file against its own signature: exactly when the delta carries no literals. */
module SelfDelta {
  import opened Bytes
  import opened DeltaOps
  import opened Signatures
  import opened BlockTable
  import opened RollsumScan
  import opened RollsumDelta
  import opened RollsumTheorems
  import Rollsum

  /** Every block of `data[p..]`, cut at the block length, is found in the table. */
  ghost predicate AllFound(chunks: seq<ChunkSig>, h: Hash, data: seq<byte>, p: nat, block: nat)
    requires block > 0 && p <= |data|
    decreases |data| - p
  {
    p == |data| ||
    var n := Min(block, |data| - p);
    TailFind(chunks, data[p..p + n], h).Some? && AllFound(chunks, h, data, p + n, block)
  }

  /** The lookup the engine uses for an aligned window: the masked one of the scan, or
      at the end of the file the unmasked one for a short block. */
  function EngineFind(chunks: seq<ChunkSig>, window: seq<byte>, h: Hash, block: nat): Option<nat> {
    if |window| == block then ScanFind(chunks, window, h) else TailFind(chunks, window, h)
  }

  /** Every block of `data[p..]` is found by the engine's own lookups. */
  ghost predicate AllHit(chunks: seq<ChunkSig>, h: Hash, data: seq<byte>, p: nat, block: nat)
    requires block > 0 && p <= |data|
    decreases |data| - p
  {
    p == |data| ||
    var n := Min(block, |data| - p);
    EngineFind(chunks, data[p..p + n], h, block).Some? && AllHit(chunks, h, data, p + n, block)
  }

  lemma {:induction false} HitIsFound(chunks: seq<ChunkSig>, h: Hash, data: seq<byte>, p: nat, block: nat)
    requires block > 0 && p <= |data| && |chunks| <= 0x1_0000
    ensures AllHit(chunks, h, data, p, block) <==> AllFound(chunks, h, data, p, block)
    decreases |data| - p
  {
    hide ScanFind, TailFind;
    if p < |data| {
      var n := Min(block, |data| - p);
      ScanFindComplete(chunks, data[p..p + n], h);
      HitIsFound(chunks, h, data, p + n, block);
    }
  }

  /** `p` is a block boundary of the tiling `chunks`. */
  ghost predicate Aligned(chunks: seq<ChunkSig>, h: Hash, data: seq<byte>, p: nat, block: nat)
    requires block > 0 && p <= |data|
  {
    exists done: seq<ChunkSig> :: done + Tile(data, p, block, h) == chunks
  }

  lemma NextAligned(chunks: seq<ChunkSig>, h: Hash, data: seq<byte>, p: nat, block: nat)
    requires block > 0 && p < |data| && Aligned(chunks, h, data, p, block)
    ensures Aligned(chunks, h, data, p + Min(block, |data| - p), block)
    ensures chunks != []
    ensures |data| - p <= block ==> chunks[|chunks| - 1].len == |data| - p
  {
    var done :| done + Tile(data, p, block, h) == chunks;
    var n := Min(block, |data| - p);
    var c, rest := BlockSig(data, p, n, h), Tile(data, p + n, block, h);
    assert Tile(data, p, block, h) == [c] + rest;
    TileEnd(data, block, h);
    hide Tile, BlockSig;
    Regroup(done, c, rest);
    if |data| - p <= block {
      assert rest == [] && chunks[|chunks| - 1] == c;
    }
  }

  lemma Regroup(a: seq<ChunkSig>, c: ChunkSig, b: seq<ChunkSig>)
    ensures a + ([c] + b) == a + [c] + b
  {
  }

  lemma OneLiteral(b: byte, rest: seq<Token>)
    ensures ByteCount([Byte(b)] + rest) > 0
  {
    FoldSnoc([], [], Byte(b), []);
    assert [] + [Byte(b)] == [Byte(b)];
    FoldConcat([], [Byte(b)], rest, []);
  }

  lemma OneBlock(m: nat, rest: seq<Token>)
    ensures ByteCount([Block(m)] + rest) == ByteCount(rest) && ByteCount([Block(m)]) == 0
  {
    FoldSnoc([], [], Block(m), []);
    assert [] + [Block(m)] == [Block(m)];
    FoldConcat([], [Block(m)], rest, []);
  }

  /** A region costs no literals, and leaves a rest that costs none, exactly when
      every block from its start on is found. */
  lemma {:induction false} RegionFree(
    chunks: seq<ChunkSig>, h: Hash, data: seq<byte>, q: nat, end: nat, block: nat)
    requires block > 0 && q + block <= end <= |data|
    requires Aligned(chunks, h, data, q, block)
    ensures var s := RegionScan(chunks, h, data, q, end, block);
      && (ByteCount(s.tokens) == 0 && AllHit(chunks, h, data, s.next, block) <==> AllHit(chunks, h, data, q, block))
      && (ByteCount(s.tokens) == 0 ==> Aligned(chunks, h, data, s.next, block))
    decreases end - q
  {
    hide ScanFind, TailFind, Aligned;
    NextAligned(chunks, h, data, q, block);
    match ScanFind(chunks, data[q..q + block], h) {
      case Some(m) =>
        if q + block + block <= end {
          RegionFree(chunks, h, data, q + block, end, block);
          OneBlock(m, RegionScan(chunks, h, data, q + block, end, block).tokens);
        } else {
          OneBlock(m, []);
        }
      case None =>
        if q + block == end {
          FoldLiterals([], data[q..end], chunks);
        } else {
          OneLiteral(data[q], RegionScan(chunks, h, data, q + 1, end, block).tokens);
        }
    }
  }

  lemma {:induction false} ScanFree(
    chunks: seq<ChunkSig>, h: Hash, data: seq<byte>, p: nat, n: nat, block: nat, buf: nat, max: nat)
    requires block > 0 && buf > 0 && p <= n <= |data|
    requires Aligned(chunks, h, data, p, block)
    ensures var r := ScanFrom(chunks, h, data, p, n, block, buf, max, 0);
      (r.Some? && ByteCount(r.value) == 0) <==> AllHit(chunks, h, data, p, block)
    decreases |data| - p
  {
    hide Aligned, RegionScan, Refilled, TailFind;
    var end := Refilled(|data|, p, n, block, buf);
    if end - p < block {
      TailFree(chunks, h, data, p, block);
      FoldLiterals([], data[p..], chunks);
      OneBlock(0, []);
      if TailMatch(chunks, h, data[p..]).Some? {
        OneBlock(TailMatch(chunks, h, data[p..]).value, []);
      }
    } else {
      hide ScanFrom;
      ScanFromRegion(chunks, h, data, p, n, block, buf, max, 0, end);
      var s := RegionScan(chunks, h, data, p, end, block);
      RegionFree(chunks, h, data, p, end, block);
      var now := ByteCount(s.tokens);
      var rest := ScanFrom(chunks, h, data, s.next, end, block, buf, max, now);
      if now == 0 {
        ScanFree(chunks, h, data, s.next, end, block, buf, max);
      }
      if rest.Some? {
        FoldConcat([], s.tokens, rest.value, chunks);
      }
    }
  }

  lemma {:induction false} TailFree(chunks: seq<ChunkSig>, h: Hash, data: seq<byte>, p: nat, block: nat)
    requires block > 0 && p <= |data| && |data| - p < block && Aligned(chunks, h, data, p, block)
    ensures AllHit(chunks, h, data, p, block) <==> data[p..] == [] || TailMatch(chunks, h, data[p..]).Some?
  {
    hide Aligned, TailFind;
    if p < |data| {
      NextAligned(chunks, h, data, p, block);
      assert data[p..p + Min(block, |data| - p)] == data[p..];
    }
  }

  /** Up to 65536 blocks, a file's delta against its own signature is accepted
      with zero literal bytes exactly when each of its blocks is found among the
      first 1024 weak-equal candidates, for every file length, buffer size and
      literal budget. */
  lemma SelfDeltaFree(data: seq<byte>, blockSize: nat, h: Hash, buf: nat, max: nat)
    requires blockSize > 0 && data != [] && buf > 0
    requires |Tile(data, 0, blockSize, h)| <= 0x1_0000
    ensures var chunks := Tile(data, 0, blockSize, h);
      var block := Min(blockSize, |data|);
      && FirstBlock(chunks) == Some(block)
      && var r := ScanFrom(chunks, h, data, 0, 0, block, buf, max, 0);
         (r.Some? && ByteCount(r.value) == 0) <==> AllFound(chunks, h, data, 0, block)
  {
    var chunks, block := Tile(data, 0, blockSize, h), Min(blockSize, |data|);
    HitIsFound(chunks, h, data, 0, block);
    SelfDeltaHits(data, blockSize, h, buf, max);
  }

  /** Without a limit on the number of blocks: zero literals exactly when the engine's
      own lookups find every block. */
  lemma SelfDeltaHits(data: seq<byte>, blockSize: nat, h: Hash, buf: nat, max: nat)
    requires blockSize > 0 && data != [] && buf > 0
    ensures var chunks := Tile(data, 0, blockSize, h);
      var block := Min(blockSize, |data|);
      && FirstBlock(chunks) == Some(block)
      && var r := ScanFrom(chunks, h, data, 0, 0, block, buf, max, 0);
         (r.Some? && ByteCount(r.value) == 0) <==> AllHit(chunks, h, data, 0, block)
  {
    var chunks, block := Tile(data, 0, blockSize, h), Min(blockSize, |data|);
    TileClipped(data, blockSize, h);
    assert [] + Tile(data, 0, block, h) == chunks;
    assert chunks[0] == BlockSig(data, 0, block, h);
    ScanFree(chunks, h, data, 0, 0, block, buf, max);
  }

  lemma TileClipped(data: seq<byte>, blockSize: nat, h: Hash)
    requires blockSize > 0 && data != []
    ensures Tile(data, 0, blockSize, h) == Tile(data, 0, Min(blockSize, |data|), h)
  {
    if blockSize > |data| {
      assert Tile(data, |data|, blockSize, h) == Tile(data, |data|, |data|, h) == [];
    }
  }

  // ---- a condition on the signature alone ----

  /** Blocks sharing length and weak value are all equal, or at most 1024. */
  ghost predicate Uncrowded(chunks: seq<ChunkSig>) {
    forall i | 0 <= i < |chunks| && chunks[i].weak.Some? ::
      Candidates(chunks, 0, |chunks|, chunks[i].weak.value, chunks[i].len) <= 1024
      || forall j | 0 <= j < |chunks| && Candidate(chunks[j], chunks[i].weak.value, chunks[i].len) ::
           chunks[j].strong == chunks[i].strong
  }

  lemma {:induction false} CandidatesSplit(chunks: seq<ChunkSig>, i: nat, n: nat, sum: u32, k: nat)
    requires i < n <= |chunks| && Candidate(chunks[i], sum, k)
    ensures Candidates(chunks, i + 1, n, sum, k) < Candidates(chunks, 0, n, sum, k)
    decreases n
  {
    if n > i + 1 {
      CandidatesSplit(chunks, i, n - 1, sum, k);
    }
  }

  lemma {:induction false} NewestCandidate(chunks: seq<ChunkSig>, i: nat, n: nat, sum: u32, k: nat) returns (j: nat)
    requires i < n <= |chunks| && Candidate(chunks[i], sum, k)
    ensures i <= j < n && Candidate(chunks[j], sum, k) && Candidates(chunks, j + 1, n, sum, k) == 0
    decreases n
  {
    if Candidate(chunks[n - 1], sum, k) {
      j := n - 1;
    } else {
      j := NewestCandidate(chunks, i, n - 1, sum, k);
    }
  }

  /** In an uncrowded table every described block is found. */
  lemma BlockFound(chunks: seq<ChunkSig>, h: Hash, i: nat, window: seq<byte>)
    requires Uncrowded(chunks) && i < |chunks|
    requires Candidate(chunks[i], Rollsum.WeakOf(window), |window|) && chunks[i].strong == h(window)
    ensures TailFind(chunks, window, h).Some?
  {
    var sum, k, n := Rollsum.WeakOf(window), |window|, |chunks|;
    LinearFindExact(chunks, n, sum, k, h(window), MAX_CHAIN_LEN);
    if Candidates(chunks, 0, n, sum, k) <= MAX_CHAIN_LEN {
      CandidatesSplit(chunks, i, n, sum, k);
    } else {
      var j := NewestCandidate(chunks, i, n, sum, k);
      assert chunks[j].strong == h(window);
    }
  }

  lemma {:induction false} UncrowdedFound(chunks: seq<ChunkSig>, h: Hash, data: seq<byte>, p: nat, block: nat)
    requires block > 0 && p <= |data| && Uncrowded(chunks) && Aligned(chunks, h, data, p, block)
    ensures AllFound(chunks, h, data, p, block)
    decreases |data| - p
  {
    if p < |data| {
      hide Uncrowded, TailFind, Aligned, BlockSig, Candidate;
      var n := Min(block, |data| - p);
      NextAligned(chunks, h, data, p, block);
      UncrowdedFound(chunks, h, data, p + n, block);
      var i := AlignedBlock(chunks, h, data, p, block);
      BlockFound(chunks, h, i, data[p..p + n]);
    }
  }

  lemma AlignedBlock(chunks: seq<ChunkSig>, h: Hash, data: seq<byte>, p: nat, block: nat) returns (i: nat)
    requires block > 0 && p < |data| && Aligned(chunks, h, data, p, block)
    ensures var window := data[p..p + Min(block, |data| - p)];
      && i < |chunks| && Candidate(chunks[i], Rollsum.WeakOf(window), |window|) && chunks[i].strong == h(window)
  {
    var done :| done + Tile(data, p, block, h) == chunks;
    i := |done|;
    assert chunks[i] == BlockSig(data, p, Min(block, |data| - p), h);
  }

  /** The promise on the file alone: no crowded weak value, no literal bytes. */
  lemma {:induction false} SelfDeltaUncrowded(data: seq<byte>, blockSize: nat, h: Hash, buf: nat, max: nat)
    requires blockSize > 0 && data != [] && buf > 0
    requires |Tile(data, 0, blockSize, h)| <= 0x1_0000 && Uncrowded(Tile(data, 0, blockSize, h))
    ensures var r := ScanFrom(Tile(data, 0, blockSize, h), h, data, 0, 0, Min(blockSize, |data|), buf, max, 0);
      r.Some? && ByteCount(r.value) == 0
  {
    var chunks, block := Tile(data, 0, blockSize, h), Min(blockSize, |data|);
    SelfDeltaFree(data, blockSize, h, buf, max);
    TileClipped(data, blockSize, h);
    assert [] + Tile(data, 0, block, h) == chunks;
    UncrowdedFound(chunks, h, data, 0, block);
  }

  // ---- beyond 65536 blocks ----

  /** If everything from block `i` on is hit, so is block `n`. */
  lemma {:induction false} HitsReach(chunks: seq<ChunkSig>, h: Hash, data: seq<byte>, i: nat, n: nat, block: nat)
    requires block > 0 && i <= n && i * block <= n * block && n * block + block == |data|
    requires AllHit(chunks, h, data, i * block, block)
    ensures ScanFind(chunks, data[n * block..n * block + block], h).Some?
    decreases n - i
  {
    hide ScanFind, TailFind;
    if i < n {
      Multiples(i, n, block);
      Multiples(i + 1, n, block);
      assert (i + 1) * block == i * block + block;
      HitsReach(chunks, h, data, i + 1, n, block);
    }
  }

  /** A file pays for its own last block once 65536 others precede it: whatever the
      budget and buffer, an accepted delta against its own signature has literals. */
  lemma {:induction false} SelfDeltaPays(n: nat, window: seq<byte>, h: Hash, buf: nat, max: nat)
    requires n >= 0x1_0000 && Rollsum.WeakOf(window) != 0 && buf > 0
    ensures window != []
    ensures var data := ZerosThen(n, window);
      var r := ScanFrom(Tile(data, 0, |window|, h), h, data, 0, 0, |window|, buf, max, 0);
      r.Some? ==> ByteCount(r.value) > 0
  {
    hide ScanFind, TailFind, ScanFrom, Tile, Rollsum.WeakOf;
    ScanFindIncomplete(n, window, h);
    var data, k := ZerosThen(n, window), |window|;
    var chunks := Tile(data, 0, k, h);
    Multiples(0, n, k);
    assert |data| == n * k + k && data[n * k..n * k + k] == window;
    SelfDeltaHits(data, k, h, buf, max);
    if AllHit(chunks, h, data, 0, k) {
      assert 0 * k == 0;
      HitsReach(chunks, h, data, 0, n, k);
    }
  }

  /** The delta of a file against its own signature has no literals, whatever the budget. */
  ghost predicate CostsNothing(data: seq<byte>, blockSize: nat, h: Hash, buf: nat)
    requires blockSize > 0 && data != [] && buf > 0
  {
    forall max: nat :: SelfScan(data, blockSize, h, buf, max).Some?
      && ByteCount(SelfScan(data, blockSize, h, buf, max).value) == 0
  }

  function SelfScan(data: seq<byte>, blockSize: nat, h: Hash, buf: nat, max: nat): Option<seq<Token>>
    requires blockSize > 0 && data != [] && buf > 0
  {
    ScanFrom(Tile(data, 0, blockSize, h), h, data, 0, 0, Min(blockSize, |data|), buf, max, 0)
  }

  /** Every uncrowded file of that many blocks is free against its own signature. */
  ghost predicate FreeAt(count: nat, blockSize: nat, buf: nat, h: Hash)
    requires blockSize > 0 && buf > 0
  {
    forall data | data != [] && |Tile(data, 0, blockSize, h)| == count && Uncrowded(Tile(data, 0, blockSize, h)) ::
      CostsNothing(data, blockSize, h, buf)
  }

  lemma {:induction false} ZerosThenUncrowded(n: nat, window: seq<byte>, h: Hash)
    requires window != [] && Rollsum.WeakOf(window) != 0
    ensures Uncrowded(Tile(ZerosThen(n, window), 0, |window|, h))
  {
    hide Tile, Rollsum.WeakOf, Candidates, ZerosThen;
    ZerosThenTile(n, window, h);
  }

  /** Whether every uncrowded file of a given number of blocks is free against its own
      signature depends on that number only: up to 65536 they all are, beyond it some
      file pays, for every block length, buffer size and hash. */
  lemma {:induction false} FreeExactly(count: nat, blockSize: nat, buf: nat, h: Hash)
    requires count > 0 && blockSize > 0 && buf > 0
    ensures FreeAt(count, blockSize, buf, h) <==> count <= 0x1_0000
  {
    hide Tile, ScanFrom, Uncrowded, ZerosThen, Rollsum.WeakOf;
    if count <= 0x1_0000 {
      forall data | data != [] && |Tile(data, 0, blockSize, h)| == count && Uncrowded(Tile(data, 0, blockSize, h))
        ensures CostsNothing(data, blockSize, h, buf)
      {
        forall max: nat
          ensures SelfScan(data, blockSize, h, buf, max).Some? && ByteCount(SelfScan(data, blockSize, h, buf, max).value) == 0
        {
          SelfDeltaUncrowded(data, blockSize, h, buf, max);
        }
      }
    } else {
      var window: seq<byte> := [1] + Zeros(blockSize - 1);
      OneThenZerosWeak(blockSize);
      FileShapes(count - 1, window, h);
      SelfDeltaPays(count - 1, window, h, buf, 0);
      ZerosThenUncrowded(count - 1, window, h);
      var data := ZerosThen(count - 1, window);
      assert !CostsNothing(data, blockSize, h, buf) by {
        assert SelfScan(data, blockSize, h, buf, 0) == ScanFrom(Tile(data, 0, blockSize, h), h, data, 0, 0, blockSize, buf, 0, 0);
      }
    }
  }

  lemma {:induction false} FileShapes(n: nat, window: seq<byte>, h: Hash)
    requires window != []
    ensures |ZerosThen(n, window)| >= |window| && |Tile(ZerosThen(n, window), 0, |window|, h)| == n + 1
  {
    Multiples(0, n, |window|);
    ZerosThenTile(n, window, h);
  }
}
