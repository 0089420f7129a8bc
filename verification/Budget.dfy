/** What the rollsum literal budget bounds: with a budget larger than a buffer only the
    end of the file is ever refused, and a matching short tail is not charged. */
module Budget {
  import opened Bytes
  import opened Signatures
  import opened BlockTable
  import opened RollsumScan
  import opened RollsumDelta
  import opened RollsumTheorems
  import Rollsum

  /** All literal bytes of the delta. */
  function LiteralTotal(chunks: seq<ChunkSig>, h: Hash, data: seq<byte>, block: nat, buf: nat): nat
    requires block > 0 && buf > 0
  {
    BudgetAccepts(chunks, h, data, 0, 0, block, buf, |data|, 0, |data|);
    ByteCount(ScanFrom(chunks, h, data, 0, 0, block, buf, |data|, 0).value)
  }

  // ---- the per-region check ----

  lemma {:induction false} RegionLeaves(chunks: seq<ChunkSig>, h: Hash, data: seq<byte>, q: nat, end: nat, block: nat)
    requires block > 0 && q + block <= end <= |data|
    ensures end - RegionScan(chunks, h, data, q, end, block).next < block
    decreases end - q
  {
    hide ScanFind;
    match ScanFind(chunks, data[q..q + block], h) {
      case Some(m) =>
        if q + block + block <= end {
          RegionLeaves(chunks, h, data, q + block, end, block);
        }
      case None =>
        if q + block != end {
          RegionLeaves(chunks, h, data, q + 1, end, block);
        }
    }
  }

  lemma {:induction false} RefilledNear(len: nat, p: nat, n: nat, block: nat, buf: nat)
    requires p <= n <= len && buf > 0 && n - p < block + buf
    ensures Refilled(len, p, n, block, buf) - p < block + buf
    decreases len - n
  {
    if n - p < block && n != len {
      RefilledNear(len, p, Min(n + buf, len), block, buf);
    }
  }

  /** A region never holds a window and a whole buffer of literals, so a budget of that
      size is never refused in the middle of a file. */
  lemma {:induction false} RegionNeverRefuses(
    chunks: seq<ChunkSig>, h: Hash, data: seq<byte>, p: nat, n: nat, block: nat, buf: nat)
    requires block > 0 && buf > 0 && p <= n <= |data| && n - p < block
    ensures LargestRegion(chunks, h, data, p, n, block, buf) < block + buf
    decreases |data| - p
  {
    hide RegionScan, Refilled, ByteCount, TailMatch;
    var end := Refilled(|data|, p, n, block, buf);
    RefilledNear(|data|, p, n, block, buf);
    if end - p >= block {
      hide LargestRegion;
      RegionStep(chunks, h, data, p, n, block, buf, end);
      RegionLiterals(chunks, h, data, p, end, block);
      RegionLeaves(chunks, h, data, p, end, block);
      RegionNeverRefuses(chunks, h, data, RegionScan(chunks, h, data, p, end, block).next, end, block, buf);
    } else {
      NoRegion(chunks, h, data, p, n, block, buf);
    }
  }

  lemma NoRegion(chunks: seq<ChunkSig>, h: Hash, data: seq<byte>, p: nat, n: nat, block: nat, buf: nat)
    requires block > 0 && buf > 0 && p <= n <= |data| && Refilled(|data|, p, n, block, buf) - p < block
    ensures LargestRegion(chunks, h, data, p, n, block, buf) == 0
  {
  }

  /** With a budget of at least a buffer and a block, a delta is accepted exactly when
      its literals fit or its short tail matched. */
  lemma WideBudget(chunks: seq<ChunkSig>, h: Hash, data: seq<byte>, block: nat, buf: nat, max: nat)
    requires block > 0 && buf > 0 && max >= block + buf
    ensures Accepts(chunks, h, data, block, buf, max) <==>
      TailMatched(chunks, h, data, 0, 0, block, buf) || LiteralTotal(chunks, h, data, block, buf) <= max
  {
    hide LargestRegion, TailMatched, ScanFrom, ByteCount;
    RegionNeverRefuses(chunks, h, data, 0, 0, block, buf);
    BudgetAccepts(chunks, h, data, 0, 0, block, buf, max, 0, |data|);
  }

  // ---- when the budget is exact ----

  /** The budget bounds the literals, whatever it is. */
  ghost predicate Exact(chunks: seq<ChunkSig>, h: Hash, data: seq<byte>, block: nat, buf: nat)
    requires block > 0 && buf > 0
  {
    forall max: nat :: Accepts(chunks, h, data, block, buf, max) <==> LiteralTotal(chunks, h, data, block, buf) <= max
  }

  lemma {:induction false} FullBlocksNoTail(
    chunks: seq<ChunkSig>, h: Hash, data: seq<byte>, p: nat, n: nat, block: nat, buf: nat)
    requires block > 0 && buf > 0 && p <= n <= |data| && (chunks != [] ==> chunks[|chunks| - 1].len >= block)
    ensures !TailMatched(chunks, h, data, p, n, block, buf)
    decreases |data| - p
  {
    hide RegionScan, Refilled, TailFind;
    var end := Refilled(|data|, p, n, block, buf);
    if end - p >= block {
      FullBlocksNoTail(chunks, h, data, RegionScan(chunks, h, data, p, end, block).next, end, block, buf);
    }
  }

  /** A source that fits the buffer is one region and a tail. */
  lemma {:induction false} OneRegion(chunks: seq<ChunkSig>, h: Hash, data: seq<byte>, block: nat, buf: nat)
    requires block > 0 && buf > 0 && |data| <= buf && TailMatched(chunks, h, data, 0, 0, block, buf)
    ensures LargestRegion(chunks, h, data, 0, 0, block, buf) == LiteralTotal(chunks, h, data, block, buf)
  {
    hide RegionScan, TailMatch, ByteCount, ScanFrom, LargestRegion, TailMatched;
    var len := |data|;
    BudgetAccepts(chunks, h, data, 0, 0, block, buf, len, 0, len);
    assert Refilled(len, 0, 0, block, buf) == len;
    if len < block {
      TailAccepts(chunks, h, data, 0, 0, block, buf, len, 0);
    } else {
      var s := RegionScan(chunks, h, data, 0, len, block);
      RegionLeaves(chunks, h, data, 0, len, block);
      RegionStep(chunks, h, data, 0, 0, block, buf, len);
      ScanFromRegion(chunks, h, data, 0, 0, block, buf, len, 0, len);
      TailAccepts(chunks, h, data, s.next, len, block, buf, len, ByteCount(s.tokens));
      var rest := ScanFrom(chunks, h, data, s.next, len, block, buf, len, ByteCount(s.tokens));
      FoldConcat([], s.tokens, rest.value, chunks);
    }
  }

  /** Before any scan: if the signature's last block is a full one, or the source fits
      the buffer, the budget is exact. */
  lemma {:induction false} ExactWhen(chunks: seq<ChunkSig>, h: Hash, data: seq<byte>, block: nat, buf: nat)
    requires block > 0 && buf > 0
    requires (chunks != [] ==> chunks[|chunks| - 1].len >= block) || |data| <= buf
    ensures Exact(chunks, h, data, block, buf)
  {
    hide LargestRegion, TailMatched, ScanFrom, ByteCount;
    if |data| > buf {
      FullBlocksNoTail(chunks, h, data, 0, 0, block, buf);
    } else if TailMatched(chunks, h, data, 0, 0, block, buf) {
      OneRegion(chunks, h, data, block, buf);
    }
    BudgetExactIff(chunks, h, data, block, buf);
  }

  // ---- overruns ----

  /** A basis of one full block and a short one, and a source of zeros. */
  function Basis(block: nat, last: nat): seq<byte>
    requires block > 0
  {
    [1] + Zeros(block - 1) + Zeros(last)
  }

  lemma {:induction false} BasisBlocks(block: nat, last: nat, h: Hash)
    requires 0 < last < block
    ensures var t := Tile(Basis(block, last), 0, block, h);
      && |t| == 2 && t[0].len == block && t[0].weak.Some? && t[0].weak.value != 0
      && t[1].len == last && t[1].weak == Some(0) && t[1].strong == h(Zeros(last))
      && FirstBlock(t) == Some(block)
  {
    hide Rollsum.WeakOf;
    var b := Basis(block, last);
    assert Tile(b, block + last, block, h) == [];
    assert Tile(b, block, block, h) == [BlockSig(b, block, last, h)];
    assert Tile(b, 0, block, h) == [BlockSig(b, 0, block, h), BlockSig(b, block, last, h)];
    assert Slice(b, 0, block) == [1] + Zeros(block - 1);
    assert Slice(b, block, last) == Zeros(last);
    OneThenZerosWeak(block);
    ZerosWeak(last);
  }

  /** What the overrun needs of a two-block signature. */
  predicate TwoBlocks(chunks: seq<ChunkSig>, block: nat, last: nat, h: Hash) {
    && |chunks| == 2 && 0 < last < block && chunks[0].len == block && chunks[0].weak.Some? && chunks[0].weak.value != 0
    && chunks[1].len == last && chunks[1].weak == Some(0) && chunks[1].strong == h(Zeros(last))
  }

  lemma {:induction false} ZerosMiss(chunks: seq<ChunkSig>, block: nat, last: nat, h: Hash)
    requires TwoBlocks(chunks, block, last, h)
    ensures ScanFind(chunks, Zeros(block), h) == None && TailMatch(chunks, h, Zeros(last)) == Some(1)
  {
    hide ScanFind, Rollsum.WeakOf;
    ScanFindComplete(chunks, Zeros(block), h);
    ZerosWeak(block);
    ZerosWeak(last);
    assert LinearFind(chunks, 0, 0, block, h(Zeros(block)), MAX_CHAIN_LEN) == None;
    assert LinearFind(chunks, 1, 0, block, h(Zeros(block)), MAX_CHAIN_LEN) == None;
  }

  lemma {:induction false} ZerosRegion(chunks: seq<ChunkSig>, block: nat, last: nat, h: Hash, len: nat, q: nat, end: nat)
    requires TwoBlocks(chunks, block, last, h) && 0 < block && q + block <= end <= len
    ensures var s := RegionScan(chunks, h, Zeros(len), q, end, block); s.next == end && ByteCount(s.tokens) == end - q
    decreases end - q
  {
    hide ScanFind, ByteCount, LiteralTokens, TwoBlocks;
    ZerosMiss(chunks, block, last, h);
    assert Zeros(len)[q..q + block] == Zeros(block);
    if q + block == end {
      FoldLiterals([], Zeros(len)[q..end], chunks);
    } else {
      ZerosRegion(chunks, block, last, h, len, q + 1, end);
      OneToken(Byte(0));
      FoldConcat([], [Byte(0)], RegionScan(chunks, h, Zeros(len), q + 1, end, block).tokens, chunks);
    }
  }

  /** `m` more buffers of zeros and a tail: all literal but the tail, which matches. */
  lemma {:induction false} ZerosRun(
    chunks: seq<ChunkSig>, block: nat, last: nat, buf: nat, h: Hash, len: nat, p: nat, m: nat, free: nat, spent: nat)
    requires TwoBlocks(chunks, block, last, h) && block <= buf && p <= len && len - p == m * buf + last
    requires free >= spent + (len - p)
    ensures TailMatched(chunks, h, Zeros(len), p, p, block, buf)
    ensures var r := ScanFrom(chunks, h, Zeros(len), p, p, block, buf, free, spent); r.Some? && ByteCount(r.value) == m * buf
    decreases m
  {
    hide RegionScan, TailMatch, ByteCount, ScanFrom, TailMatched, LargestRegion;
    var data := Zeros(len);
    if m == 0 {
      assert Refilled(len, p, p, block, buf) == len;
      assert data[p..] == Zeros(last);
      ZerosMiss(chunks, block, last, h);
      MatchedHere(chunks, h, data, p, block, buf);
      TailAccepts(chunks, h, data, p, p, block, buf, free, spent);
    } else {
      NextMultiple(m - 1, buf);
      assert Refilled(len, p, p, block, buf) == p + buf;
      ZerosRegion(chunks, block, last, h, len, p, p + buf);
      RegionStep(chunks, h, data, p, p, block, buf, p + buf);
      ScanFromRegion(chunks, h, data, p, p, block, buf, free, spent, p + buf);
      ZerosRun(chunks, block, last, buf, h, len, p + buf, m - 1, free, spent + buf);
      var s := RegionScan(chunks, h, data, p, p + buf, block);
      FoldConcat([], s.tokens, ScanFrom(chunks, h, data, p + buf, p + buf, block, buf, free, spent + buf).value, chunks);
    }
  }

  lemma MatchedHere(chunks: seq<ChunkSig>, h: Hash, data: seq<byte>, p: nat, block: nat, buf: nat)
    requires block > 0 && buf > 0 && p <= |data| && Refilled(|data|, p, p, block, buf) - p < block
    ensures TailMatched(chunks, h, data, p, p, block, buf) == TailMatch(chunks, h, data[p..]).Some?
  {
  }

  /** For every block length, larger buffer, short last block and budget of at least
      both, and for every number, an accepted source has more literal bytes than that:
      unmatched buffers of zeros and a matching short tail. */
  lemma {:induction false} BudgetOverrun(block: nat, last: nat, buf: nat, max: nat, more: nat, h: Hash)
    returns (basis: seq<byte>, data: seq<byte>)
    requires 0 < last < block <= buf && max >= block + buf
    ensures |basis| == block + last && FirstBlock(Tile(basis, 0, block, h)) == Some(block)
    ensures var chunks := Tile(basis, 0, block, h);
      Accepts(chunks, h, data, block, buf, max) && LiteralTotal(chunks, h, data, block, buf) > more
  {
    hide Tile, ScanFrom, TailMatched, ByteCount, LargestRegion;
    basis := Basis(block, last);
    BasisBlocks(block, last, h);
    var chunks, m := Tile(basis, 0, block, h), more + 1;
    var len := m * buf + last;
    data := Zeros(len);
    ZerosRun(chunks, block, last, buf, h, len, 0, m, len, 0);
    WideBudget(chunks, h, data, block, buf, max);
    MultiplesOrdered(1, buf, m);
  }

  /** The last block of a basis, cut at `block`. */
  function LastLen(basis: seq<byte>, block: nat, h: Hash): nat
    requires block > 0
  {
    var t := Tile(basis, 0, block, h);
    if t == [] then 0 else t[|t| - 1].len
  }

  /** The budget is exact for every basis with that last block and every source. */
  ghost predicate ExactForAll(block: nat, buf: nat, last: nat, h: Hash)
    requires block > 0 && buf > 0
  {
    forall basis, data | LastLen(basis, block, h) == last ::
      Exact(Tile(basis, 0, block, h), h, data, block, buf)
  }

  /** The length of the basis's last block decides, for every hash: the budget is exact for every basis
      with that last block and every source exactly when it is a full block. */
  lemma {:induction false} ExactExactly(block: nat, buf: nat, last: nat, h: Hash)
    requires 0 < last <= block <= buf
    ensures ExactForAll(block, buf, last, h) <==> last == block
  {
    hide Tile, Exact, LiteralTotal;
    if last == block {
      forall basis, data | LastLen(basis, block, h) == last
        ensures Exact(Tile(basis, 0, block, h), h, data, block, buf)
      {
        ExactWhen(Tile(basis, 0, block, h), h, data, block, buf);
      }
    } else {
      var max := block + buf;
      var basis, data := BudgetOverrun(block, last, buf, max, max, h);
      BasisBlocks(block, last, h);
      LastOfBasis(block, last, buf, max, h, basis, data);
    }
  }

  lemma LastOfBasis(block: nat, last: nat, buf: nat, max: nat, h: Hash, basis: seq<byte>, data: seq<byte>)
    requires 0 < last < block <= buf && |basis| == block + last
    requires var chunks := Tile(basis, 0, block, h);
      Accepts(chunks, h, data, block, buf, max) && LiteralTotal(chunks, h, data, block, buf) > max
    ensures LastLen(basis, block, h) == last && !Exact(Tile(basis, 0, block, h), h, data, block, buf)
  {
    hide LiteralTotal, Accepts;
    assert Tile(basis, block + last, block, h) == [];
    assert Tile(basis, block, block, h) == [BlockSig(basis, block, last, h)];
  }
}
