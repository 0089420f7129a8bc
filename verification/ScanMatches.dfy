/** Which matches the scan finds: every one that starts at a literal byte was lost at a
    buffer boundary. */
module ScanMatches {
  import opened Bytes
  import opened Signatures
  import opened BlockTable
  import opened RollsumScan
  import opened RollsumTheorems
  import Rollsum

  function TokenLen(t: Token, chunks: seq<ChunkSig>): nat {
    if t.Byte? then 1 else if t.m < |chunks| then chunks[t.m].len else 0
  }

  function Span(ts: seq<Token>, chunks: seq<ChunkSig>): nat {
    if ts == [] then 0 else TokenLen(ts[0], chunks) + Span(ts[1..], chunks)
  }

  /** The source byte at `q` is a literal of the tokens, which start at `p`. */
  predicate LiteralAt(ts: seq<Token>, chunks: seq<ChunkSig>, p: nat, q: nat) {
    ts != [] && ((ts[0].Byte? && q == p) || LiteralAt(ts[1..], chunks, p + TokenLen(ts[0], chunks), q))
  }

  lemma {:induction false} LiteralConcat(a: seq<Token>, b: seq<Token>, chunks: seq<ChunkSig>, p: nat, q: nat)
    ensures Span(a + b, chunks) == Span(a, chunks) + Span(b, chunks)
    ensures LiteralAt(a + b, chunks, p, q) <==>
      LiteralAt(a, chunks, p, q) || LiteralAt(b, chunks, p + Span(a, chunks), q)
  {
    if a == [] {
      assert a + b == b;
    } else {
      LiteralConcat(a[1..], b, chunks, p + TokenLen(a[0], chunks), q);
      assert (a + b)[1..] == a[1..] + b;
    }
  }

  lemma {:induction false} LiteralRun(data: seq<byte>, chunks: seq<ChunkSig>, p: nat, q: nat)
    ensures Span(LiteralTokens(data), chunks) == |data|
    ensures LiteralAt(LiteralTokens(data), chunks, p, q) <==> p <= q < p + |data|
  {
    if data != [] {
      assert LiteralTokens(data)[1..] == LiteralTokens(data[1..]);
      LiteralRun(data[1..], chunks, p + 1, q);
    }
  }

  lemma OneBlock(m: nat, chunks: seq<ChunkSig>, p: nat, q: nat)
    ensures Span([Block(m)], chunks) == TokenLen(Block(m), chunks) && !LiteralAt([Block(m)], chunks, p, q)
  {
    assert [Block(m)][1..] == [];
  }

  lemma OneByte(b: byte, chunks: seq<ChunkSig>, p: nat, q: nat)
    ensures Span([Byte(b)], chunks) == 1 && (LiteralAt([Byte(b)], chunks, p, q) <==> q == p)
  {
    assert [Byte(b)][1..] == [];
  }

  // ---- inside a region ----

  /** A match starting at `q` would be found. */
  predicate Found(chunks: seq<ChunkSig>, h: Hash, data: seq<byte>, block: nat, q: nat) {
    q + block <= |data| && ScanFind(chunks, data[q..q + block], h).Some?
  }

  /** In a region a literal byte where a match starts lies in its last window, past the
      window's first byte. */
  lemma {:induction false} RegionCatches(
    chunks: seq<ChunkSig>, h: Hash, data: seq<byte>, p: nat, end: nat, block: nat, q: nat)
    requires block > 0 && p + block <= end <= |data|
    ensures var s := RegionScan(chunks, h, data, p, end, block);
      && Span(s.tokens, chunks) == s.next - p
      && (LiteralAt(s.tokens, chunks, p, q) && Found(chunks, h, data, block, q) ==> end - block < q < end)
    decreases end - p
  {
    hide ScanFind, LiteralAt, Span, LiteralTokens;
    var window := data[p..p + block];
    match ScanFind(chunks, window, h) {
      case Some(m) =>
        FindsSound(chunks, window, h);
        OneBlock(m, chunks, p, q);
        if p + block + block <= end {
          var rest := RegionScan(chunks, h, data, p + block, end, block);
          RegionCatches(chunks, h, data, p + block, end, block, q);
          LiteralConcat([Block(m)], rest.tokens, chunks, p, q);
        }
      case None =>
        if p + block == end {
          LiteralRun(data[p..end], chunks, p, q);
        } else {
          var rest := RegionScan(chunks, h, data, p + 1, end, block);
          RegionCatches(chunks, h, data, p + 1, end, block, q);
          OneByte(data[p], chunks, p, q);
          LiteralConcat([Byte(data[p])], rest.tokens, chunks, p, q);
        }
    }
  }

  // ---- the whole scan ----

  /** A buffer ends within the window that starts at `q`, past its first byte. */
  ghost predicate Straddles(q: nat, block: nat, buf: nat, len: nat) {
    exists e: nat :: AtBoundary(e, buf, len) && e < q + block && q < e
  }

  ghost predicate AtBoundary(e: nat, buf: nat, len: nat) {
    e < len && Multiple(e, buf)
  }

  ghost predicate Multiple(e: nat, buf: nat) {
    exists k: nat :: e == Times(k, buf)
  }

  function Times(k: nat, n: nat): nat { k * n }

  lemma NextBoundary(n: nat, buf: nat)
    requires Multiple(n, buf)
    ensures Multiple(n + buf, buf)
  {
    var k: nat :| n == Times(k, buf);
    assert n + buf == Times(k + 1, buf);
  }

  lemma {:induction false} RefilledAtBoundary(len: nat, p: nat, n: nat, block: nat, buf: nat)
    requires p <= n <= len && buf > 0 && (Multiple(n, buf) || n == len)
    ensures var end := Refilled(len, p, n, block, buf); end == len || AtBoundary(end, buf, len)
    decreases len - n
  {
    hide Multiple;
    if n - p < block && n != len {
      NextBoundary(n, buf);
      RefilledAtBoundary(len, p, Min(n + buf, len), block, buf);
    }
  }

  lemma {:induction false} ScanCatches(
    chunks: seq<ChunkSig>, h: Hash, data: seq<byte>, p: nat, n: nat, block: nat, buf: nat, max: nat, spent: nat, q: nat)
    requires block > 0 && buf > 0 && p <= n <= |data| && (Multiple(n, buf) || n == |data|)
    ensures var r := ScanFrom(chunks, h, data, p, n, block, buf, max, spent);
      r.Some? && LiteralAt(r.value, chunks, p, q) && Found(chunks, h, data, block, q) ==> Straddles(q, block, buf, |data|)
    decreases |data| - p
  {
    hide RegionScan, Refilled, ScanFind, TailMatch, ByteCount, LiteralAt, Span, Multiple;
    var end := Refilled(|data|, p, n, block, buf);
    RefilledAtBoundary(|data|, p, n, block, buf);
    if end - p < block {
      LiteralRun(data[p..], chunks, p, q);
      forall m
        ensures !LiteralAt([Block(m)], chunks, p, q)
      {
        OneBlock(m, chunks, p, q);
      }
    } else {
      var s := RegionScan(chunks, h, data, p, end, block);
      RegionCatches(chunks, h, data, p, end, block, q);
      ScanCatches(chunks, h, data, s.next, end, block, buf, max, spent + ByteCount(s.tokens), q);
      var rest := ScanFrom(chunks, h, data, s.next, end, block, buf, max, spent + ByteCount(s.tokens));
      if rest.Some? {
        LiteralConcat(s.tokens, rest.value, chunks, p, q);
      }
    }
  }

  /** All tokens of a scan no budget stops; an accepted scan has these. */
  function AllTokens(chunks: seq<ChunkSig>, h: Hash, data: seq<byte>, block: nat, buf: nat): seq<Token>
    requires block > 0 && buf > 0
  {
    BudgetAccepts(chunks, h, data, 0, 0, block, buf, |data|, 0, |data|);
    ScanFrom(chunks, h, data, 0, 0, block, buf, |data|, 0).value
  }

  /** Nothing else is missed: a literal byte where a match starts has a buffer boundary
      within that match, for every signature, source, block length and buffer. */
  lemma {:induction false} MissesStraddle(
    chunks: seq<ChunkSig>, h: Hash, data: seq<byte>, block: nat, buf: nat, max: nat, q: nat)
    requires block > 0 && buf > 0 && Found(chunks, h, data, block, q)
    requires var r := ScanFrom(chunks, h, data, 0, 0, block, buf, max, 0);
      r.Some? && LiteralAt(r.value, chunks, 0, q)
    ensures Straddles(q, block, buf, |data|)
  {
    assert 0 == Times(0, buf);
    hide ScanFrom, LiteralAt, Found;
    ScanCatches(chunks, h, data, 0, 0, block, buf, max, 0, q);
  }

  /** Every position where a match starts is covered by a copy. */
  ghost predicate Caught(chunks: seq<ChunkSig>, h: Hash, data: seq<byte>, block: nat, buf: nat)
    requires block > 0 && buf > 0
  {
    forall q: nat | Found(chunks, h, data, block, q) :: !LiteralAt(AllTokens(chunks, h, data, block, buf), chunks, 0, q)
  }

  /** That holds for every source of a length and every basis of at least a block. */
  ghost predicate AlwaysCaught(len: nat, block: nat, buf: nat, h: Hash)
    requires block > 0 && buf > 0
  {
    forall basis, data | |basis| >= block && |data| == len :: Caught(Tile(basis, 0, block, h), h, data, block, buf)
  }

  lemma OneBufferCatches(chunks: seq<ChunkSig>, h: Hash, data: seq<byte>, block: nat, buf: nat)
    requires block > 0 && buf > 0 && |data| <= buf
    ensures Caught(chunks, h, data, block, buf)
  {
    hide LiteralAt, Found;
    BudgetAccepts(chunks, h, data, 0, 0, block, buf, |data|, 0, |data|);
    forall q: nat | Found(chunks, h, data, block, q)
      ensures !LiteralAt(AllTokens(chunks, h, data, block, buf), chunks, 0, q)
    {
      if LiteralAt(AllTokens(chunks, h, data, block, buf), chunks, 0, q) {
        MissesStraddle(chunks, h, data, block, buf, |data|, q);
        var e: nat :| AtBoundary(e, buf, |data|) && e < q + block && q < e;
        var k: nat :| e == Times(k, buf);
        NoneBelow(k, buf);
        assert false;
      }
    }
  }

  lemma NoneBelow(k: nat, buf: nat)
    ensures k > 0 ==> Times(k, buf) >= buf
    ensures Times(0, buf) == 0
  {
    if k > 0 {
      assert k * buf == (k - 1) * buf + buf;
    }
  }

  // ---- beyond one buffer ----

  function Late(block: nat): seq<byte>
    requires block > 0
  {
    Zeros(block - 1) + [1]
  }

  lemma {:induction false} LateWeak(block: nat)
    requires block > 0
    ensures Rollsum.WeakOf(Late(block)) != 0
  {
    LateSum(block);
    hide Rollsum.WeightedSum, Rollsum.Sum;
    assert Rollsum.WeakOf(Late(block)) % 0x1_0000 == 1;
  }

  lemma {:induction false} LateSum(block: nat)
    requires block > 0
    ensures Rollsum.Sum(Late(block)) == 1
  {
    var w := Late(block);
    if block > 1 {
      assert w[1..] == Late(block - 1) && w[0] == 0;
      LateSum(block - 1);
    } else {
      assert w == [1] && w[1..] == [];
    }
  }

  /** A region in which nothing matches is literal. */
  lemma {:induction false} NothingFound(
    chunks: seq<ChunkSig>, h: Hash, data: seq<byte>, p: nat, end: nat, block: nat)
    requires block > 0 && p + block <= end <= |data|
    requires forall q | p <= q <= end - block :: !Found(chunks, h, data, block, q)
    ensures RegionScan(chunks, h, data, p, end, block) == Scan(LiteralTokens(data[p..end]), end)
    decreases end - p
  {
    hide ScanFind;
    assert !Found(chunks, h, data, block, p);
    if p + block < end {
      NothingFound(chunks, h, data, p + 1, end, block);
      assert LiteralTokens(data[p..end]) == [Byte(data[p])] + LiteralTokens(data[p + 1..end]);
    }
  }

  lemma LateFound(chunks: seq<ChunkSig>, block: nat, h: Hash)
    requires block > 0 && chunks == Tile(Late(block), 0, block, h)
    ensures ScanFind(chunks, Late(block), h).Some? && ScanFind(chunks, Zeros(block), h) == None
  {
    var w := Late(block);
    assert Tile(w, block, block, h) == [] && chunks == [BlockSig(w, 0, block, h)];
    assert w[0..block] == w;
    LateWeak(block);
    ZerosWeak(block);
    ScanFindComplete(chunks, w, h);
    LinearFindExact(chunks, 1, Rollsum.WeakOf(w), block, h(w), MAX_CHAIN_LEN);
    FindsSound(chunks, Zeros(block), h);
    assert Candidates(chunks, 1, 1, Rollsum.WeakOf(w), block) == 0;
    hide ScanFind;
    assert chunks[0].strong == h(w) && Candidate(chunks[0], Rollsum.WeakOf(w), block);
  }

  /** Zeros up to the end of the first buffer, then the one. */
  function AcrossBuffer(buf: nat, len: nat): seq<byte>
    requires buf < len
  {
    Zeros(buf) + [1] + Zeros(len - buf - 1)
  }

  lemma {:induction false} LateMissed(len: nat, block: nat, buf: nat, h: Hash)
    requires 2 <= block <= buf < len
    ensures !Caught(Tile(Late(block), 0, block, h), h, AcrossBuffer(buf, len), block, buf)
  {
    var chunks, data, q := Tile(Late(block), 0, block, h), AcrossBuffer(buf, len), buf - block + 1;
    LateFound(chunks, block, h);
    hide ScanFind, Tile, LiteralAt, ScanFrom, RegionScan, Late, AcrossBuffer;
    AcrossWindow(buf, len, block, q);
    forall i | 0 <= i <= buf - block
      ensures !Found(chunks, h, data, block, i)
    {
      AcrossWindow(buf, len, block, i);
    }
    NothingFound(chunks, h, data, 0, buf, block);
    LiteralRun(data[0..buf], chunks, 0, q);
    FirstRegion(chunks, h, data, block, buf, q);
    assert Found(chunks, h, data, block, q);
  }

  lemma AcrossWindow(buf: nat, len: nat, block: nat, i: nat)
    requires 0 < block <= buf < len && i <= buf - block + 1
    ensures |AcrossBuffer(buf, len)| == len
    ensures var w := AcrossBuffer(buf, len)[i..i + block]; w == if i == buf - block + 1 then Late(block) else Zeros(block)
  {
    var data := AcrossBuffer(buf, len);
    assert forall k | 0 <= k < len :: data[k] == if k == buf then 1 else 0;
  }

  /** A literal of the first buffer's region is one of the scan. */
  lemma FirstRegion(chunks: seq<ChunkSig>, h: Hash, data: seq<byte>, block: nat, buf: nat, q: nat)
    requires 0 < block <= buf <= |data|
    requires LiteralAt(RegionScan(chunks, h, data, 0, buf, block).tokens, chunks, 0, q)
    ensures LiteralAt(AllTokens(chunks, h, data, block, buf), chunks, 0, q)
  {
    hide RegionScan, LiteralAt, Span, ByteCount;
    BudgetAccepts(chunks, h, data, 0, 0, block, buf, |data|, 0, |data|);
    var s := RegionScan(chunks, h, data, 0, buf, block);
    assert Refilled(|data|, 0, buf, block, buf) == buf && Refilled(|data|, 0, 0, block, buf) == buf;
    var rest := ScanFrom(chunks, h, data, s.next, buf, block, buf, |data|, ByteCount(s.tokens));
    LiteralConcat(s.tokens, rest.value, chunks, 0, q);
  }

  /** The scan finds every match, for every basis and every source of a length, exactly
      when such a source fits one buffer. */
  lemma {:induction false} CaughtExactly(len: nat, block: nat, buf: nat, h: Hash)
    requires 2 <= block <= buf
    ensures AlwaysCaught(len, block, buf, h) <==> len <= buf
  {
    hide Caught;
    if len <= buf {
      forall basis, data | |basis| >= block && |data| == len
        ensures Caught(Tile(basis, 0, block, h), h, data, block, buf)
      {
        OneBufferCatches(Tile(basis, 0, block, h), h, data, block, buf);
      }
    } else {
      LateMissed(len, block, buf, h);
      AcrossWindow(buf, len, block, 0);
      assert |Late(block)| == block;
      assert !Caught(Tile(Late(block), 0, block, h), h, AcrossBuffer(buf, len), block, buf);
    }
  }
}
