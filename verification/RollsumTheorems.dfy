/** What the rollsum engine promises: round trip, budget, and free self-deltas. */
module RollsumTheorems {
  import opened Bytes
  import opened Reader
  import opened DeltaOps
  import opened Signatures
  import opened BlockTable
  import opened RollsumScan
  import opened RollsumDelta
  import opened Patch
  import Rollsum

  // ---- decoding tokens ----

  /** Every entry describes its own stretch of the basis. */
  ghost predicate Describes(chunks: seq<ChunkSig>, basis: seq<byte>, h: Hash) {
    forall i | 0 <= i < |chunks| ::
      chunks[i].offset + chunks[i].len <= |basis| && chunks[i] == BlockSig(basis, chunks[i].offset, chunks[i].len, h)
  }

  lemma TileDescribes(basis: seq<byte>, block: nat, h: Hash)
    requires block > 0
    ensures Describes(Tile(basis, 0, block, h), basis, h)
  {
    hide Tile;
    forall i | 0 <= i < |Tile(basis, 0, block, h)| {
      TileShape(basis, 0, block, h, i);
    }
  }

  predicate SoundToken(t: Token, chunks: seq<ChunkSig>, basisLen: nat) {
    t.Block? ==> t.m < |chunks| && chunks[t.m].offset + chunks[t.m].len <= basisLen
  }

  predicate Sound(ts: seq<Token>, chunks: seq<ChunkSig>, basisLen: nat) {
    forall i | 0 <= i < |ts| :: SoundToken(ts[i], chunks, basisLen)
  }

  function TokenBytes(t: Token, chunks: seq<ChunkSig>, basis: seq<byte>): seq<byte>
    requires SoundToken(t, chunks, |basis|)
  {
    match t
    case Byte(b) => [b]
    case Block(m) => basis[chunks[m].offset..chunks[m].offset + chunks[m].len]
  }

  /** The bytes a token stream stands for. */
  function Decode(ts: seq<Token>, chunks: seq<ChunkSig>, basis: seq<byte>): seq<byte>
    requires Sound(ts, chunks, |basis|)
  {
    if ts == [] then []
    else Decode(ts[..|ts| - 1], chunks, basis) + TokenBytes(ts[|ts| - 1], chunks, basis)
  }

  lemma DecodeSnoc(a: seq<Token>, t: Token, chunks: seq<ChunkSig>, basis: seq<byte>)
    requires Sound(a, chunks, |basis|) && SoundToken(t, chunks, |basis|)
    ensures Sound(a + [t], chunks, |basis|)
    ensures Decode(a + [t], chunks, basis) == Decode(a, chunks, basis) + TokenBytes(t, chunks, basis)
  {
    hide SoundToken;
    assert (a + [t])[..|a|] == a;
  }

  lemma Associative(a: seq<byte>, b: seq<byte>, c: seq<byte>)
    ensures a + b + c == a + (b + c)
  {
  }

  lemma {:induction false} DecodeConcat(a: seq<Token>, b: seq<Token>, chunks: seq<ChunkSig>, basis: seq<byte>)
    requires Sound(a, chunks, |basis|) && Sound(b, chunks, |basis|)
    ensures Sound(a + b, chunks, |basis|)
    ensures Decode(a + b, chunks, basis) == Decode(a, chunks, basis) + Decode(b, chunks, basis)
  {
    if b == [] {
      assert a + b == a;
    } else {
      var b', t := b[..|b| - 1], b[|b| - 1];
      assert b == b' + [t] && a + b == a + b' + [t];
      SoundParts(b', [t], chunks, |basis|);
      SoundParts(a, b', chunks, |basis|);
      hide *;
      DecodeConcat(a, b', chunks, basis);
      DecodeSnoc(a + b', t, chunks, basis);
      DecodeSnoc(b', t, chunks, basis);
      Associative(Decode(a, chunks, basis), Decode(b', chunks, basis), TokenBytes(t, chunks, basis));
    }
  }

  lemma SoundParts(a: seq<Token>, b: seq<Token>, chunks: seq<ChunkSig>, basisLen: nat)
    ensures Sound(a + b, chunks, basisLen) <==> Sound(a, chunks, basisLen) && Sound(b, chunks, basisLen)
    ensures |b| == 1 && Sound(b, chunks, basisLen) ==> SoundToken(b[0], chunks, basisLen)
  {
    hide SoundToken;
    assert forall i | 0 <= i < |a| :: (a + b)[i] == a[i];
    assert forall i | 0 <= i < |b| :: (a + b)[|a| + i] == b[i];
  }

  lemma DecodeOne(t: Token, chunks: seq<ChunkSig>, basis: seq<byte>)
    requires SoundToken(t, chunks, |basis|)
    ensures Sound([t], chunks, |basis|) && Decode([t], chunks, basis) == TokenBytes(t, chunks, basis)
  {
    assert [t][..0] == [];
  }

  lemma {:induction false} DecodeLiterals(data: seq<byte>, chunks: seq<ChunkSig>, basis: seq<byte>)
    ensures Sound(LiteralTokens(data), chunks, |basis|)
    ensures Decode(LiteralTokens(data), chunks, basis) == data
  {
    if data != [] {
      var front, last := data[..|data| - 1], data[|data| - 1];
      assert LiteralTokens(data) == LiteralTokens(front) + [Byte(last)];
      assert front + [last] == data;
      hide LiteralTokens, Decode, Sound;
      DecodeLiterals(front, chunks, basis);
      DecodeSnoc(LiteralTokens(front), Byte(last), chunks, basis);
    }
  }

  /** Emitting tokens through the merging pushes appends exactly their bytes, and
      the counters split them into literal and matched. */
  lemma {:induction false} EmitReplay(ops: seq<Op>, ts: seq<Token>, chunks: seq<ChunkSig>, basis: seq<byte>)
    requires InBounds(ops, |basis|) && Sound(ts, chunks, |basis|)
    ensures var r := Emit(ops, ts, chunks);
      && InBounds(r, |basis|)
      && Replay(r, basis) == Replay(ops, basis) + Decode(ts, chunks, basis)
      && Literals(r) == Literals(ops) + ByteCount(ts)
      && Matched(r) == Matched(ops) + BlockBytes(ts, chunks)
  {
    if ts == [] {
      assert Replay(ops, basis) + [] == Replay(ops, basis);
    } else {
      hide Replay, Matched, Literals, EmitOne, TokenBytes, SoundToken;
      var front, t := ts[..|ts| - 1], ts[|ts| - 1];
      EmitReplay(ops, front, chunks, basis);
      EmitOneReplay(Emit(ops, front, chunks), t, chunks, basis);
      Associative(Replay(ops, basis), Decode(front, chunks, basis), TokenBytes(t, chunks, basis));
    }
  }

  lemma {:induction false} EmitOneReplay(ops: seq<Op>, t: Token, chunks: seq<ChunkSig>, basis: seq<byte>)
    requires InBounds(ops, |basis|) && SoundToken(t, chunks, |basis|)
    ensures var r := EmitOne(ops, t, chunks);
      && InBounds(r, |basis|)
      && Replay(r, basis) == Replay(ops, basis) + TokenBytes(t, chunks, basis)
      && Literals(r) == Literals(ops) + (if t.Byte? then 1 else 0)
      && Matched(r) == Matched(ops) + (if t.Block? && t.m < |chunks| then chunks[t.m].len else 0)
  {
    hide Replay, Matched, Literals, LiteralPushed, CopyPushed;
    match t {
      case Byte(b) => PushedLiteral(ops, basis, [b]);
      case Block(m) => PushedCopy(ops, basis, chunks[m].offset, chunks[m].len);
    }
  }

  // ---- round trip ----

  /** A verified match has the window's bytes (the one use of the strong hash). */
  lemma MatchedBytes(
    chunks: seq<ChunkSig>, h: Hash, data: seq<byte>, q: nat, n: nat, basis: seq<byte>, m: nat)
    requires q + n <= |data| && m < |chunks|
    requires Describes(chunks, basis, h) && CollisionFree(h, basis, data)
    requires chunks[m].strong == h(data[q..q + n])
    ensures SoundToken(Block(m), chunks, |basis|)
    ensures TokenBytes(Block(m), chunks, basis) == data[q..q + n]
  {
    assert Slice(data, q, n) == data[q..q + n];
    assert h(Slice(basis, chunks[m].offset, chunks[m].len)) == h(Slice(data, q, n));
  }

  lemma {:induction false} RegionDecodes(
    chunks: seq<ChunkSig>, h: Hash, data: seq<byte>, q: nat, end: nat, block: nat, basis: seq<byte>)
    requires block > 0 && q + block <= end <= |data|
    requires Describes(chunks, basis, h) && CollisionFree(h, basis, data)
    ensures var s := RegionScan(chunks, h, data, q, end, block);
      Sound(s.tokens, chunks, |basis|) && Decode(s.tokens, chunks, basis) == data[q..s.next]
    decreases end - q
  {
    hide CollisionFree, Describes, Decode, Sound, ScanFind;
    var s := RegionScan(chunks, h, data, q, end, block);
    match ScanFind(chunks, data[q..q + block], h) {
      case Some(m) =>
        FindsSound(chunks, data[q..q + block], h);
        MatchedBytes(chunks, h, data, q, block, basis, m);
        DecodeOne(Block(m), chunks, basis);
        if q + block + block <= end {
          RegionDecodes(chunks, h, data, q + block, end, block, basis);
          DecodeConcat([Block(m)], RegionScan(chunks, h, data, q + block, end, block).tokens, chunks, basis);
          Adjacent(data, q, q + block, s.next);
        }
      case None =>
        if q + block == end {
          DecodeLiterals(data[q..end], chunks, basis);
        } else {
          RegionDecodes(chunks, h, data, q + 1, end, block, basis);
          DecodeOne(Byte(data[q]), chunks, basis);
          DecodeConcat([Byte(data[q])], RegionScan(chunks, h, data, q + 1, end, block).tokens, chunks, basis);
          assert [data[q]] == data[q..q + 1];
          Adjacent(data, q, q + 1, s.next);
        }
    }
  }

  /** Across refills, jumps, the unmatched last windows and the short tail, the
      tokens always decode to the source. */
  lemma {:induction false} ScanDecodes(
    chunks: seq<ChunkSig>, h: Hash, data: seq<byte>, p: nat, n: nat, block: nat, buf: nat, max: nat, spent: nat,
    basis: seq<byte>)
    requires block > 0 && buf > 0 && p <= n <= |data|
    requires Describes(chunks, basis, h) && CollisionFree(h, basis, data)
    ensures var r := ScanFrom(chunks, h, data, p, n, block, buf, max, spent);
      r.Some? ==> Sound(r.value, chunks, |basis|) && Decode(r.value, chunks, basis) == data[p..]
    decreases |data| - p
  {
    hide CollisionFree, Describes, Decode, Sound, RegionScan, Refilled;
    var end := Refilled(|data|, p, n, block, buf);
    if end - p < block {
      var tail := data[p..];
      match TailMatch(chunks, h, tail) {
        case Some(m) =>
          FindsSound(chunks, tail, h);
          assert tail == data[p..p + |tail|];
          MatchedBytes(chunks, h, data, p, |tail|, basis, m);
          DecodeOne(Block(m), chunks, basis);
        case None =>
          DecodeLiterals(tail, chunks, basis);
      }
    } else {
      var s := RegionScan(chunks, h, data, p, end, block);
      RegionDecodes(chunks, h, data, p, end, block, basis);
      ScanDecodes(chunks, h, data, s.next, end, block, buf, max, spent + ByteCount(s.tokens), basis);
      var rest := ScanFrom(chunks, h, data, s.next, end, block, buf, max, spent + ByteCount(s.tokens));
      if rest.Some? {
        DecodeConcat(s.tokens, rest.value, chunks, basis);
        assert data[p..s.next] + data[s.next..] == data[p..];
      }
    }
  }

  /** Round trip: whatever block length, buffer size and budget the scan ran
      with, its delta against the basis's own tiling is in bounds, its matched and
      literal bytes add up to the source, and replaying it gives the source. */
  lemma RollsumRoundTrip(
    basis: seq<byte>, data: seq<byte>, blockSize: nat, h: Hash, block: nat, buf: nat, max: nat)
    requires blockSize > 0 && block > 0 && buf > 0 && CollisionFree(h, basis, data)
    ensures var chunks := Tile(basis, 0, blockSize, h);
      var r := ScanFrom(chunks, h, data, 0, 0, block, buf, max, 0);
      r.Some? ==>
        var ops := Emit([], r.value, chunks);
        && InBounds(ops, |basis|) && Replay(ops, basis) == data
        && Matched(ops) + Literals(ops) == |data| == ByteCount(r.value) + BlockBytes(r.value, chunks)
  {
    hide Tile, CollisionFree, ScanFrom, Emit, Decode, Sound, ByteCount, BlockBytes;
    var chunks := Tile(basis, 0, blockSize, h);
    TileDescribes(basis, blockSize, h);
    ScanDecodes(chunks, h, data, 0, 0, block, buf, max, 0, basis);
    var r := ScanFrom(chunks, h, data, 0, 0, block, buf, max, 0);
    if r.Some? {
      EmitReplay([], r.value, chunks, basis);
      ReplayLength(Emit([], r.value, chunks), basis);
      assert [] + data == data && data[0..] == data;
    }
  }

  // ---- the literal budget ----

  /** A budget refuses or changes nothing: an accepted result is the one an
      unlimited budget gives. */
  lemma {:induction false} BudgetOnlyRefuses(
    chunks: seq<ChunkSig>, h: Hash, data: seq<byte>, p: nat, n: nat, block: nat, buf: nat, max: nat, spent: nat,
    free: nat)
    requires block > 0 && buf > 0 && p <= n <= |data|
    requires free >= spent + (|data| - p)
    ensures var r := ScanFrom(chunks, h, data, p, n, block, buf, max, spent);
      r.Some? ==> r == ScanFrom(chunks, h, data, p, n, block, buf, free, spent)
    decreases |data| - p
  {
    hide RegionScan, Refilled, TailMatch, ByteCount;
    var end := Refilled(|data|, p, n, block, buf);
    if end - p >= block {
      hide ScanFrom;
      ScanFromRegion(chunks, h, data, p, n, block, buf, max, spent, end);
      ScanFromRegion(chunks, h, data, p, n, block, buf, free, spent, end);
      var s := RegionScan(chunks, h, data, p, end, block);
      RegionLiterals(chunks, h, data, p, end, block);
      BudgetOnlyRefuses(chunks, h, data, s.next, end, block, buf, max, spent + ByteCount(s.tokens), free);
    }
  }

  /** Literal bytes of the region with the most. */
  function LargestRegion(chunks: seq<ChunkSig>, h: Hash, data: seq<byte>, p: nat, n: nat, block: nat, buf: nat): nat
    requires block > 0 && buf > 0 && p <= n <= |data|
    decreases |data| - p
  {
    var end := Refilled(|data|, p, n, block, buf);
    if end - p < block then 0
    else
      var s := RegionScan(chunks, h, data, p, end, block);
      var rest := LargestRegion(chunks, h, data, s.next, end, block, buf);
      if ByteCount(s.tokens) >= rest then ByteCount(s.tokens) else rest
  }

  /** The scan ends with a short tail that matches the last block. */
  predicate TailMatched(chunks: seq<ChunkSig>, h: Hash, data: seq<byte>, p: nat, n: nat, block: nat, buf: nat)
    requires block > 0 && buf > 0 && p <= n <= |data|
    decreases |data| - p
  {
    var end := Refilled(|data|, p, n, block, buf);
    if end - p < block then TailMatch(chunks, h, data[p..]).Some?
    else TailMatched(chunks, h, data, RegionScan(chunks, h, data, p, end, block).next, end, block, buf)
  }

  /** Acceptance, exactly: every region fits the budget by itself, and the total
      fits too unless the short tail matched. */
  lemma {:induction false} BudgetAccepts(
    chunks: seq<ChunkSig>, h: Hash, data: seq<byte>, p: nat, n: nat, block: nat, buf: nat, max: nat, spent: nat,
    free: nat)
    requires block > 0 && buf > 0 && p <= n <= |data|
    requires free >= spent + (|data| - p)
    ensures var all := ScanFrom(chunks, h, data, p, n, block, buf, free, spent);
      var r := ScanFrom(chunks, h, data, p, n, block, buf, max, spent);
      var largest := LargestRegion(chunks, h, data, p, n, block, buf);
      && all.Some? && largest <= ByteCount(all.value)
      && (r.Some? <==> largest <= max && (TailMatched(chunks, h, data, p, n, block, buf) || spent + ByteCount(all.value) <= max))
    decreases |data| - p
  {
    hide RegionScan, Refilled, TailMatch, ScanFrom, LargestRegion, TailMatched, ByteCount;
    var end := Refilled(|data|, p, n, block, buf);
    if end - p < block {
      TailAccepts(chunks, h, data, p, n, block, buf, max, spent);
      TailAccepts(chunks, h, data, p, n, block, buf, free, spent);
    } else {
      ScanFromRegion(chunks, h, data, p, n, block, buf, max, spent, end);
      ScanFromRegion(chunks, h, data, p, n, block, buf, free, spent, end);
      RegionStep(chunks, h, data, p, n, block, buf, end);
      var s := RegionScan(chunks, h, data, p, end, block);
      RegionLiterals(chunks, h, data, p, end, block);
      var now := ByteCount(s.tokens);
      BudgetAccepts(chunks, h, data, s.next, end, block, buf, max, spent + now, free);
      FoldConcat([], s.tokens, ScanFrom(chunks, h, data, s.next, end, block, buf, free, spent + now).value, chunks);
    }
  }

  lemma RegionStep(
    chunks: seq<ChunkSig>, h: Hash, data: seq<byte>, p: nat, n: nat, block: nat, buf: nat, end: nat)
    requires block > 0 && buf > 0 && p <= n <= |data|
    requires end == Refilled(|data|, p, n, block, buf) && end - p >= block
    ensures var s := RegionScan(chunks, h, data, p, end, block); var now := ByteCount(s.tokens);
      var rest := LargestRegion(chunks, h, data, s.next, end, block, buf);
      && LargestRegion(chunks, h, data, p, n, block, buf) == (if now >= rest then now else rest)
      && TailMatched(chunks, h, data, p, n, block, buf) == TailMatched(chunks, h, data, s.next, end, block, buf)
  {
    hide RegionScan, Refilled, TailMatch, ByteCount;
  }

  lemma TailAccepts(
    chunks: seq<ChunkSig>, h: Hash, data: seq<byte>, p: nat, n: nat, block: nat, buf: nat, max: nat, spent: nat)
    requires block > 0 && buf > 0 && p <= n <= |data|
    requires Refilled(|data|, p, n, block, buf) - p < block
    ensures var r := ScanFrom(chunks, h, data, p, n, block, buf, max, spent);
      var matched := TailMatched(chunks, h, data, p, n, block, buf);
      && LargestRegion(chunks, h, data, p, n, block, buf) == 0
      && (r.Some? <==> matched || spent + (|data| - p) <= max)
      && (r.Some? ==> ByteCount(r.value) == if matched then 0 else |data| - p)
  {
    hide RegionScan, Refilled, TailMatch;
    FoldLiterals([], data[p..], chunks);
  }

  ghost predicate Accepts(chunks: seq<ChunkSig>, h: Hash, data: seq<byte>, block: nat, buf: nat, max: nat)
    requires block > 0 && buf > 0
  {
    ScanFrom(chunks, h, data, 0, 0, block, buf, max, 0).Some?
  }

  /** The budget bounds the literal total, for every budget, exactly when the short
      tail did not match or one region holds all the literals. */
  lemma BudgetExactIff(chunks: seq<ChunkSig>, h: Hash, data: seq<byte>, block: nat, buf: nat)
    requires block > 0 && buf > 0
    ensures var all := ScanFrom(chunks, h, data, 0, 0, block, buf, |data|, 0);
      && all.Some?
      && ((forall max: nat :: Accepts(chunks, h, data, block, buf, max) <==> ByteCount(all.value) <= max)
          <==> !TailMatched(chunks, h, data, 0, 0, block, buf)
               || LargestRegion(chunks, h, data, 0, 0, block, buf) == ByteCount(all.value))
  {
    hide ScanFrom, ByteCount, TailMatched, LargestRegion;
    var largest := LargestRegion(chunks, h, data, 0, 0, block, buf);
    BudgetAccepts(chunks, h, data, 0, 0, block, buf, largest, 0, |data|);
    var all := ScanFrom(chunks, h, data, 0, 0, block, buf, |data|, 0);
    forall max: nat
      ensures Accepts(chunks, h, data, block, buf, max) <==>
        largest <= max && (TailMatched(chunks, h, data, 0, 0, block, buf) || ByteCount(all.value) <= max)
    {
      BudgetAccepts(chunks, h, data, 0, 0, block, buf, max, 0, |data|);
    }
    assert Accepts(chunks, h, data, block, buf, largest) <==>
      TailMatched(chunks, h, data, 0, 0, block, buf) || ByteCount(all.value) <= largest;
  }

  lemma {:induction false} RegionLiterals(
    chunks: seq<ChunkSig>, h: Hash, data: seq<byte>, q: nat, end: nat, block: nat)
    requires block > 0 && q + block <= end <= |data|
    ensures var s := RegionScan(chunks, h, data, q, end, block); ByteCount(s.tokens) <= s.next - q
    decreases end - q
  {
    hide ScanFind, ByteCount, LiteralTokens;
    match ScanFind(chunks, data[q..q + block], h) {
      case Some(m) =>
        OneToken(Block(m));
        if q + block + block <= end {
          RegionLiterals(chunks, h, data, q + block, end, block);
          FoldConcat([], [Block(m)], RegionScan(chunks, h, data, q + block, end, block).tokens, chunks);
        }
      case None =>
        if q + block == end {
          FoldLiterals([], data[q..end], chunks);
        } else {
          RegionLiterals(chunks, h, data, q + 1, end, block);
          OneToken(Byte(data[q]));
          FoldConcat([], [Byte(data[q])], RegionScan(chunks, h, data, q + 1, end, block).tokens, chunks);
        }
    }
  }

  lemma OneToken(t: Token)
    ensures ByteCount([t]) == if t.Byte? then 1 else 0
  {
    assert [t][..0] == [];
  }
}
