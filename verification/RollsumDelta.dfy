/** `compute_delta_rollsum`: the buffered driver around the region scan. */
module RollsumDelta {
  import opened Bytes
  import opened Reader
  import opened DeltaOps
  import opened Signatures
  import opened BlockTable
  import opened RollsumScan
  import Rollsum

  /** The block length announced by the first rollsum block of a signature. */
  function FirstBlock(chunks: seq<ChunkSig>): Option<nat> {
    if chunks == [] then None
    else if chunks[0].weak.Some? then Some(chunks[0].len)
    else FirstBlock(chunks[1..])
  }

  method FindBlock(chunks: seq<ChunkSig>) returns (r: Option<nat>)
    ensures r == FirstBlock(chunks)
  {
    for i := 0 to |chunks|
      invariant FirstBlock(chunks) == FirstBlock(chunks[i..])
    {
      if chunks[i].weak.Some? {
        return Some(chunks[i].len);
      }
      assert chunks[i..][1..] == chunks[i + 1..];
    }
    return None;
  }

  /** The whole-file checksum, when one was asked for. */
  function Checksum(verify: bool, h: Hash, data: seq<byte>): Option<Digest> {
    if verify then Some(h(data)) else None
  }

  /** One literal holds the whole source. */
  predicate AllLiteral(ops: seq<Op>, size: nat, data: seq<byte>) {
    ops == LiteralPushed([], data) && size == |data|
  }

  /** The delta of a token stream. */
  predicate TokenDelta(ops: seq<Op>, size: nat, ts: seq<Token>, chunks: seq<ChunkSig>) {
    ops == Emit([], ts, chunks) && size == ByteCount(ts) + BlockBytes(ts, chunks)
  }

  /** Everything literal, in bounded reads: succeeds exactly when the source fits
      the budget, and the op list does not depend on how it was read. */
  method StreamAllLiteral(source: Source, bufSize: nat, destSize: nat, maxLiteral: nat, verify: bool, h: Hash)
    returns (r: Result<Delta, DeltaError>)
    requires source.Valid() && source.pos == 0 && bufSize > 0
    modifies source
    ensures r.Ok? ==> fresh(r.value) && AllLiteral(r.value.ops, r.value.sourceSize, source.data)
    ensures r.Ok? ==> |source.data| <= maxLiteral && r.value.basisSize == destSize
    ensures r.Ok? ==> r.value.checksum == Checksum(verify, h, source.data)
    ensures r.Err? && r.error != Chunking ==>
      r.error == LiteralBudgetExceeded(maxLiteral) && |source.data| > maxLiteral
    ensures NoFailure(source.schedule) && r.Err? ==> r.error != Chunking
  {
    var fed: seq<byte> := [];
    var delta := new Delta(0, destSize);
    var literalBytes: nat := 0;
    assert delta.ops == LiteralPushed([], source.data[..0]);
    hide LiteralPushed;
    while true
      invariant source.Valid() && fresh(delta) && delta.basisSize == destSize && delta.checksum == None
      invariant delta.ops == LiteralPushed([], source.data[..source.pos])
      invariant literalBytes == source.pos && literalBytes <= maxLiteral
      invariant verify ==> fed == source.data[..source.pos]
      decreases |source.data| - source.pos
    {
      ghost var before := source.pos;
      var got := source.Read(bufSize);
      if got.Err? {
        return Err(Chunking);
      }
      if |got.value| == 0 {
        break;
      }
      PushedRead(source.data, before, source.pos);
      delta.PushLiteral(got.value);
      if verify {
        fed := fed + got.value;
      }
      literalBytes := literalBytes + |got.value|;
      if literalBytes > maxLiteral {
        return Err(LiteralBudgetExceeded(maxLiteral));
      }
    }
    assert source.data[..source.pos] == source.data;
    delta.sourceSize := literalBytes;
    delta.checksum := if verify then Some(h(fed)) else None;
    return Ok(delta);
  }

  /** Pushing the next read extends the literal prefix. */
  lemma PushedRead(data: seq<byte>, from: nat, to: nat)
    requires from <= to <= |data|
    ensures LiteralPushed(LiteralPushed([], data[..from]), data[from..to]) == LiteralPushed([], data[..to])
    ensures data[..from] + data[from..to] == data[..to]
  {
    LiteralPushAssociative([], data[..from], data[from..to]);
    hide LiteralPushed;
    Adjacent(data, 0, from, to);
  }

  /** Top the scan buffer up: compact the consumed prefix, then read full buffers
      until a window fits or the input ends. */
  method Refill(source: Source, src: seq<byte>, p: nat, block: nat, buf: nat, fed: seq<byte>, verify: bool)
    returns (ok: bool, src': seq<byte>, p': nat, fed': seq<byte>)
    requires source.Valid() && p <= |src| <= source.pos && buf > 0
    requires src == source.data[source.pos - |src|..source.pos]
    requires verify ==> fed == source.data[..source.pos]
    modifies source
    ensures source.Valid()
    ensures ok ==> p' <= |src'| <= source.pos && source.pos - |src'| + p' == old(source.pos) - |src| + p
    ensures ok ==> src' == source.data[source.pos - |src'|..source.pos]
    ensures ok ==> source.pos == Refilled(|source.data|, old(source.pos) - |src| + p, old(source.pos), block, buf)
    ensures ok && verify ==> fed' == source.data[..source.pos]
    ensures NoFailure(source.schedule) ==> ok
  {
    src', p', fed' := src, p, fed;
    hide Refilled;
    var eof := false;
    ghost var at := source.pos - |src| + p;
    while |src'| - p' < block && !eof
      invariant source.Valid() && p' <= |src'| <= source.pos && source.pos - |src'| + p' == at
      invariant src' == source.data[source.pos - |src'|..source.pos]
      invariant Refilled(|source.data|, at, old(source.pos), block, buf)
             == Refilled(|source.data|, at, source.pos, block, buf)
      invariant verify ==> fed' == source.data[..source.pos]
      invariant eof ==> source.pos == |source.data|
      decreases |source.data| - source.pos, !eof
    {
      if p' > 0 {
        src' := src'[p'..];
        p' := 0;
      }
      ghost var before := source.pos;
      var got := source.Fill(buf);
      if got.Err? {
        return false, [], 0, [];
      }
      RefillStep(|source.data|, at, before, block, buf);
      Adjacent(source.data, before - |src'|, before, source.pos);
      Adjacent(source.data, 0, before, source.pos);
      src' := src' + got.value;
      if verify {
        fed' := fed' + got.value;
      }
      if |got.value| == 0 {
        eof := true;
      }
    }
    RefillStep(|source.data|, at, source.pos, block, buf);
    ok := true;
  }

  lemma RefillStep(len: nat, p: nat, n: nat, block: nat, buf: nat)
    requires p <= n <= len && buf > 0
    ensures n - p < block ==> Refilled(len, p, n, block, buf) == Refilled(len, p, Min(n + buf, len), block, buf)
    ensures n - p >= block || n == len ==> Refilled(len, p, n, block, buf) == n
  {
  }

  /** The end-of-file probe: the tail's own checksum, the unmasked head index. */
  method TailLookup(
    chunks: seq<ChunkSig>, g: Geometry, head: array<nat>, chain: array<nat>, tail: seq<byte>, h: Hash)
    returns (m: Option<nat>)
    requires |chunks| <= 0xffff_ffff && g == GeometryOf(|chunks|)
    requires Built(chunks, |chunks|, g, head[..], chain[..])
    ensures m == TailMatch(chunks, h, tail)
  {
    hide SlotOf, GeometryOf, Entry, LastIn, Previous, Walk, Rollsum.BucketTraditional, Rollsum.WeakValue;
    var lastLen := if |chunks| == 0 then 0 else chunks[|chunks| - 1].len;
    m := None;
    if |tail| == lastLen && lastLen > 0 {
      var a, b := Rollsum.WeakInit(tail);
      var sum := Rollsum.WeakValue(a, b);
      Rollsum.BuildBucket(a, b);
      SlotIsBucket(sum, g);
      var t := if g.big then sum % g.size else Rollsum.BucketTraditional(a, b);
      var e := head[t];
      assert head[..][t] == Entry(chunks, |chunks|, t, g);
      TailStart(chunks, t, g);
      BucketWalkIsLinearSearch(chunks, g, |chunks|, sum, lastLen, h(tail), MAX_CHAIN_LEN);
      if e != EMPTY {
        var first := if g.big then e / 0x1_0000_0000 else e / 0x1_0000_0000 % 0x1_0000;
        m := ProbeBucket(chunks, first, chain, sum, lastLen, tail, h, g, head[..]);
      } else {
        NoWalk(chunks, g, sum, lastLen, h(tail));
      }
    }
  }

  lemma {:induction false} TailStart(chunks: seq<ChunkSig>, t: nat, g: Geometry)
    requires |chunks| <= 0xffff_ffff && g == GeometryOf(|chunks|)
    ensures var e := Entry(chunks, |chunks|, t, g); var i := LastIn(chunks, |chunks|, t, g);
      && (e == EMPTY <==> i < 0)
      && (i >= 0 ==> (if g.big then e / 0x1_0000_0000 else e / 0x1_0000_0000 % 0x1_0000) == i)
  {
    hide SlotOf, GeometryOf, LastIn;
    EntryParts(chunks, t, g);
    var i := LastIn(chunks, |chunks|, t, g);
    if i >= 0 && g.big {
      UnpackBig(chunks[i].weak.value, i);
    }
  }

  // ---- the driver ----

  /** The driver's state at absolute position `p` with the buffer reaching `n`. */
  ghost predicate Driving(
    chunks: seq<ChunkSig>, h: Hash, data: seq<byte>, block: nat, buf: nat, max: nat,
    done: seq<Token>, p: nat, n: nat, ops: seq<Op>, lits: nat, size: nat)
    requires block > 0 && buf > 0
  {
    && p <= n <= |data|
    && ops == Emit([], done, chunks) && lits == ByteCount(done) && size == lits + BlockBytes(done, chunks)
    && var rest := ScanFrom(chunks, h, data, p, n, block, buf, max, lits);
       ScanFrom(chunks, h, data, 0, 0, block, buf, max, 0)
         == if rest.Some? then Some(done + rest.value) else None
  }

  lemma DriveStart(chunks: seq<ChunkSig>, h: Hash, data: seq<byte>, block: nat, buf: nat, max: nat)
    requires block > 0 && buf > 0
    ensures Driving(chunks, h, data, block, buf, max, [], 0, 0, [], 0, 0)
  {
    var rest := ScanFrom(chunks, h, data, 0, 0, block, buf, max, 0);
    if rest.Some? {
      assert [] + rest.value == rest.value;
    }
  }

  lemma ScanFromRegion(
    chunks: seq<ChunkSig>, h: Hash, data: seq<byte>, p: nat, n: nat, block: nat, buf: nat, max: nat, spent: nat,
    end: nat)
    requires block > 0 && buf > 0 && p <= n <= |data|
    requires end == Refilled(|data|, p, n, block, buf) && end - p >= block
    ensures var s := RegionScan(chunks, h, data, p, end, block); var now := ByteCount(s.tokens);
      var rest := ScanFrom(chunks, h, data, s.next, end, block, buf, max, spent + now);
      ScanFrom(chunks, h, data, p, n, block, buf, max, spent)
        == if now <= max && rest.Some? then Some(s.tokens + rest.value) else None
  {
    hide RegionScan, Refilled, TailMatch, ByteCount;
  }

  /** One region further. */
  lemma DriveRegion(
    chunks: seq<ChunkSig>, h: Hash, data: seq<byte>, block: nat, buf: nat, max: nat,
    done: seq<Token>, p: nat, n: nat, ops: seq<Op>, lits: nat, size: nat, end: nat)
    requires block > 0 && buf > 0
    requires Driving(chunks, h, data, block, buf, max, done, p, n, ops, lits, size)
    requires end == Refilled(|data|, p, n, block, buf) && end - p >= block
    ensures var s := RegionScan(chunks, h, data, p, end, block);
      if ByteCount(s.tokens) > max then ScanFrom(chunks, h, data, 0, 0, block, buf, max, 0) == None
      else Driving(chunks, h, data, block, buf, max, done + s.tokens, s.next, end, Emit(ops, s.tokens, chunks),
                   lits + ByteCount(s.tokens), size + ByteCount(s.tokens) + BlockBytes(s.tokens, chunks))
  {
    hide RegionScan, ScanFrom, Refilled, TailMatch, ByteCount, BlockBytes, Emit;
    var s := RegionScan(chunks, h, data, p, end, block);
    ScanFromRegion(chunks, h, data, p, n, block, buf, max, lits, end);
    FoldConcat([], done, s.tokens, chunks);
    var rest := ScanFrom(chunks, h, data, s.next, end, block, buf, max, lits + ByteCount(s.tokens));
    if ByteCount(s.tokens) <= max && rest.Some? {
      assert done + (s.tokens + rest.value) == done + s.tokens + rest.value;
    }
  }

  lemma {:induction false} DriveTail(
    chunks: seq<ChunkSig>, h: Hash, data: seq<byte>, block: nat, buf: nat, max: nat,
    done: seq<Token>, p: nat, n: nat, ops: seq<Op>, lits: nat, size: nat)
    requires block > 0 && buf > 0
    requires Driving(chunks, h, data, block, buf, max, done, p, n, ops, lits, size)
    requires Refilled(|data|, p, n, block, buf) - p < block
    ensures var whole := ScanFrom(chunks, h, data, 0, 0, block, buf, max, 0);
      var tail := data[p..];
      match TailMatch(chunks, h, tail)
      case Some(m) =>
        && m < |chunks| && whole.Some?
        && Emit([], whole.value, chunks) == CopyPushed(ops, chunks[m].offset, chunks[m].len)
        && ByteCount(whole.value) + BlockBytes(whole.value, chunks) == size + chunks[m].len
      case None =>
        && (whole.None? <==> lits + |tail| > max)
        && (whole.Some? ==> Emit([], whole.value, chunks) == LiteralPushed(ops, tail))
        && (whole.Some? ==> ByteCount(whole.value) + BlockBytes(whole.value, chunks) == size + |tail|)
  {
    hide RegionScan, Refilled, ScanFind;
    var tail := data[p..];
    match TailMatch(chunks, h, tail) {
      case Some(m) =>
        FindsSound(chunks, tail, h);
        FoldSnoc([], done, Block(m), chunks);
      case None =>
        FoldConcat([], done, LiteralTokens(tail), chunks);
        FoldLiterals(ops, tail, chunks);
    }
  }

  /** The whole engine computes the specification's tokens, for every read
      splitting: it fails with a budget error exactly when they do. */
  method ComputeDeltaRollsum(source: Source, sig: Signature, maxLiteral: nat, verify: bool, h: Hash, buf: nat)
    returns (r: Result<Delta, DeltaError>)
    requires source.Valid() && source.pos == 0 && buf > 0 && |sig.chunks| <= 0xffff_ffff
    requires FirstBlock(sig.chunks).Some? ==> 0 < FirstBlock(sig.chunks).value <= SCRATCH
    modifies source
    ensures r.Ok? ==> fresh(r.value) && r.value.basisSize == sig.fileSize
    ensures r.Ok? ==> r.value.checksum == Checksum(verify, h, source.data)
    ensures r.Err? ==> r.error == Chunking || r.error == LiteralBudgetExceeded(maxLiteral)
    ensures NoFailure(source.schedule) && r.Err? ==> r.error != Chunking
    ensures r.Ok? && verify ==> r.value.checksum == Some(h(source.data))
    ensures r.Ok? && Slim(sig.chunks) ==> Packed(r.value.ops)
    ensures FirstBlock(sig.chunks).None? ==>
      && (r.Ok? ==> |source.data| <= maxLiteral && AllLiteral(r.value.ops, r.value.sourceSize, source.data))
      && (r.Err? && r.error != Chunking ==> |source.data| > maxLiteral)
    ensures FirstBlock(sig.chunks).Some? ==>
      var ts := ScanFrom(sig.chunks, h, source.data, 0, 0, FirstBlock(sig.chunks).value, buf, maxLiteral, 0);
      && (r.Ok? ==> ts.Some? && TokenDelta(r.value.ops, r.value.sourceSize, ts.value, sig.chunks))
      && (r.Err? && r.error != Chunking ==> ts.None?)
  {
    hide ScanFrom, TokenDelta, AllLiteral, Packed, Slim;
    var first := FindBlock(sig.chunks);
    if first.None? {
      r := StreamAllLiteral(source, buf, sig.fileSize, maxLiteral, verify, h);
    } else {
      r := ScanSource(source, sig, first.value, maxLiteral, verify, h, buf);
    }
    if r.Ok? && Slim(sig.chunks) {
      if first.None? {
        LiteralPacked(r.value.ops, r.value.sourceSize, source.data);
      } else {
        ghost var ts := ScanFrom(sig.chunks, h, source.data, 0, 0, first.value, buf, maxLiteral, 0);
        TokensPacked(r.value.ops, r.value.sourceSize, ts.value, sig.chunks);
      }
    }
  }

  lemma LiteralPacked(ops: seq<Op>, size: nat, data: seq<byte>)
    requires AllLiteral(ops, size, data)
    ensures Packed(ops)
  {
    PushesStayPacked([], 0, 0, data);
  }

  lemma TokensPacked(ops: seq<Op>, size: nat, ts: seq<Token>, chunks: seq<ChunkSig>)
    requires TokenDelta(ops, size, ts, chunks) && Slim(chunks)
    ensures Packed(ops)
  {
    EmitPacked(ts, chunks);
  }

  lemma {:induction false} EmitPacked(ts: seq<Token>, chunks: seq<ChunkSig>)
    requires Slim(chunks)
    ensures Packed(Emit([], ts, chunks))
  {
    if ts != [] {
      hide Packed;
      var ops, t := Emit([], ts[..|ts| - 1], chunks), ts[|ts| - 1];
      EmitPacked(ts[..|ts| - 1], chunks);
      match t {
        case Byte(b) => PushesStayPacked(ops, 0, 0, [b]);
        case Block(m) =>
          if m < |chunks| {
            PushesStayPacked(ops, chunks[m].offset, chunks[m].len, []);
          }
      }
    }
  }

  /** The engine proper, once the block length is known. */
  method ScanSource(
    source: Source, sig: Signature, block: nat, maxLiteral: nat, verify: bool, h: Hash, buf: nat)
    returns (r: Result<Delta, DeltaError>)
    requires source.Valid() && source.pos == 0 && buf > 0 && |sig.chunks| <= 0xffff_ffff
    requires 0 < block <= SCRATCH
    modifies source
    ensures r.Ok? ==> fresh(r.value) && r.value.basisSize == sig.fileSize
    ensures r.Ok? ==> r.value.checksum == Checksum(verify, h, source.data)
    ensures r.Err? ==> r.error == Chunking || r.error == LiteralBudgetExceeded(maxLiteral)
    ensures NoFailure(source.schedule) && r.Err? ==> r.error != Chunking
    ensures var ts := ScanFrom(sig.chunks, h, source.data, 0, 0, block, buf, maxLiteral, 0);
      && (r.Ok? ==> ts.Some? && TokenDelta(r.value.ops, r.value.sourceSize, ts.value, sig.chunks))
      && (r.Err? && r.error != Chunking ==> ts.None?)
  {
    hide Built, GeometryOf, RegionScan, ScanFrom, Refilled, Driving, TailMatch, LiteralPushed, CopyPushed, Emit,
      ByteCount, BlockBytes, TokenDelta;
    var delta := new Delta(0, sig.fileSize);
    var g, head, chain := BuildTable(sig.chunks);
    var src: seq<byte>, p: nat, fed: seq<byte> := [], 0, [];
    var sourceSize: nat, literalBytes: nat := 0, 0;
    ghost var done: seq<Token> := [];
    DriveStart(sig.chunks, h, source.data, block, buf, maxLiteral);
    var ok: bool;
    while true
      invariant source.Valid() && fresh(delta) && delta.basisSize == sig.fileSize && delta.checksum == None
      invariant Built(sig.chunks, |sig.chunks|, g, head[..], chain[..])
      invariant p <= |src| <= source.pos && src == source.data[source.pos - |src|..source.pos]
      invariant verify ==> fed == source.data[..source.pos]
      invariant Driving(sig.chunks, h, source.data, block, buf, maxLiteral, done,
                        source.pos - |src| + p, source.pos, delta.ops, literalBytes, sourceSize)
      decreases |source.data| - (source.pos - |src| + p)
    {
      ghost var at, before := source.pos - |src| + p, source.pos;
      ok, src, p, fed := Refill(source, src, p, block, buf, fed, verify);
      if !ok {
        return Err(Chunking);
      }
      if |src| - p < block {
        r := FinishTail(sig.chunks, g, head, chain, src[p..], h, delta, literalBytes, sourceSize,
                        maxLiteral, source.data, block, buf, done, at, before);
        if r.Ok? {
          assert source.pos == |source.data|;
          assert source.data[..source.pos] == source.data;
          delta.checksum := if verify then Some(h(fed)) else None;
        }
        return;
      }
      SubSlice(source.data, source.pos - |src|, src, p, |src| - p);
      var step := ScanStep(src[p..], block, sig.chunks, g, head, chain, delta, literalBytes, sourceSize, maxLiteral, h,
                           source.data, buf, done, at, before, source.pos);
      if step.Err? {
        return Err(step.error);
      }
      done := done + RegionScan(sig.chunks, h, source.data, at, source.pos, block).tokens;
      p, literalBytes, sourceSize := p + step.value.0, step.value.1, step.value.2;
    }
  }

  /** Scan the buffered region and fold its counters. */
  method ScanStep(
    region: seq<byte>, block: nat, chunks: seq<ChunkSig>, g: Geometry, head: array<nat>, chain: array<nat>,
    delta: Delta, literalBytes: nat, sourceSize: nat, maxLiteral: nat, h: Hash, ghost data: seq<byte>,
    ghost buf: nat, ghost done: seq<Token>, ghost at: nat, ghost before: nat, ghost end: nat)
    returns (r: Result<(nat, nat, nat), DeltaError>)
    requires 0 < block <= SCRATCH && |chunks| <= 0xffff_ffff && g == GeometryOf(|chunks|) && buf > 0
    requires Built(chunks, |chunks|, g, head[..], chain[..])
    requires Driving(chunks, h, data, block, buf, maxLiteral, done, at, before, delta.ops, literalBytes, sourceSize)
    requires at <= before <= |data| && end == Refilled(|data|, at, before, block, buf) && end - at >= block
    requires region == data[at..end]
    modifies delta`ops
    ensures var s := RegionScan(chunks, h, data, at, end, block);
      && (r.Ok? ==> r.value.0 == s.next - at)
      && (r.Ok? ==> Driving(chunks, h, data, block, buf, maxLiteral, done + s.tokens, s.next, end, delta.ops,
                            r.value.1, r.value.2))
    ensures r.Err? ==> r.error == LiteralBudgetExceeded(maxLiteral)
    ensures r.Err? ==> ScanFrom(chunks, h, data, 0, 0, block, buf, maxLiteral, 0) == None
  {
    hide Built, GeometryOf, RegionScan, ScanFrom, Refilled, Driving, Emit, ByteCount, BlockBytes;
    DriveRegion(chunks, h, data, block, buf, maxLiteral, done, at, before, delta.ops, literalBytes, sourceSize, end);
    var scanned := ScanRegion(region, block, chunks, g, head, chain, delta, maxLiteral, h, data, at);
    if scanned.Err? {
      return Err(scanned.error);
    }
    var (consumed, _, regionBytes, matched) := scanned.value;
    return Ok((consumed, literalBytes + regionBytes, sourceSize + (matched + regionBytes)));
  }

  /** The end of the file: fewer than a block remain. */
  method FinishTail(
    chunks: seq<ChunkSig>, g: Geometry, head: array<nat>, chain: array<nat>, tail: seq<byte>, h: Hash,
    delta: Delta, literalBytes: nat, sourceSize0: nat, maxLiteral: nat,
    ghost data: seq<byte>, ghost block: nat, ghost buf: nat, ghost done: seq<Token>, ghost p: nat, ghost n: nat)
    returns (r: Result<Delta, DeltaError>)
    requires |chunks| <= 0xffff_ffff && g == GeometryOf(|chunks|)
    requires Built(chunks, |chunks|, g, head[..], chain[..])
    requires block > 0 && buf > 0
    requires Driving(chunks, h, data, block, buf, maxLiteral, done, p, n, delta.ops, literalBytes, sourceSize0)
    requires p <= n <= |data| && tail == data[p..] && Refilled(|data|, p, n, block, buf) - p < block
    modifies delta`ops, delta`sourceSize
    ensures var ts := ScanFrom(chunks, h, data, 0, 0, block, buf, maxLiteral, 0);
      && (r.Ok? ==> r.value == delta && ts.Some?)
      && (r.Ok? ==> TokenDelta(delta.ops, delta.sourceSize, ts.value, chunks))
      && (r.Err? ==> r.error == LiteralBudgetExceeded(maxLiteral) && ts.None?)
  {
    hide Built, GeometryOf, ScanFrom, Refilled, Driving, TailMatch, LiteralPushed, CopyPushed, Emit,
      ByteCount, BlockBytes;
    DriveTail(chunks, h, data, block, buf, maxLiteral, done, p, n, delta.ops, literalBytes, sourceSize0);
    var sourceSize := sourceSize0;
    var matched := TailLookup(chunks, g, head, chain, tail, h);
    if matched.Some? {
      var c := chunks[matched.value];
      delta.PushCopy(c.offset, c.len);
      sourceSize := sourceSize + c.len;
    } else {
      if literalBytes + |tail| > maxLiteral {
        return Err(LiteralBudgetExceeded(maxLiteral));
      }
      sourceSize := sourceSize + |tail|;
      delta.PushLiteral(tail);
    }
    delta.sourceSize := sourceSize;
    return Ok(delta);
  }
}
