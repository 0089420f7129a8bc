/** The sliding-window delta engine: its specification as a token stream, and the
    buffered, scratch-collecting implementation. */
module RollsumScan {
  import opened Bytes
  import opened Reader
  import opened DeltaOps
  import opened Signatures
  import opened BlockTable
  import Rollsum

  const SCRATCH: nat := 64 * 1024

  /** What the scan decides: this source byte is literal, or basis block `m` matches. */
  datatype Token = Byte(b: byte) | Block(m: nat)

  datatype Scan = Scan(tokens: seq<Token>, next: nat)

  // ---- specification ----

  function LiteralTokens(data: seq<byte>): (r: seq<Token>)
    ensures |r| == |data|
  {
    seq(|data|, i requires 0 <= i < |data| => Byte(data[i]))
  }

  /** Scan the buffered region `data[q..end]`: jump a block on a match, else pass
      one byte; an unmatched last window is literal as a whole. */
  function RegionScan(chunks: seq<ChunkSig>, h: Hash, data: seq<byte>, q: nat, end: nat, block: nat): (r: Scan)
    requires block > 0 && q + block <= end <= |data|
    ensures q < r.next <= end
    decreases end - q
  {
    match ScanFind(chunks, data[q..q + block], h)
    case Some(m) =>
      if q + block + block > end then Scan([Block(m)], q + block)
      else
        var rest := RegionScan(chunks, h, data, q + block, end, block);
        Scan([Block(m)] + rest.tokens, rest.next)
    case None =>
      if q + block == end then Scan(LiteralTokens(data[q..end]), end)
      else
        var rest := RegionScan(chunks, h, data, q + 1, end, block);
        Scan([Byte(data[q])] + rest.tokens, rest.next)
  }

  /** How far the buffer reaches after topping it up for a window at `p`. */
  function Refilled(len: nat, p: nat, n: nat, block: nat, buf: nat): (r: nat)
    requires p <= n <= len && buf > 0
    ensures n <= r <= len && (r - p < block ==> r == len)
    decreases len - n
  {
    if n - p >= block || n == len then n
    else Refilled(len, p, Min(n + buf, len), block, buf)
  }

  /** The end-of-file window: only a rest as long as the last block can match. */
  function TailMatch(chunks: seq<ChunkSig>, h: Hash, tail: seq<byte>): Option<nat> {
    if chunks != [] && |tail| == chunks[|chunks| - 1].len && |tail| > 0 then TailFind(chunks, tail, h)
    else None
  }

  /** All tokens from `p` on, or None when a literal budget check fails: each
      region is checked on its own, an unmatched tail against the running total. */
  function ScanFrom(
    chunks: seq<ChunkSig>, h: Hash, data: seq<byte>, p: nat, n: nat, block: nat, buf: nat, max: nat, spent: nat)
    : Option<seq<Token>>
    requires block > 0 && buf > 0 && p <= n <= |data|
    decreases |data| - p
  {
    var end := Refilled(|data|, p, n, block, buf);
    if end - p < block then
      var tail := data[p..];
      match TailMatch(chunks, h, tail)
      case Some(m) => Some([Block(m)])
      case None => if spent + |tail| > max then None else Some(LiteralTokens(tail))
    else
      var s := RegionScan(chunks, h, data, p, end, block);
      if ByteCount(s.tokens) > max then None
      else
        match ScanFrom(chunks, h, data, s.next, end, block, buf, max, spent + ByteCount(s.tokens))
        case Some(rest) => Some(s.tokens + rest)
        case None => None
  }

  function ByteCount(ts: seq<Token>): nat {
    if ts == [] then 0 else ByteCount(ts[..|ts| - 1]) + if ts[|ts| - 1].Byte? then 1 else 0
  }

  function BlockBytes(ts: seq<Token>, chunks: seq<ChunkSig>): nat {
    if ts == [] then 0
    else
      var t := ts[|ts| - 1];
      BlockBytes(ts[..|ts| - 1], chunks) + if t.Block? && t.m < |chunks| then chunks[t.m].len else 0
  }

  /** The op list the tokens stand for, through the merging pushes. */
  function Emit(ops: seq<Op>, ts: seq<Token>, chunks: seq<ChunkSig>): seq<Op> {
    if ts == [] then ops
    else EmitOne(Emit(ops, ts[..|ts| - 1], chunks), ts[|ts| - 1], chunks)
  }

  function EmitOne(ops: seq<Op>, t: Token, chunks: seq<ChunkSig>): seq<Op> {
    match t
    case Byte(b) => LiteralPushed(ops, [b])
    case Block(m) => if m < |chunks| then CopyPushed(ops, chunks[m].offset, chunks[m].len) else ops
  }

  // ---- folds over token concatenation ----

  lemma {:induction false} FoldConcat(ops: seq<Op>, a: seq<Token>, b: seq<Token>, chunks: seq<ChunkSig>)
    ensures Emit(ops, a + b, chunks) == Emit(Emit(ops, a, chunks), b, chunks)
    ensures ByteCount(a + b) == ByteCount(a) + ByteCount(b)
    ensures BlockBytes(a + b, chunks) == BlockBytes(a, chunks) + BlockBytes(b, chunks)
  {
    if b == [] {
      assert a + b == a;
    } else {
      assert (a + b)[..|a + b| - 1] == a + b[..|b| - 1];
      FoldConcat(ops, a, b[..|b| - 1], chunks);
    }
  }

  lemma FoldSnoc(ops: seq<Op>, a: seq<Token>, t: Token, chunks: seq<ChunkSig>)
    ensures Emit(ops, a + [t], chunks) == EmitOne(Emit(ops, a, chunks), t, chunks)
    ensures ByteCount(a + [t]) == ByteCount(a) + if t.Byte? then 1 else 0
    ensures BlockBytes(a + [t], chunks)
         == BlockBytes(a, chunks) + if t.Block? && t.m < |chunks| then chunks[t.m].len else 0
  {
    assert (a + [t])[..|a|] == a;
  }

  lemma {:induction false} FoldLiterals(ops: seq<Op>, data: seq<byte>, chunks: seq<ChunkSig>)
    ensures Emit(ops, LiteralTokens(data), chunks) == LiteralPushed(ops, data)
    ensures ByteCount(LiteralTokens(data)) == |data|
    ensures BlockBytes(LiteralTokens(data), chunks) == 0
  {
    if data != [] {
      var front, last := data[..|data| - 1], data[|data| - 1];
      FoldLiterals(ops, front, chunks);
      assert LiteralTokens(data) == LiteralTokens(front) + [Byte(last)];
      FoldSnoc(ops, LiteralTokens(front), Byte(last), chunks);
      LiteralPushAssociative(ops, front, [last]);
      assert front + [last] == data;
    }
  }

  // ---- the literal run ----

  /** The scan's literal run: a fixed scratch flushed into the delta in bulk. */
  class LiteralRun {
    const scratch: array<byte>
    const delta: Delta
    var lit: nat

    constructor (delta: Delta)
      ensures this.delta == delta && fresh(scratch) && Valid() && lit == 0
      ensures Ops() == delta.ops
    {
      this.delta := delta;
      scratch := new byte[SCRATCH](_ => 0);
      lit := 0;
    }

    ghost predicate Valid()
      reads this
    {
      lit < scratch.Length == SCRATCH
    }

    /** The ops as they will stand once the run is flushed. */
    ghost function Ops(): seq<Op>
      requires Valid()
      reads this, scratch, delta
    {
      LiteralPushed(delta.ops, scratch[..lit])
    }

    method Add(b: byte)
      requires Valid()
      modifies this, scratch, delta`ops
      ensures Valid() && Ops() == LiteralPushed(old(Ops()), [b])
    {
      ghost var before := scratch[..lit];
      LiteralPushAssociative(delta.ops, before, [b]);
      scratch[lit] := b;
      lit := lit + 1;
      assert scratch[..lit] == before + [b];
      if lit == SCRATCH {
        delta.PushLiteral(scratch[..lit]);
        lit := 0;
      }
    }

    method Flush()
      requires Valid()
      modifies this, delta`ops
      ensures Valid() && lit == 0 && delta.ops == old(Ops()) && Ops() == delta.ops
    {
      if lit > 0 {
        delta.PushLiteral(scratch[..lit]);
        lit := 0;
      }
    }

    /** A verified match: flush the run, then push the copy. */
    method Copy(offset: nat, len: nat)
      requires Valid()
      modifies this, delta`ops
      ensures Valid() && lit == 0
      ensures delta.ops == Ops() == CopyPushed(old(Ops()), offset, len)
    {
      Flush();
      delta.PushCopy(offset, len);
      assert scratch[..lit] == [];
    }

    /** The unmatched last window: flush first when it does not fit behind the run. */
    method AddWindow(window: seq<byte>)
      requires Valid() && |window| <= SCRATCH
      modifies this, scratch, delta`ops
      ensures Valid() && lit == 0 && delta.ops == LiteralPushed(old(Ops()), window)
    {
      if lit + |window| > SCRATCH && lit > 0 {
        delta.PushLiteral(scratch[..lit]);
        lit := 0;
        assert scratch[..lit] == [];
      }
      assert Ops() == old(Ops());
      ghost var run := scratch[..lit];
      LiteralPushAssociative(delta.ops, run, window);
      var total := lit + |window|;
      forall i | 0 <= i < |window| {
        scratch[lit + i] := window[i];
      }
      assert scratch[..total] == run + window;
      delta.PushLiteral(scratch[..total]);
      lit := 0;
    }
  }

  // ---- the window lookup ----

  lemma {:induction false} EntryParts(chunks: seq<ChunkSig>, t: nat, g: Geometry)
    requires |chunks| <= 0xffff_ffff && g == GeometryOf(|chunks|)
    ensures var e := Entry(chunks, |chunks|, t, g); var i := LastIn(chunks, |chunks|, t, g);
      && (e == EMPTY <==> i < 0)
      && (i >= 0 ==> e % 0x1_0000_0000 == chunks[i].weak.value)
      && (i >= 0 ==> e / 0x1_0000_0000 % 0x1_0000 == if g.big then i % 0x1_0000 else i)
      && (i >= 0 ==> e / 0x1_0000_0000_0000 % 0x1_0000
                     == if g.big then i / 0x1_0000 else ShortLink(Previous(chunks, i, g)))
  {
    hide SlotOf, GeometryOf, LastIn;
    var i := LastIn(chunks, |chunks|, t, g);
    TraditionalCount(|chunks|);
    if i >= 0 {
      var weak := chunks[i].weak.value;
      if g.big {
        BigEntry(weak, i);
      } else {
        ShortEntry(weak, i, ShortLink(Previous(chunks, i, g)));
      }
    }
  }

  lemma BigEntry(weak: u32, i: nat)
    requires i < 0xffff_ffff
    ensures var e := PackedEntry(weak, i, 0);
      && e != EMPTY && e % 0x1_0000_0000 == weak
      && e / 0x1_0000_0000 % 0x1_0000 == i % 0x1_0000
      && e / 0x1_0000_0000_0000 % 0x1_0000 == i / 0x1_0000
  {
    UnpackBig(weak, i);
    assert i / 0x1_0000 < 0x1_0000;
  }

  lemma ShortEntry(weak: u32, i: nat, next: nat)
    requires i < 0xffff && next < 0x1_0000
    ensures var e := PackedEntry(weak, i, next);
      && e != EMPTY && e % 0x1_0000_0000 == weak
      && e / 0x1_0000_0000 % 0x1_0000 == i
      && e / 0x1_0000_0000_0000 % 0x1_0000 == next
  {
    Unpack(weak, i, next);
  }

  /** One probe of the scan: a single head load decides whether to walk at all. */
  method Lookup(
    chunks: seq<ChunkSig>, g: Geometry, head: array<nat>, chain: array<nat>, st: Bytes.u64, window: seq<byte>, h: Hash)
    returns (m: Option<nat>)
    requires |chunks| <= 0xffff_ffff && g == GeometryOf(|chunks|)
    requires Built(chunks, |chunks|, g, head[..], chain[..])
    requires Rollsum.StateMatches(st, window)
    ensures m == ScanFind(chunks, window, h)
  {
    hide SlotOf, GeometryOf, Entry, LastIn, Previous, Walk, Rollsum.StateValue, Rollsum.StateBucket,
      Rollsum.BucketTraditional, Rollsum.WeakValue;
    Rollsum.PackedValue(Rollsum.WeakS1(window), Rollsum.WeakS2(window));
    Rollsum.PackedBucket(Rollsum.WeakS1(window), Rollsum.WeakS2(window));
    Rollsum.BuildBucket(Rollsum.WeakS1(window), Rollsum.WeakS2(window));
    var sum := Rollsum.StateValue(st);
    SlotIsBucket(sum, g);
    var t := if g.big then sum % g.size else Rollsum.StateBucket(st);
    assert t == SlotOf(sum, g);
    var e := head[t];
    assert head[..][t] == Entry(chunks, |chunks|, t, g);
    EntryParts(chunks, t, g);
    ghost var i := LastIn(chunks, |chunks|, t, g);
    if e == EMPTY {
      return None;
    }
    var hweak := e % 0x1_0000_0000;
    var idx1 := e / 0x1_0000_0000 % 0x1_0000;
    var idx2 := e / 0x1_0000_0000_0000 % 0x1_0000;
    if hweak == sum || idx2 != 0xffff {
      m := ProbeBucket(chunks, idx1, chain, sum, |window|, window, h, g, head[..]);
    } else {
      m := None;
      if !g.big {
        TraditionalCount(|chunks|);
        SkipIsMiss(chunks, g, i, sum, |window|, h(window));
      }
    }
  }

  lemma SlotIsBucket(sum: u32, g: Geometry)
    requires g.size > 0
    ensures SlotOf(sum, g) == if g.big then sum % g.size else Rollsum.BucketOfWeak(sum)
  {
  }

  // ---- the region scan ----

  /** Where the loop stands: the tokens decided so far and the ones to come are
      the region's tokens, and the run plus the delta hold exactly the former. */
  ghost predicate Progress(
    chunks: seq<ChunkSig>, h: Hash, data: seq<byte>, from: nat, q: nat, end: nat, block: nat, done: seq<Token>)
    requires block > 0 && from + block <= end && q + block <= end <= |data|
  {
    var whole, rest := RegionScan(chunks, h, data, from, end, block), RegionScan(chunks, h, data, q, end, block);
    whole.tokens == done + rest.tokens && whole.next == rest.next
  }

  lemma Matches(
    chunks: seq<ChunkSig>, h: Hash, data: seq<byte>, from: nat, q: nat, end: nat, block: nat, done: seq<Token>, m: nat)
    requires block > 0 && from + block <= end && q + block <= end <= |data|
    requires Progress(chunks, h, data, from, q, end, block, done)
    requires ScanFind(chunks, data[q..q + block], h) == Some(m)
    ensures q + block + block <= end ==>
      Progress(chunks, h, data, from, q + block, end, block, done + [Block(m)])
    ensures q + block + block > end ==>
      RegionScan(chunks, h, data, from, end, block) == Scan(done + [Block(m)], q + block)
  {
    if q + block + block <= end {
      var rest := RegionScan(chunks, h, data, q + block, end, block);
      assert done + ([Block(m)] + rest.tokens) == done + [Block(m)] + rest.tokens;
    }
  }

  lemma Misses(
    chunks: seq<ChunkSig>, h: Hash, data: seq<byte>, from: nat, q: nat, end: nat, block: nat, done: seq<Token>)
    requires block > 0 && from + block <= end && q + block <= end <= |data|
    requires Progress(chunks, h, data, from, q, end, block, done)
    requires ScanFind(chunks, data[q..q + block], h) == None
    ensures q + block < end ==>
      Progress(chunks, h, data, from, q + 1, end, block, done + [Byte(data[q])])
    ensures q + block == end ==>
      RegionScan(chunks, h, data, from, end, block) == Scan(done + LiteralTokens(data[q..end]), end)
  {
    if q + block < end {
      var rest := RegionScan(chunks, h, data, q + 1, end, block);
      assert done + ([Byte(data[q])] + rest.tokens) == done + [Byte(data[q])] + rest.tokens;
    }
  }

  /** The loop state at region-relative position `q`: `ops`, `lits` and `matched`
      are those of the tokens decided so far. */
  ghost predicate Scanning(
    chunks: seq<ChunkSig>, h: Hash, data: seq<byte>, from: nat, region: seq<byte>, block: nat, ops0: seq<Op>,
    done: seq<Token>, q: nat, ops: seq<Op>, lits: nat, matched: nat)
  {
    && 0 < block && q + block <= |region| && from + |region| <= |data|
    && region == data[from..from + |region|]
    && Progress(chunks, h, data, from, from + q, from + |region|, block, done)
    && ops == Emit(ops0, done, chunks) && lits == ByteCount(done) && matched == BlockBytes(done, chunks)
  }

  /** The region's outcome according to the specification. */
  ghost predicate Finished(
    chunks: seq<ChunkSig>, h: Hash, data: seq<byte>, from: nat, region: seq<byte>, block: nat, ops0: seq<Op>,
    q: nat, ops: seq<Op>, lits: nat, matched: nat)
    requires 0 < block <= |region| && from + |region| <= |data|
  {
    var s := RegionScan(chunks, h, data, from, from + |region|, block);
    && ops == Emit(ops0, s.tokens, chunks) && lits == ByteCount(s.tokens)
    && matched == BlockBytes(s.tokens, chunks) && from + q == s.next
  }

  lemma Begin(
    chunks: seq<ChunkSig>, h: Hash, data: seq<byte>, from: nat, region: seq<byte>, block: nat, ops0: seq<Op>)
    requires 0 < block <= |region| && from + |region| <= |data| && region == data[from..from + |region|]
    ensures Scanning(chunks, h, data, from, region, block, ops0, [], 0, ops0, 0, 0)
  {
    var whole := RegionScan(chunks, h, data, from, from + |region|, block);
    assert whole.tokens == [] + whole.tokens;
  }

  /** The tokens still to come only add literal bytes. */
  lemma BudgetMonotone(
    chunks: seq<ChunkSig>, h: Hash, data: seq<byte>, from: nat, q: nat, end: nat, block: nat, done: seq<Token>)
    requires block > 0 && from + block <= end && q + block <= end <= |data|
    requires Progress(chunks, h, data, from, q, end, block, done)
    ensures ByteCount(RegionScan(chunks, h, data, from, end, block).tokens) >= ByteCount(done)
  {
    hide RegionScan;
    FoldConcat([], done, RegionScan(chunks, h, data, q, end, block).tokens, chunks);
  }

  lemma SubSlice(data: seq<byte>, from: nat, region: seq<byte>, q: nat, n: nat)
    requires from + |region| <= |data| && region == data[from..from + |region|] && q + n <= |region|
    ensures region[q..q + n] == data[from + q..from + q + n]
    ensures n > 0 ==> region[q] == data[from + q]
  {
    var a, b := region[q..q + n], data[from + q..from + q + n];
    forall i | 0 <= i < n
      ensures a[i] == b[i]
    {
      assert region[q + i] == data[from + (q + i)];
    }
  }

  lemma OnMatch(
    chunks: seq<ChunkSig>, h: Hash, data: seq<byte>, from: nat, region: seq<byte>, block: nat, ops0: seq<Op>,
    done: seq<Token>, q: nat, ops: seq<Op>, lits: nat, matched: nat, m: nat)
    requires Scanning(chunks, h, data, from, region, block, ops0, done, q, ops, lits, matched)
    requires ScanFind(chunks, region[q..q + block], h) == Some(m)
    ensures m < |chunks| && chunks[m].len == block
    ensures var ops' := CopyPushed(ops, chunks[m].offset, chunks[m].len); var q' := q + block;
      if q' + block <= |region|
      then Scanning(chunks, h, data, from, region, block, ops0, done + [Block(m)], q', ops', lits, matched + block)
      else Finished(chunks, h, data, from, region, block, ops0, q', ops', lits, matched + block)
  {
    hide ScanFind, RegionScan, Progress;
    SubSlice(data, from, region, q, block);
    FindsSound(chunks, region[q..q + block], h);
    Matches(chunks, h, data, from, from + q, from + |region|, block, done, m);
    FoldSnoc(ops0, done, Block(m), chunks);
  }

  lemma OnMiss(
    chunks: seq<ChunkSig>, h: Hash, data: seq<byte>, from: nat, region: seq<byte>, block: nat, ops0: seq<Op>,
    done: seq<Token>, q: nat, ops: seq<Op>, lits: nat, matched: nat)
    requires Scanning(chunks, h, data, from, region, block, ops0, done, q, ops, lits, matched)
    requires q + block < |region| && ScanFind(chunks, region[q..q + block], h) == None
    ensures Scanning(chunks, h, data, from, region, block, ops0, done + [Byte(region[q])], q + 1,
                     LiteralPushed(ops, [region[q]]), lits + 1, matched)
    ensures lits + 1 <= ByteCount(RegionScan(chunks, h, data, from, from + |region|, block).tokens)
  {
    hide ScanFind, RegionScan, Progress;
    SubSlice(data, from, region, q, block);
    Misses(chunks, h, data, from, from + q, from + |region|, block, done);
    FoldSnoc(ops0, done, Byte(region[q]), chunks);
    BudgetMonotone(chunks, h, data, from, from + q + 1, from + |region|, block, done + [Byte(region[q])]);
  }

  lemma OnLastMiss(
    chunks: seq<ChunkSig>, h: Hash, data: seq<byte>, from: nat, region: seq<byte>, block: nat, ops0: seq<Op>,
    done: seq<Token>, q: nat, ops: seq<Op>, lits: nat, matched: nat)
    requires Scanning(chunks, h, data, from, region, block, ops0, done, q, ops, lits, matched)
    requires q + block == |region| && ScanFind(chunks, region[q..q + block], h) == None
    ensures Finished(chunks, h, data, from, region, block, ops0, |region|,
                     LiteralPushed(ops, region[q..]), lits + block, matched)
  {
    hide ScanFind, RegionScan, Progress;
    var window := region[q..];
    assert window == region[q..q + block] == data[from + q..from + |region|];
    Misses(chunks, h, data, from, from + q, from + |region|, block, done);
    FoldConcat(ops0, done, LiteralTokens(window), chunks);
    FoldLiterals(ops, window, chunks);
  }

  lemma Rolled(region: seq<byte>, q: nat, block: nat, st: Bytes.u64)
    requires 0 < block <= SCRATCH && q + block < |region|
    requires Rollsum.StateMatches(st, region[q..q + block])
    ensures Rollsum.StateMatches(
      Rollsum.StateRoll(st, block, region[q], region[q + block]), region[q + 1..q + 1 + block])
  {
    hide Rollsum.StateRoll, Rollsum.StateMatches;
    var w := region[q..q + block];
    Rollsum.RollKeepsState(st, w, region[q + block]);
    assert w[1..] + [region[q + block]] == region[q + 1..q + 1 + block];
  }

  /** Scan one buffered region. The ops it leaves in the delta, the position it
      stops at and both counters are those of the specification's tokens; it
      fails exactly when the region alone exceeds the literal budget. */
  method ScanRegion(
    region: seq<byte>, block: nat, chunks: seq<ChunkSig>, g: Geometry, head: array<nat>, chain: array<nat>,
    delta: Delta, maxLiteral: nat, h: Hash, ghost data: seq<byte>, ghost from: nat)
    returns (r: Result<(nat, seq<byte>, nat, nat), DeltaError>)
    requires 0 < block <= SCRATCH && block <= |region|
    requires from + |region| <= |data| && region == data[from..from + |region|]
    requires |chunks| <= 0xffff_ffff && g == GeometryOf(|chunks|)
    requires Built(chunks, |chunks|, g, head[..], chain[..])
    modifies delta`ops
    ensures var s := RegionScan(chunks, h, data, from, from + |region|, block);
      && (r.Ok? <==> ByteCount(s.tokens) <= maxLiteral)
      && (r.Err? ==> r.error == LiteralBudgetExceeded(maxLiteral))
      && (r.Ok? ==> r.value == (s.next - from, [], ByteCount(s.tokens), BlockBytes(s.tokens, chunks)))
      && (r.Ok? ==> delta.ops == Emit(old(delta.ops), s.tokens, chunks))
  {
    hide Built, ScanFind, GeometryOf, RegionScan, Scanning, Rollsum.StateRoll, Rollsum.StateMatches,
      LiteralPushed, CopyPushed, Emit, ByteCount, BlockBytes;
    ghost var ops0 := delta.ops;
    var run := new LiteralRun(delta);
    var literalBytes: nat, matched: nat, q: nat := 0, 0, 0;
    ghost var done: seq<Token> := [];
    Begin(chunks, h, data, from, region, block, ops0);
    var st := FreshState(region[q..q + block]);
    while true
      invariant q + block <= |region|
      invariant run.Valid() && run.delta == delta && fresh(run) && fresh(run.scratch)
      invariant Rollsum.StateMatches(st, region[q..q + block])
      invariant Scanning(chunks, h, data, from, region, block, ops0, done, q, run.Ops(), literalBytes, matched)
      invariant literalBytes <= maxLiteral
      decreases |region| - q
    {
      var m := Lookup(chunks, g, head, chain, st, region[q..q + block], h);
      if m.Some? {
        OnMatch(chunks, h, data, from, region, block, ops0, done, q, run.Ops(), literalBytes, matched, m.value);
        var c := chunks[m.value];
        run.Copy(c.offset, c.len);
        matched := matched + c.len;
        done := done + [Block(m.value)];
        q := q + block;
        if q + block > |region| {
          return Ok((q, run.scratch[..run.lit], literalBytes, matched));
        }
        st := FreshState(region[q..q + block]);
      } else if q + block >= |region| {
        OnLastMiss(chunks, h, data, from, region, block, ops0, done, q, run.Ops(), literalBytes, matched);
        run.AddWindow(region[q..]);
        literalBytes := literalBytes + block;
        if literalBytes > maxLiteral {
          return Err(LiteralBudgetExceeded(maxLiteral));
        }
        return Ok((|region|, [], literalBytes, matched));
      } else {
        OnMiss(chunks, h, data, from, region, block, ops0, done, q, run.Ops(), literalBytes, matched);
        Rolled(region, q, block, st);
        st := Rollsum.StateRoll(st, block, region[q], region[q + block]);
        run.Add(region[q]);
        done := done + [Byte(region[q])];
        literalBytes := literalBytes + 1;
        if literalBytes > maxLiteral {
          return Err(LiteralBudgetExceeded(maxLiteral));
        }
        q := q + 1;
      }
    }
  }

  method FreshState(window: seq<byte>) returns (st: Bytes.u64)
    ensures Rollsum.StateMatches(st, window)
  {
    var s1, s2 := Rollsum.WeakInit(window);
    st := Rollsum.StatePack(s1, s2);
  }
}
