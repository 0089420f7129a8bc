/** The content-defined-chunk engine: chunk pipeline, one-pass delta, and the split
    form (sign the source, then match signatures). */
module Cdc {
  import opened Bytes
  import opened Reader
  import opened DeltaOps
  import opened Signatures
  import opened RollsumDelta
  import opened Patch

  const READ_CHUNK: nat := 1024 * 1024

  datatype Chunk = Chunk(start: nat, data: seq<byte>)

  /** FastCDC, uninterpreted: the lengths of the complete chunks cut from the bytes
      pushed so far. */
  type Cutter = seq<byte> -> seq<nat>

  function Total(lens: seq<nat>): nat {
    if lens == [] then 0 else Total(lens[..|lens| - 1]) + lens[|lens| - 1]
  }

  /** The only facts used about the chunker: chunks are not empty, cuts lie within
      the bytes pushed, and pushing more bytes never moves an earlier cut. */
  ghost predicate Streaming(cut: Cutter) {
    && (forall a, i | 0 <= i < |cut(a)| :: cut(a)[i] > 0)
    && (forall a :: Total(cut(a)) <= |a|)
    && (forall a, b :: a <= b ==> cut(a) <= cut(b))
  }

  // ---- specification of the chunk list ----

  function ChunkList(data: seq<byte>, lens: seq<nat>): (r: seq<Chunk>)
    requires Total(lens) <= |data|
    ensures |r| == |lens|
  {
    if lens == [] then []
    else
      var front := lens[..|lens| - 1];
      ChunkList(data, front) + [Chunk(Total(front), data[Total(front)..Total(lens)])]
  }

  function Rest(data: seq<byte>, from: nat): seq<Chunk>
    requires from <= |data|
  {
    if from < |data| then [Chunk(from, data[from..])] else []
  }

  /** All chunks of a file: the complete ones, then the unfinished rest. */
  function Chunks(data: seq<byte>, cut: Cutter): seq<Chunk>
    requires Total(cut(data)) <= |data|
  {
    ChunkList(data, cut(data)) + Rest(data, Total(cut(data)))
  }

  lemma {:induction false} ChunkListGrows(a: seq<byte>, b: seq<byte>, lens: seq<nat>, more: seq<nat>)
    requires a <= b && lens <= more && Total(lens) <= |a| && Total(more) <= |b|
    ensures ChunkList(a, lens) == ChunkList(b, more)[..|lens|]
    decreases |more|
  {
    if lens == more {
      if lens != [] {
        var front := lens[..|lens| - 1];
        ChunkListGrows(a, b, front, front);
        assert b[Total(front)..Total(lens)] == a[Total(front)..Total(lens)];
      }
    } else {
      var front := more[..|more| - 1];
      ChunkListGrows(a, b, lens, front);
    }
  }

  /** The chunks tile the file: concatenated in order they are its bytes. */
  function Joined(chunks: seq<Chunk>): seq<byte> {
    if chunks == [] then [] else Joined(chunks[..|chunks| - 1]) + chunks[|chunks| - 1].data
  }

  lemma {:induction false} ChunkListJoins(data: seq<byte>, lens: seq<nat>)
    requires Total(lens) <= |data|
    ensures Joined(ChunkList(data, lens)) == data[..Total(lens)]
  {
    if lens != [] {
      var front := lens[..|lens| - 1];
      ChunkListJoins(data, front);
      assert ChunkList(data, lens)[..|lens| - 1] == ChunkList(data, front);
    }
  }

  lemma ChunksTile(data: seq<byte>, cut: Cutter)
    requires Total(cut(data)) <= |data|
    ensures Joined(Chunks(data, cut)) == data
  {
    var from := Total(cut(data));
    ChunkListJoins(data, cut(data));
    var done := ChunkList(data, cut(data));
    if from < |data| {
      assert (done + [Chunk(from, data[from..])])[..|done|] == done;
    } else {
      assert done + [] == done;
    }
  }

  lemma {:induction false} ChunkListInPlace(data: seq<byte>, lens: seq<nat>)
    requires Total(lens) <= |data|
    ensures InPlace(ChunkList(data, lens), data)
  {
    if lens != [] {
      ChunkListInPlace(data, lens[..|lens| - 1]);
    }
  }

  /** Every chunk is the stretch of the file its start and length announce. */
  lemma ChunksInPlace(data: seq<byte>, cut: Cutter)
    requires Total(cut(data)) <= |data|
    ensures InPlace(Chunks(data, cut), data)
  {
    ChunkListInPlace(data, cut(data));
  }

  lemma CutGrows(cut: Cutter, a: seq<byte>, b: seq<byte>)
    requires Streaming(cut) && a <= b
    ensures Total(cut(a)) <= |a| && Total(cut(b)) <= |b| && cut(a) <= cut(b)
  {
    hide Total;
  }

  lemma TakeDrop(s: seq<Chunk>, n: nat)
    requires n <= |s|
    ensures s[..n] + s[n..] == s
  {
  }

  lemma {:induction false} Grows(cut: Cutter, a: seq<byte>, more: seq<byte>)
    requires Streaming(cut)
    ensures Total(cut(a)) <= |a| && Total(cut(a + more)) <= |a + more| && |cut(a)| <= |cut(a + more)|
    ensures ChunkList(a, cut(a)) + ChunkList(a + more, cut(a + more))[|cut(a)|..]
         == ChunkList(a + more, cut(a + more))
  {
    hide *;
    var b := a + more;
    CutGrows(cut, a, b);
    ChunkListGrows(a, b, cut(a), cut(b));
    TakeDrop(ChunkList(b, cut(b)), |cut(a)|);
  }

  ghost predicate InPlace(chunks: seq<Chunk>, data: seq<byte>) {
    forall i | 0 <= i < |chunks| :: Places(chunks[i], data)
  }

  predicate Places(c: Chunk, data: seq<byte>) {
    c.start + |c.data| <= |data| && c.data == Slice(data, c.start, |c.data|)
  }

  // ---- the chunk pipeline ----

  class Chunker {
    const cut: Cutter
    var pushed: seq<byte>
    var emitted: nat

    ghost predicate Valid()
      reads this
    {
      Streaming(cut) && emitted == |cut(pushed)|
    }

    constructor (cut: Cutter)
      requires Streaming(cut)
      ensures this.cut == cut && pushed == [] && Valid()
    {
      this.cut, pushed, emitted := cut, [], |cut([])|;
    }

    /** Scan one more buffer: the chunks it completes. */
    method PushScan(bytes: seq<byte>) returns (chunks: seq<Chunk>)
      requires Valid()
      modifies this
      ensures Valid() && pushed == old(pushed) + bytes
      ensures ChunkList(old(pushed), cut(old(pushed))) + chunks == ChunkList(pushed, cut(pushed))
    {
      Grows(cut, pushed, bytes);
      pushed := pushed + bytes;
      chunks := ChunkList(pushed, cut(pushed))[emitted..];
      emitted := |cut(pushed)|;
    }

    method Finish() returns (chunks: seq<Chunk>)
      requires Valid()
      ensures chunks == Rest(pushed, Total(cut(pushed)))
    {
      var from := Total(cut(pushed));
      chunks := if from < |pushed| then [Chunk(from, pushed[from..])] else [];
    }
  }

  /** The pipeline emits each batch one scan late, and still emits exactly the
      file's chunks in order, for every read splitting. */
  method ForEachChunk(source: Source, cut: Cutter) returns (r: Result<(seq<Chunk>, nat), DeltaError>)
    requires source.Valid() && source.pos == 0 && Streaming(cut)
    modifies source
    ensures r.Err? ==> r.error == Chunking
    ensures NoFailure(source.schedule) ==> r.Ok?
    ensures r.Ok? ==> r.value == (Chunks(source.data, cut), |source.data|)
  {
    EmptyCut(cut);
    var chunker := new Chunker(cut);
    var emitted: seq<Chunk> := [];
    var total: nat := 0;
    var inFlight: seq<Chunk> := [];
    while true
      invariant source.Valid() && fresh(chunker) && chunker.Valid() && chunker.cut == cut
      invariant total == source.pos && chunker.pushed == source.data[..source.pos]
      invariant emitted + inFlight == ChunkList(chunker.pushed, cut(chunker.pushed))
      decreases |source.data| - source.pos
    {
      ghost var before := source.pos;
      var got := source.Fill(READ_CHUNK);
      if got.Err? {
        return Err(Chunking);
      }
      if |got.value| == 0 {
        break;
      }
      Adjacent(source.data, 0, before, source.pos);
      total := total + |got.value|;
      var chunks := chunker.PushScan(got.value);
      emitted := emitted + inFlight;
      inFlight := chunks;
    }
    assert source.data[..source.pos] == source.data;
    emitted := emitted + inFlight;
    var last := chunker.Finish();
    emitted := emitted + last;
    return Ok((emitted, total));
  }

  lemma EmptyCut(cut: Cutter)
    requires Streaming(cut)
    ensures cut([]) == []
  {
    PositiveTotal(cut([]));
  }

  lemma PositiveTotal(lens: seq<nat>)
    requires forall i | 0 <= i < |lens| :: lens[i] > 0
    ensures lens != [] ==> Total(lens) > 0
  {
  }

  // ---- signatures and their lookup table ----

  function SigOf(c: Chunk, h: Hash): ChunkSig {
    ChunkSig(c.start, |c.data|, None, h(c.data))
  }

  function SigsOf(chunks: seq<Chunk>, h: Hash): (r: seq<ChunkSig>)
    ensures |r| == |chunks|
    ensures forall i | 0 <= i < |r| :: r[i] == SigOf(chunks[i], h)
  {
    seq(|chunks|, i requires 0 <= i < |chunks| => SigOf(chunks[i], h))
  }

  /** `Signature::generate`: the basis signature the receiver sends. */
  method GenerateSignature(source: Source, cut: Cutter, h: Hash) returns (r: Result<Signature, DeltaError>)
    requires source.Valid() && source.pos == 0 && Streaming(cut)
    modifies source
    ensures r.Ok? ==> r.value == Signature(|source.data|, SigsOf(Chunks(source.data, cut), h))
    ensures r.Err? ==> r.error == Chunking
    ensures NoFailure(source.schedule) ==> r.Ok?
  {
    var chunked := ForEachChunk(source, cut);
    if chunked.Err? {
      return Err(chunked.error);
    }
    return Ok(Signature(chunked.value.1, SigsOf(chunked.value.0, h)));
  }

  /** The first basis chunk with a digest. */
  function FirstWith(chunks: seq<ChunkSig>, n: nat, digest: Digest): Option<nat>
    requires n <= |chunks|
  {
    if n == 0 then None
    else
      var earlier := FirstWith(chunks, n - 1, digest);
      if earlier.None? && chunks[n - 1].strong == digest then Some(n - 1) else earlier
  }

  lemma {:induction false} FirstWithSound(chunks: seq<ChunkSig>, n: nat, digest: Digest)
    requires n <= |chunks|
    ensures var r := FirstWith(chunks, n, digest);
      && (r.Some? ==> r.value < n && chunks[r.value].strong == digest)
      && (r.Some? ==> forall i | 0 <= i < r.value :: chunks[i].strong != digest)
      && (r.None? ==> forall i | 0 <= i < n :: chunks[i].strong != digest)
  {
    if n > 0 {
      FirstWithSound(chunks, n - 1, digest);
    }
  }

  datatype Table = Table(byHash: map<Digest, nat>, chunks: seq<ChunkSig>)

  ghost predicate TableOf(byHash: map<Digest, nat>, chunks: seq<ChunkSig>, n: nat)
    requires n <= |chunks|
  {
    forall d :: FirstWith(chunks, n, d) == if d in byHash then Some(byHash[d]) else None
  }

  method TableFromSignature(sig: Signature) returns (t: Table)
    ensures t.chunks == sig.chunks && TableOf(t.byHash, t.chunks, |t.chunks|)
    ensures forall d :: d in t.byHash <==> exists i | 0 <= i < |sig.chunks| :: sig.chunks[i].strong == d
    ensures forall d | d in t.byHash :: t.byHash[d] < |sig.chunks| && sig.chunks[t.byHash[d]].strong == d
    ensures forall d, i | d in t.byHash && 0 <= i < t.byHash[d] && i < |sig.chunks| :: sig.chunks[i].strong != d
  {
    var byHash: map<Digest, nat> := map[];
    for i := 0 to |sig.chunks|
      invariant TableOf(byHash, sig.chunks, i)
    {
      if sig.chunks[i].strong !in byHash {
        byHash := byHash[sig.chunks[i].strong := i];
      }
    }
    t := Table(byHash, sig.chunks);
    forall d
      ensures d in byHash <==> exists i | 0 <= i < |sig.chunks| :: sig.chunks[i].strong == d
      ensures d in byHash ==> byHash[d] < |sig.chunks| && sig.chunks[byHash[d]].strong == d
      ensures d in byHash ==> forall i | 0 <= i < byHash[d] :: sig.chunks[i].strong != d
    {
      FirstWithSound(sig.chunks, |sig.chunks|, d);
    }
  }

  function Lookup(t: Table, digest: Digest): Option<nat> {
    if digest in t.byHash then Some(t.byHash[digest]) else None
  }

  // ---- specification of the delta ----

  function ChunkOp(ops: seq<Op>, c: Chunk, basis: seq<ChunkSig>, h: Hash): seq<Op> {
    var m := FirstWith(basis, |basis|, h(c.data));
    if m.Some? && m.value < |basis| then CopyPushed(ops, basis[m.value].offset, basis[m.value].len)
    else LiteralPushed(ops, c.data)
  }

  function CdcOps(chunks: seq<Chunk>, basis: seq<ChunkSig>, h: Hash): seq<Op> {
    if chunks == [] then []
    else ChunkOp(CdcOps(chunks[..|chunks| - 1], basis, h), chunks[|chunks| - 1], basis, h)
  }

  function MissBytes(c: Chunk, basis: seq<ChunkSig>, h: Hash): nat {
    if FirstWith(basis, |basis|, h(c.data)).Some? then 0 else |c.data|
  }

  /** The bytes of the chunks no basis chunk matches. */
  function Unmatched(chunks: seq<Chunk>, basis: seq<ChunkSig>, h: Hash): nat {
    if chunks == [] then 0
    else Unmatched(chunks[..|chunks| - 1], basis, h) + MissBytes(chunks[|chunks| - 1], basis, h)
  }

  lemma {:induction false} CdcStep(chunks: seq<Chunk>, basis: seq<ChunkSig>, h: Hash, i: nat)
    requires i < |chunks|
    ensures CdcOps(chunks[..i + 1], basis, h) == ChunkOp(CdcOps(chunks[..i], basis, h), chunks[i], basis, h)
    ensures Unmatched(chunks[..i + 1], basis, h) == Unmatched(chunks[..i], basis, h) + MissBytes(chunks[i], basis, h)
  {
    assert chunks[..i + 1][..i] == chunks[..i];
  }

  lemma {:induction false} UnmatchedGrows(chunks: seq<Chunk>, basis: seq<ChunkSig>, h: Hash, i: nat)
    requires i <= |chunks|
    ensures Unmatched(chunks[..i], basis, h) <= Unmatched(chunks, basis, h)
    decreases |chunks| - i
  {
    if i < |chunks| {
      CdcStep(chunks, basis, h, i);
      UnmatchedGrows(chunks, basis, h, i + 1);
    } else {
      assert chunks[..i] == chunks;
    }
  }

  /** Against an empty basis the chunked ops are one literal. */
  lemma {:induction false} NothingMatches(chunks: seq<Chunk>, h: Hash)
    ensures CdcOps(chunks, [], h) == LiteralPushed([], Joined(chunks))
    ensures Unmatched(chunks, [], h) == |Joined(chunks)|
  {
    if chunks != [] {
      var front := chunks[..|chunks| - 1];
      NothingMatches(front, h);
      LiteralPushAssociative([], Joined(front), chunks[|chunks| - 1].data);
    }
  }

  /** The ops are in wire form: copies fit 32 bits, and are joined wherever that fits. */
  lemma {:induction false} CdcPacked(chunks: seq<Chunk>, basis: seq<ChunkSig>, h: Hash)
    requires Slim(basis)
    ensures Packed(CdcOps(chunks, basis, h))
  {
    if chunks != [] {
      hide Packed, FirstWith;
      var ops, c := CdcOps(chunks[..|chunks| - 1], basis, h), chunks[|chunks| - 1];
      CdcPacked(chunks[..|chunks| - 1], basis, h);
      var m := FirstWith(basis, |basis|, h(c.data));
      if m.Some? && m.value < |basis| {
        PushesStayPacked(ops, basis[m.value].offset, basis[m.value].len, []);
      } else {
        PushesStayPacked(ops, 0, 0, c.data);
      }
    }
  }

  // ---- the one-pass engine ----

  /** One-pass delta: succeeds exactly when the unmatched bytes fit the budget, with
      the ops of the file's chunks, whichever path (chunked or streaming) ran. */
  method ComputeDeltaLimited(
    source: Source, sig: Signature, maxLiteral: nat, verify: bool, h: Hash, cut: Cutter)
    returns (r: Result<Delta, DeltaError>, sigOut: seq<ChunkSig>)
    requires source.Valid() && source.pos == 0 && Streaming(cut)
    modifies source
    ensures r.Ok? ==> fresh(r.value) && r.value.basisSize == sig.fileSize
    ensures r.Ok? ==> r.value.checksum == Checksum(verify, h, source.data)
    ensures r.Err? ==> r.error == Chunking || r.error == LiteralBudgetExceeded(maxLiteral)
    ensures NoFailure(source.schedule) && r.Err? ==> r.error != Chunking
    ensures r.Ok? && verify ==> r.value.checksum == Some(h(source.data))
    ensures r.Ok? && Slim(sig.chunks) ==> Packed(r.value.ops)
    ensures var chunks := Chunks(source.data, cut);
      && (r.Ok? ==> Unmatched(chunks, sig.chunks, h) <= maxLiteral)
      && (r.Ok? ==> r.value.ops == CdcOps(chunks, sig.chunks, h) && r.value.sourceSize == |source.data|)
      && (r.Ok? && sig.chunks != [] ==> sigOut == SigsOf(chunks, h))
      && (r.Err? && r.error != Chunking ==> Unmatched(chunks, sig.chunks, h) > maxLiteral)
  {
    hide Packed;
    sigOut := [];
    ChunksTile(source.data, cut);
    if Slim(sig.chunks) {
      CdcPacked(Chunks(source.data, cut), sig.chunks, h);
    }
    if |sig.chunks| == 0 {
      NothingMatches(Chunks(source.data, cut), h);
      r := StreamAllLiteral(source, READ_CHUNK, sig.fileSize, maxLiteral, verify, h);
      return;
    }
    var table := TableFromSignature(sig);
    var chunked := ForEachChunk(source, cut);
    if chunked.Err? {
      r := Err(chunked.error);
      return;
    }
    r, sigOut := MatchChunks(chunked.value.0, table, sig, maxLiteral, verify, h);
    if r.Ok? {
      r.value.sourceSize := chunked.value.1;
    }
  }

  /** The per-chunk callback, over the emitted chunks in order. */
  method MatchChunks(chunks: seq<Chunk>, table: Table, sig: Signature, maxLiteral: nat, verify: bool, h: Hash)
    returns (r: Result<Delta, DeltaError>, sigOut: seq<ChunkSig>)
    requires table.chunks == sig.chunks && TableOf(table.byHash, table.chunks, |table.chunks|)
    ensures r.Ok? ==> fresh(r.value) && r.value.basisSize == sig.fileSize
    ensures r.Ok? ==> r.value.checksum == Checksum(verify, h, Joined(chunks))
    ensures r.Ok? <==> Unmatched(chunks, sig.chunks, h) <= maxLiteral
    ensures r.Ok? ==> r.value.ops == CdcOps(chunks, sig.chunks, h) && sigOut == SigsOf(chunks, h)
    ensures r.Err? ==> r.error == LiteralBudgetExceeded(maxLiteral)
  {
    hide CdcOps, Unmatched, FirstWith;
    var delta := new Delta(0, sig.fileSize);
    var fed: seq<byte> := [];
    var literalBytes: nat := 0;
    sigOut := [];
    NoChunks(chunks, sig.chunks, h);
    for i := 0 to |chunks|
      invariant fresh(delta) && delta.basisSize == sig.fileSize
      invariant delta.ops == CdcOps(chunks[..i], sig.chunks, h)
      invariant literalBytes == Unmatched(chunks[..i], sig.chunks, h) && literalBytes <= maxLiteral
      invariant fed == Joined(chunks[..i])
      invariant sigOut == SigsOf(chunks, h)[..i]
    {
      var c := chunks[i];
      CdcStep(chunks, sig.chunks, h, i);
      UnmatchedGrows(chunks, sig.chunks, h, i + 1);
      assert chunks[..i + 1][..i] == chunks[..i];
      var n := PushChunkOp(delta, table, c, h(c.data));
      literalBytes := literalBytes + n;
      fed := fed + c.data;
      sigOut := sigOut + [SigOf(c, h)];
      if literalBytes > maxLiteral {
        return Err(LiteralBudgetExceeded(maxLiteral)), sigOut;
      }
    }
    assert chunks[..|chunks|] == chunks;
    delta.checksum := if verify then Some(h(fed)) else None;
    return Ok(delta), sigOut;
  }

  lemma NoChunks(chunks: seq<Chunk>, basis: seq<ChunkSig>, h: Hash)
    ensures CdcOps(chunks[..0], basis, h) == [] && Unmatched(chunks[..0], basis, h) == 0
  {
  }

  /** One chunk: a copy of the matching basis chunk, or its bytes. */
  method PushChunkOp(delta: Delta, table: Table, c: Chunk, digest: Digest) returns (literal: nat)
    requires TableOf(table.byHash, table.chunks, |table.chunks|)
    modifies delta`ops
    ensures forall h: Hash | h(c.data) == digest ::
      delta.ops == ChunkOp(old(delta.ops), c, table.chunks, h) && literal == MissBytes(c, table.chunks, h)
  {
    var m := Lookup(table, digest);
    assert m == FirstWith(table.chunks, |table.chunks|, digest);
    FirstWithSound(table.chunks, |table.chunks|, digest);
    if m.Some? {
      delta.PushCopy(table.chunks[m.value].offset, table.chunks[m.value].len);
      literal := 0;
    } else {
      delta.PushLiteral(c.data);
      literal := |c.data|;
    }
  }

  // ---- the split engine ----

  method SignSource(source: Source, verify: bool, cut: Cutter, h: Hash)
    returns (r: Result<(Signature, Option<Digest>), DeltaError>)
    requires source.Valid() && source.pos == 0 && Streaming(cut)
    modifies source
    ensures r.Err? ==> r.error == Chunking
    ensures NoFailure(source.schedule) ==> r.Ok?
    ensures r.Ok? ==> r.value.0 == Signature(|source.data|, SigsOf(Chunks(source.data, cut), h))
    ensures r.Ok? ==> r.value.1 == Checksum(verify, h, source.data)
  {
    var chunked := ForEachChunk(source, cut);
    if chunked.Err? {
      return Err(chunked.error);
    }
    ChunksTile(source.data, cut);
    var sigs, checksum := SignChunks(chunked.value.0, verify, h);
    return Ok((Signature(chunked.value.1, sigs), checksum));
  }

  method SignChunks(chunks: seq<Chunk>, verify: bool, h: Hash)
    returns (sigs: seq<ChunkSig>, checksum: Option<Digest>)
    ensures sigs == SigsOf(chunks, h) && checksum == Checksum(verify, h, Joined(chunks))
  {
    var fed: seq<byte> := [];
    sigs := [];
    for i := 0 to |chunks|
      invariant fed == Joined(chunks[..i]) && sigs == SigsOf(chunks, h)[..i]
    {
      assert chunks[..i + 1][..i] == chunks[..i];
      fed := fed + chunks[i].data;
      sigs := sigs + [SigOf(chunks[i], h)];
    }
    assert chunks[..|chunks|] == chunks;
    checksum := if verify then Some(h(fed)) else None;
  }

  /** The matching half, re-reading only the literal chunks from the source. Over
      the source's own signature it computes the ops of the source's chunks. */
  method ComputeDeltaFromSignatures(
    source: BasisFile, basis: Signature, sourceSig: Signature, maxLiteral: nat, ghost chunks: seq<Chunk>, ghost h: Hash)
    returns (r: Result<Delta, DeltaError>)
    requires sourceSig.chunks == SigsOf(chunks, h)
    requires InPlace(chunks, source.data)
    modifies source
    ensures r.Ok? <==> Unmatched(chunks, basis.chunks, h) <= maxLiteral
    ensures r.Ok? ==> fresh(r.value) && r.value.basisSize == basis.fileSize && r.value.sourceSize == sourceSig.fileSize
    ensures r.Ok? ==> r.value.ops == CdcOps(chunks, basis.chunks, h) && r.value.checksum == None
    ensures r.Err? ==> r.error == LiteralBudgetExceeded(maxLiteral)
  {
    hide CdcOps, Unmatched, FirstWith;
    assert forall i | 0 <= i < |chunks| :: Places(chunks[i], source.data);
    var table := TableFromSignature(basis);
    var delta := new Delta(0, basis.fileSize);
    var literalBytes: nat := 0;
    NoChunks(chunks, basis.chunks, h);
    for i := 0 to |sourceSig.chunks|
      invariant fresh(delta) && delta.basisSize == basis.fileSize && delta.checksum == None
      invariant delta.ops == CdcOps(chunks[..i], basis.chunks, h)
      invariant literalBytes == Unmatched(chunks[..i], basis.chunks, h) && literalBytes <= maxLiteral
    {
      var c := sourceSig.chunks[i];
      assert c == SigOf(chunks[i], h);
      CdcStep(chunks, basis.chunks, h, i);
      UnmatchedGrows(chunks, basis.chunks, h, i + 1);
      var m := Lookup(table, c.strong);
      assert m == FirstWith(basis.chunks, |basis.chunks|, c.strong);
      FirstWithSound(basis.chunks, |basis.chunks|, c.strong);
      if m.Some? {
        delta.PushCopy(basis.chunks[m.value].offset, basis.chunks[m.value].len);
      } else {
        literalBytes := literalBytes + c.len;
        if literalBytes > maxLiteral {
          return Err(LiteralBudgetExceeded(maxLiteral));
        }
        source.Seek(c.offset);
        var buf := source.ReadExact(c.len);
        delta.PushLiteral(buf.value);
      }
    }
    assert chunks[..|chunks|] == chunks;
    delta.sourceSize := sourceSig.fileSize;
    return Ok(delta);
  }

  // ---- the two engines agree ----

  /** Everything that can be compared about two delta computations. */
  predicate SameOutcome(a: Result<Delta, DeltaError>, b: Result<Delta, DeltaError>)
    reads if a.Ok? then {a.value} else {}, if b.Ok? then {b.value} else {}
  {
    && a.Ok? == b.Ok?
    && (a.Err? && b.Err? ==> a.error == b.error)
    && (a.Ok? && b.Ok? ==>
          a.value.ops == b.value.ops && a.value.sourceSize == b.value.sourceSize
          && a.value.basisSize == b.value.basisSize)
  }

  /** Split equals one-pass: for every basis signature, source, budget and pair of
      read splittings that deliver the source, both fail or both return the same
      ops and sizes, and the signature pass yields the one-pass checksum. */
  method BothEngines(
    data: seq<byte>, schedule1: seq<Step>, schedule2: seq<Step>, basis: Signature, maxLiteral: nat, verify: bool,
    h: Hash, cut: Cutter)
    returns (one: Result<Delta, DeltaError>, split: Result<Delta, DeltaError>)
    requires Streaming(cut)
    ensures (one.Err? && one.error == Chunking) || (split.Err? && split.error == Chunking) || SameOutcome(one, split)
    ensures NoFailure(schedule1) && one.Err? ==> one.error != Chunking
    ensures NoFailure(schedule2) && split.Err? ==> split.error != Chunking
    ensures NoFailure(schedule1) ==> (one.Ok? <==> Unmatched(Chunks(data, cut), basis.chunks, h) <= maxLiteral)
    ensures one.Ok? ==> one.value.checksum == Checksum(verify, h, data)
    ensures one.Ok? && Slim(basis.chunks) ==> Packed(one.value.ops)
    ensures split.Ok? && Slim(basis.chunks) ==> Packed(split.value.ops)
  {
    hide Streaming, CdcOps, Unmatched, SigsOf, Chunks, InPlace, Packed, Slim;
    WithinData(cut, data);
    var s1 := new Source(data, schedule1);
    var s2 := new Source(data, schedule2);
    var sigOut;
    one, sigOut := ComputeDeltaLimited(s1, basis, maxLiteral, verify, h, cut);
    var signed := SignSource(s2, verify, cut, h);
    if signed.Err? {
      split := Err(signed.error);
      return;
    }
    var file := new BasisFile(data);
    ghost var chunks := Chunks(data, cut);
    ChunksInPlace(data, cut);
    if Slim(basis.chunks) {
      CdcPacked(chunks, basis.chunks, h);
    }
    split := ComputeDeltaFromSignatures(file, basis, signed.value.0, maxLiteral, chunks, h);
  }

  lemma WithinData(cut: Cutter, data: seq<byte>)
    requires Streaming(cut)
    ensures Total(cut(data)) <= |data|
  {
  }

  // ---- reconstruction ----

  ghost predicate ChunkDescribes(sigs: seq<ChunkSig>, basis: seq<byte>, h: Hash) {
    forall i | 0 <= i < |sigs| ::
      sigs[i].offset + sigs[i].len <= |basis| && sigs[i].strong == h(Slice(basis, sigs[i].offset, sigs[i].len))
  }

  lemma GeneratedDescribes(basis: seq<byte>, cut: Cutter, h: Hash)
    requires Total(cut(basis)) <= |basis|
    ensures ChunkDescribes(SigsOf(Chunks(basis, cut), h), basis, h)
  {
    ChunksInPlace(basis, cut);
  }

  lemma {:induction false} ChunkOpReplay(
    ops: seq<Op>, c: Chunk, sigs: seq<ChunkSig>, basis: seq<byte>, data: seq<byte>, h: Hash)
    requires InBounds(ops, |basis|) && ChunkDescribes(sigs, basis, h) && CollisionFree(h, basis, data)
    requires Places(c, data)
    ensures var r := ChunkOp(ops, c, sigs, h);
      && InBounds(r, |basis|)
      && Replay(r, basis) == Replay(ops, basis) + c.data
      && Literals(r) == Literals(ops) + MissBytes(c, sigs, h)
  {
    hide Replay, Literals, Matched, LiteralPushed, CopyPushed, FirstWith;
    var m := FirstWith(sigs, |sigs|, h(c.data));
    FirstWithSound(sigs, |sigs|, h(c.data));
    if m.Some? {
      var b := sigs[m.value];
      assert h(Slice(basis, b.offset, b.len)) == h(Slice(data, c.start, |c.data|));
      PushedCopy(ops, basis, b.offset, b.len);
    } else {
      PushedLiteral(ops, basis, c.data);
    }
  }

  lemma {:induction false} CdcReplay(
    chunks: seq<Chunk>, sigs: seq<ChunkSig>, basis: seq<byte>, data: seq<byte>, h: Hash)
    requires ChunkDescribes(sigs, basis, h) && CollisionFree(h, basis, data)
    requires InPlace(chunks, data)
    ensures InBounds(CdcOps(chunks, sigs, h), |basis|)
    ensures Replay(CdcOps(chunks, sigs, h), basis) == Joined(chunks)
    ensures Literals(CdcOps(chunks, sigs, h)) == Unmatched(chunks, sigs, h)
  {
    if chunks != [] {
      hide CollisionFree, ChunkDescribes, ChunkOp;
      var front := chunks[..|chunks| - 1];
      CdcReplay(front, sigs, basis, data, h);
      ChunkOpReplay(CdcOps(front, sigs, h), chunks[|chunks| - 1], sigs, basis, data, h);
    }
  }

  /** Either engine's delta against the basis's own signature reconstructs the
      source, and carries exactly the unmatched bytes as literals. */
  lemma {:induction false} CdcRoundTrip(basis: seq<byte>, data: seq<byte>, cut: Cutter, h: Hash)
    requires Streaming(cut) && CollisionFree(h, basis, data)
    ensures var ops := CdcOps(Chunks(data, cut), SigsOf(Chunks(basis, cut), h), h);
      && InBounds(ops, |basis|) && Replay(ops, basis) == data
      && Literals(ops) == Unmatched(Chunks(data, cut), SigsOf(Chunks(basis, cut), h), h)
      && Matched(ops) + Literals(ops) == |data|
  {
    hide CdcOps, Unmatched, CollisionFree, ChunkDescribes, Replay, Chunks, InPlace, Matched, Literals, SigsOf;
    assert Total(cut(data)) <= |data| && Total(cut(basis)) <= |basis|;
    hide Streaming;
    var chunks, sigs := Chunks(data, cut), SigsOf(Chunks(basis, cut), h);
    GeneratedDescribes(basis, cut, h);
    ChunksTile(data, cut);
    ChunksInPlace(data, cut);
    CdcReplay(chunks, sigs, basis, data, h);
    ReplayLength(CdcOps(chunks, sigs, h), basis);
  }
}
