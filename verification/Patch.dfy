/** `apply_patch`: replaying a delta against a basis file. */
module Patch {
  import opened Bytes
  import opened DeltaOps

  const COPY_STREAM_CHUNK: nat := 1024 * 1024

  /** A seekable basis. */
  class BasisFile {
    const data: seq<byte>
    var pos: nat

    constructor (data: seq<byte>)
      ensures this.data == data
    {
      this.data, this.pos := data, 0;
    }

    method Seek(to: nat)
      modifies this
      ensures pos == to
    {
      pos := to;
    }

    /** `read_exact`: all `n` bytes, or an error at the end of the file. */
    method ReadExact(n: nat) returns (r: Option<seq<byte>>)
      modifies this
      ensures old(pos) + n <= |data| ==> r == Some(data[old(pos)..old(pos) + n]) && pos == old(pos) + n
      ensures old(pos) + n > |data| ==> r == None
    {
      if pos + n > |data| {
        return None;
      }
      r := Some(data[pos..pos + n]);
      pos := pos + n;
    }
  }

  /** An output that accepts at most `limit` bytes. */
  class Sink {
    const limit: nat
    var written: seq<byte>

    ghost predicate Valid()
      reads this
    {
      |written| <= limit
    }

    constructor (limit: nat)
      ensures this.limit == limit && written == [] && Valid()
    {
      this.limit, this.written := limit, [];
    }

    method WriteAll(bytes: seq<byte>) returns (ok: bool)
      requires Valid()
      modifies this
      ensures Valid()
      ensures ok <==> |old(written)| + |bytes| <= limit
      ensures written == if ok then old(written) + bytes else old(written)
    {
      ok := |written| + |bytes| <= limit;
      if ok {
        written := written + bytes;
      }
    }
  }

  /** A copy of nothing: it reads and writes nothing, wherever it points. */
  predicate Empty(op: Op) {
    op.Copy? && op.len == 0
  }

  /** The ops that read or write anything. */
  function Effective(ops: seq<Op>): seq<Op> {
    if ops == [] then []
    else Effective(ops[..|ops| - 1]) + (if Empty(ops[|ops| - 1]) then [] else [ops[|ops| - 1]])
  }

  /** One op: a copy is streamed through a bounded buffer, a literal is written.
      It fails exactly when it reads past the basis or overfills the output. */
  method ApplyOp(basis: BasisFile, op: Op, output: Sink, fed: seq<byte>, hashing: bool)
    returns (ok: bool, fed': seq<byte>)
    requires output.Valid()
    modifies basis, output
    ensures output.Valid() && old(output.written) <= output.written
    ensures ok ==> Fits(op, |basis.data|) || op.len == 0
    ensures Empty(op) ==> ok && output.written == old(output.written) && fed' == fed
    ensures Fits(op, |basis.data|) ==>
      var bytes := OpBytes(op, basis.data);
      && (ok <==> |old(output.written)| + |bytes| <= output.limit)
      && (ok ==> output.written == old(output.written) + bytes)
      && (ok && hashing ==> fed' == fed + bytes)
  {
    match op
    case Copy(offset, len) =>
      basis.Seek(offset);
      ok, fed' := StreamCopy(basis, offset, len, output, fed, hashing);
    case Literal(data) =>
      fed' := fed;
      ok := output.WriteAll(data);
      if ok && hashing {
        fed' := fed' + data;
      }
  }

  method StreamCopy(basis: BasisFile, ghost offset: nat, len: nat, output: Sink, fed: seq<byte>, hashing: bool)
    returns (ok: bool, fed': seq<byte>)
    requires output.Valid() && basis.pos == offset
    modifies basis, output
    ensures output.Valid() && old(output.written) <= output.written
    ensures ok && len > 0 ==> offset + len <= |basis.data|
    ensures len == 0 ==> ok && output.written == old(output.written) && fed' == fed
    ensures offset + len <= |basis.data| ==>
      && (ok <==> |old(output.written)| + len <= output.limit)
      && (ok ==> output.written == old(output.written) + basis.data[offset..offset + len])
      && (ok && hashing ==> fed' == fed + basis.data[offset..offset + len])
  {
    fed' := fed;
    var remaining: nat := len;
    ghost var copied: seq<byte> := [];
    assert output.written == old(output.written) + copied && fed == fed + copied;
    while remaining > 0
      invariant remaining <= len && basis.pos == offset + len - remaining && output.Valid()
      invariant remaining < len ==> basis.pos <= |basis.data|
      invariant basis.pos <= |basis.data| ==> copied == basis.data[offset..basis.pos]
      invariant |copied| == len - remaining
      invariant output.written == old(output.written) + copied
      invariant hashing ==> fed' == fed + copied
      invariant len == 0 ==> fed' == fed && output.written == old(output.written)
    {
      var take := Min(remaining, COPY_STREAM_CHUNK);
      ghost var at := basis.pos;
      var got := basis.ReadExact(take);
      if got.None? {
        return false, fed';
      }
      Adjacent(basis.data, offset, at, basis.pos);
      var wrote := output.WriteAll(got.value);
      if !wrote {
        return false, fed';
      }
      if hashing {
        fed' := fed' + got.value;
      }
      assert old(output.written) + copied + got.value == old(output.written) + (copied + got.value);
      assert fed + copied + got.value == fed + (copied + got.value);
      copied := copied + got.value;
      remaining := remaining - take;
    }
    ok := true;
  }

  /** What replaying the whole delta needs: copies within the basis, room for it, and a matching checksum
      when both sides hash. */
  predicate Replayable(ops: seq<Op>, checksum: Option<Digest>, basis: seq<byte>, room: int, hashing: bool, h: Hash)
  {
    && InBounds(ops, |basis|)
    && |Replay(ops, basis)| <= room
    && (hashing && checksum.Some? ==> h(Replay(ops, basis)) == checksum.value)
  }

  lemma {:induction false} ReplayPrefix(ops: seq<Op>, basis: seq<byte>, n: nat)
    requires InBounds(ops, |basis|) && n <= |ops|
    ensures InBounds(ops[..n], |basis|) && Replay(ops[..n], basis) <= Replay(ops, basis)
  {
    if n < |ops| {
      var front := ops[..|ops| - 1];
      ReplayPrefix(front, basis, n);
      assert front[..n] == ops[..n];
    } else {
      assert ops[..n] == ops;
    }
  }

  lemma EffectiveStep(ops: seq<Op>, i: nat)
    requires i < |ops|
    ensures Effective(ops[..i + 1]) == Effective(ops[..i]) + (if Empty(ops[i]) then [] else [ops[i]])
  {
    assert ops[..i + 1][..i] == ops[..i];
  }

  lemma {:induction false} EffectivePrefix(ops: seq<Op>, i: nat)
    requires i <= |ops|
    ensures Effective(ops[..i]) <= Effective(ops)
    decreases |ops| - i
  {
    if i < |ops| {
      EffectiveStep(ops, i);
      EffectivePrefix(ops, i + 1);
    } else {
      assert ops[..i] == ops;
    }
  }

  lemma ReplaySnoc(ops: seq<Op>, op: Op, basis: seq<byte>)
    requires InBounds(ops, |basis|)
    ensures InBounds(ops + [op], |basis|) <==> Fits(op, |basis|)
    ensures Fits(op, |basis|) ==> Replay(ops + [op], basis) == Replay(ops, basis) + OpBytes(op, basis)
  {
    assert (ops + [op])[..|ops|] == ops;
    if Fits(op, |basis|) {
      assert forall i | 0 <= i < |ops| :: Fits((ops + [op])[i], |basis|);
    } else {
      assert !Fits((ops + [op])[|ops|], |basis|);
    }
  }

  /** Ops that lie in the basis stand for the same bytes without their empty copies. */
  lemma {:induction false} EffectiveSame(ops: seq<Op>, basis: seq<byte>)
    requires InBounds(ops, |basis|)
    ensures InBounds(Effective(ops), |basis|) && Replay(Effective(ops), basis) == Replay(ops, basis)
  {
    if ops != [] {
      var front, last := ops[..|ops| - 1], ops[|ops| - 1];
      EffectiveSame(front, basis);
      if Empty(last) {
        assert OpBytes(last, basis) == [];
        assert Effective(ops) == Effective(front);
      } else {
        ReplaySnoc(Effective(front), last, basis);
      }
    }
  }

  /** Whether a prefix that fails condemns the whole. */
  lemma {:induction false} PrefixReplayable(ops: seq<Op>, n: nat, basis: seq<byte>)
    requires n <= |ops|
    ensures InBounds(ops, |basis|) ==> InBounds(ops[..n], |basis|) && |Replay(ops[..n], basis)| <= |Replay(ops, basis)|
  {
    if InBounds(ops, |basis|) {
      ReplayPrefix(ops, basis, n);
    }
  }

  /** Patching succeeds exactly when every copy ends within the announced basis size, the
      ops that copy anything lie in the actual basis, the output has room and the
      checksum (if both sides hash) agrees; then the output is exactly what the ops
      stand for. */
  method ApplyPatch(basis: BasisFile, delta: Delta, output: Sink, hashing: bool, h: Hash)
    returns (r: Result<(), DeltaError>)
    requires output.Valid() && output.written == []
    modifies basis, output
    ensures r == Err(InvalidCopyBounds) <==> !Validated(delta.ops, delta.basisSize)
    ensures r.Ok? <==>
      Validated(delta.ops, delta.basisSize)
      && Replayable(Effective(delta.ops), delta.checksum, basis.data, output.limit, hashing, h)
    ensures r.Ok? ==> output.written == Replay(Effective(delta.ops), basis.data)
    ensures r.Err? && r.error == InvalidCopyBounds ==> output.written == []
  {
    hide Replay, Effective, Validated;
    var valid := delta.Validate();
    if valid.Err? {
      return Err(valid.error);
    }
    ghost var ops := delta.ops;
    var fed: seq<byte> := [];
    Nothing(ops, basis.data);
    for i := 0 to |delta.ops|
      invariant output.Valid() && delta.ops == ops
      invariant InBounds(Effective(ops[..i]), |basis.data|)
      invariant output.written == Replay(Effective(ops[..i]), basis.data)
      invariant hashing ==> fed == Replay(Effective(ops[..i]), basis.data)
    {
      EffectiveStep(ops, i);
      EffectivePrefix(ops, i + 1);
      ghost var done := Effective(ops[..i]);
      ReplaySnoc(done, ops[i], basis.data);
      assert done + [] == done;
      assert Effective(ops)[..|Effective(ops[..i + 1])|] == Effective(ops[..i + 1]);
      PrefixReplayable(Effective(ops), |Effective(ops[..i + 1])|, basis.data);
      var ok;
      ok, fed := ApplyOp(basis, delta.ops[i], output, fed, hashing);
      if !ok {
        return Err(PatchFailed);
      }
    }
    assert ops[..|ops|] == ops;
    if hashing && delta.checksum.Some? && h(fed) != delta.checksum.value {
      return Err(ChecksumMismatch);
    }
    return Ok(());
  }

  lemma Nothing(ops: seq<Op>, basis: seq<byte>)
    ensures InBounds(Effective(ops[..0]), |basis|) && Replay(Effective(ops[..0]), basis) == []
  {
  }
}
