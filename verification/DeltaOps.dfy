/** Delta operations: the merging pushes, the byte counters and `validate`. */
module DeltaOps {
  import opened Bytes

  datatype Op = Copy(offset: nat, len: nat) | Literal(data: seq<byte>)

  datatype DeltaError =
    | Chunking
    | InvalidCopyBounds
    | ChecksumMismatch
    | PatchFailed
    | LiteralBudgetExceeded(limit: nat)

  // ---- specification: what an op list produces from a basis ----

  predicate Fits(op: Op, basisLen: nat) {
    op.Copy? ==> op.offset + op.len <= basisLen
  }

  predicate InBounds(ops: seq<Op>, basisLen: nat) {
    forall i | 0 <= i < |ops| :: Fits(ops[i], basisLen)
  }

  function OpBytes(op: Op, basis: seq<byte>): seq<byte>
    requires Fits(op, |basis|)
  {
    match op
    case Copy(offset, len) => basis[offset..offset + len]
    case Literal(data) => data
  }

  /** The byte stream the ops stand for. */
  function Replay(ops: seq<Op>, basis: seq<byte>): seq<byte>
    requires InBounds(ops, |basis|)
  {
    if ops == [] then []
    else Replay(ops[..|ops| - 1], basis) + OpBytes(ops[|ops| - 1], basis)
  }

  function CopyLen(op: Op): nat { if op.Copy? then op.len else 0 }

  function LiteralLen(op: Op): nat { if op.Literal? then |op.data| else 0 }

  function Matched(ops: seq<Op>): nat {
    if ops == [] then 0 else Matched(ops[..|ops| - 1]) + CopyLen(ops[|ops| - 1])
  }

  function Literals(ops: seq<Op>): nat {
    if ops == [] then 0 else Literals(ops[..|ops| - 1]) + LiteralLen(ops[|ops| - 1])
  }

  // ---- specification: the merging pushes ----

  /** The last op is a copy that ends where the new one starts, and the joined
      length still fits 32 bits. */
  predicate Continues(ops: seq<Op>, offset: nat, len: nat) {
    && ops != [] && ops[|ops| - 1].Copy?
    && ops[|ops| - 1].offset + ops[|ops| - 1].len == offset
    && ops[|ops| - 1].len + len < 0x1_0000_0000
  }

  function CopyPushed(ops: seq<Op>, offset: nat, len: nat): seq<Op> {
    if len == 0 then ops
    else if Continues(ops, offset, len)
    then ops[..|ops| - 1] + [Copy(ops[|ops| - 1].offset, ops[|ops| - 1].len + len)]
    else ops + [Copy(offset, len)]
  }

  function LiteralPushed(ops: seq<Op>, data: seq<byte>): seq<Op> {
    if data == [] then ops
    else if ops != [] && ops[|ops| - 1].Literal?
    then ops[..|ops| - 1] + [Literal(ops[|ops| - 1].data + data)]
    else ops + [Literal(data)]
  }

  // ---- the encoder's mutable delta ----

  class Delta {
    var sourceSize: nat
    const basisSize: nat
    var ops: seq<Op>
    var checksum: Option<Digest>

    constructor (sourceSize: nat, basisSize: nat)
      ensures this.sourceSize == sourceSize && this.basisSize == basisSize
      ensures ops == [] && checksum == None
    {
      this.sourceSize, this.basisSize := sourceSize, basisSize;
      ops, checksum := [], None;
    }

    method PushCopy(offset: nat, len: nat)
      modifies this`ops
      ensures ops == CopyPushed(old(ops), offset, len)
    {
      if len == 0 {
        return;
      }
      if |ops| > 0 {
        var last := ops[|ops| - 1];
        if last.Copy? && last.offset + last.len == offset && last.len + len < 0x1_0000_0000 {
          ops := ops[|ops| - 1 := Copy(last.offset, last.len + len)];
          return;
        }
      }
      ops := ops + [Copy(offset, len)];
    }

    method PushLiteral(data: seq<byte>)
      modifies this`ops
      ensures ops == LiteralPushed(old(ops), data)
    {
      if |data| == 0 {
        return;
      }
      if |ops| > 0 && ops[|ops| - 1].Literal? {
        ops := ops[|ops| - 1 := Literal(ops[|ops| - 1].data + data)];
        return;
      }
      ops := ops + [Literal(data)];
    }

    method BytesMatched() returns (n: nat)
      ensures n == Matched(ops)
    {
      n := 0;
      for i := 0 to |ops|
        invariant n == Matched(ops[..i])
      {
        assert ops[..i + 1][..i] == ops[..i];
        n := n + CopyLen(ops[i]);
      }
      assert ops[..|ops|] == ops;
    }

    method BytesLiteral() returns (n: nat)
      ensures n == Literals(ops)
    {
      n := 0;
      for i := 0 to |ops|
        invariant n == Literals(ops[..i])
      {
        assert ops[..i + 1][..i] == ops[..i];
        n := n + LiteralLen(ops[i]);
      }
      assert ops[..|ops|] == ops;
    }

    /** Bounds check with the code's saturating 64-bit end. It decides `InBounds`
        for every basis size a file can have; only at 2^64 - 1 does saturation
        hide an overflowing end. */
    method Validate() returns (r: Result<(), DeltaError>)
      ensures r == if Validated(ops, basisSize) then Ok(()) else Err(InvalidCopyBounds)
      ensures r.Ok? <== InBounds(ops, basisSize)
      ensures r.Ok? && basisSize < 0xffff_ffff_ffff_ffff ==> InBounds(ops, basisSize)
    {
      for i := 0 to |ops|
        invariant forall j | 0 <= j < i ::
          ops[j].Copy? ==> SaturatingEnd(ops[j].offset, ops[j].len) <= basisSize
      {
        if ops[i].Copy? && SaturatingEnd(ops[i].offset, ops[i].len) > basisSize {
          return Err(InvalidCopyBounds);
        }
      }
      return Ok(());
    }
  }

  /** Every copy ends, in saturating arithmetic, within a basis of the announced size. */
  predicate Validated(ops: seq<Op>, basisSize: nat) {
    forall i | 0 <= i < |ops| :: ops[i].Copy? ==> SaturatingEnd(ops[i].offset, ops[i].len) <= basisSize
  }

  function SaturatingEnd(offset: nat, len: nat): nat {
    Min(offset + len, 0xffff_ffff_ffff_ffff)
  }

  // ---- what a push does to the meaning ----

  lemma {:induction false} PushedCopy(ops: seq<Op>, basis: seq<byte>, offset: nat, len: nat)
    requires InBounds(ops, |basis|) && offset + len <= |basis|
    ensures InBounds(CopyPushed(ops, offset, len), |basis|)
    ensures Replay(CopyPushed(ops, offset, len), basis)
         == Replay(ops, basis) + basis[offset..offset + len]
    ensures Matched(CopyPushed(ops, offset, len)) == Matched(ops) + len
    ensures Literals(CopyPushed(ops, offset, len)) == Literals(ops)
  {
    hide Replay, Matched, Literals;
    if len == 0 {
      assert basis[offset..offset + len] == [];
    } else if Continues(ops, offset, len) {
      MergedCopy(ops, basis, offset, len);
    } else {
      Appended(ops, Copy(offset, len), basis);
    }
  }

  lemma MergedCopy(ops: seq<Op>, basis: seq<byte>, offset: nat, len: nat)
    requires InBounds(ops, |basis|) && offset + len <= |basis| && Continues(ops, offset, len)
    ensures var r := ops[..|ops| - 1] + [Copy(ops[|ops| - 1].offset, ops[|ops| - 1].len + len)];
      && InBounds(r, |basis|)
      && Replay(r, basis) == Replay(ops, basis) + basis[offset..offset + len]
      && Matched(r) == Matched(ops) + len && Literals(r) == Literals(ops)
  {
    hide Replay, Matched, Literals;
    var last := ops[|ops| - 1];
    assert Fits(last, |basis|);
    var op := Copy(last.offset, last.len + len);
    Adjacent(basis, last.offset, offset, offset + len);
    assert OpBytes(op, basis) == OpBytes(last, basis) + basis[offset..offset + len];
    Extended(ops, op, basis[offset..offset + len], basis);
  }

  lemma Appended(ops: seq<Op>, op: Op, basis: seq<byte>)
    requires InBounds(ops, |basis|) && Fits(op, |basis|)
    ensures InBounds(ops + [op], |basis|)
    ensures Replay(ops + [op], basis) == Replay(ops, basis) + OpBytes(op, basis)
    ensures Matched(ops + [op]) == Matched(ops) + CopyLen(op)
    ensures Literals(ops + [op]) == Literals(ops) + LiteralLen(op)
  {
    assert (ops + [op])[..|ops|] == ops;
  }

  /** Growing the last op in place appends its extra bytes. */
  lemma Extended(ops: seq<Op>, op: Op, extra: seq<byte>, basis: seq<byte>)
    requires ops != [] && InBounds(ops, |basis|) && Fits(op, |basis|)
    requires op.Copy? == ops[|ops| - 1].Copy?
    requires OpBytes(op, basis) == OpBytes(ops[|ops| - 1], basis) + extra
    ensures var r := ops[..|ops| - 1] + [op];
      && InBounds(r, |basis|)
      && Replay(r, basis) == Replay(ops, basis) + extra
      && Matched(r) == Matched(ops) + (if op.Copy? then |extra| else 0)
      && Literals(r) == Literals(ops) + (if op.Copy? then 0 else |extra|)
  {
    var front, last := ops[..|ops| - 1], ops[|ops| - 1];
    assert ops == front + [last];
    Appended(front, op, basis);
    assert Replay(front, basis) + (OpBytes(last, basis) + extra)
        == Replay(front, basis) + OpBytes(last, basis) + extra;
    assert |OpBytes(op, basis)| == |OpBytes(last, basis)| + |extra|;
  }

  lemma Adjacent(s: seq<byte>, a: nat, b: nat, c: nat)
    requires a <= b <= c <= |s|
    ensures s[a..c] == s[a..b] + s[b..c]
  {
  }

  lemma PushedLiteral(ops: seq<Op>, basis: seq<byte>, data: seq<byte>)
    requires InBounds(ops, |basis|)
    ensures InBounds(LiteralPushed(ops, data), |basis|)
    ensures Replay(LiteralPushed(ops, data), basis) == Replay(ops, basis) + data
    ensures Matched(LiteralPushed(ops, data)) == Matched(ops)
    ensures Literals(LiteralPushed(ops, data)) == Literals(ops) + |data|
  {
    hide Replay, Matched, Literals;
    if data == [] {
    } else if ops != [] && ops[|ops| - 1].Literal? {
      Extended(ops, Literal(ops[|ops| - 1].data + data), data, basis);
    } else {
      Appended(ops, Literal(data), basis);
    }
  }

  /** Pushing a run in two pieces is pushing it whole: the op list does not
      depend on where the literal scratch was flushed. */
  lemma LiteralPushAssociative(ops: seq<Op>, a: seq<byte>, b: seq<byte>)
    ensures LiteralPushed(LiteralPushed(ops, a), b) == LiteralPushed(ops, a + b)
  {
    if a == [] {
      assert a + b == b;
    } else if b == [] {
      assert a + b == a;
    } else {
      var r := LiteralPushed(ops, a);
      var front := if ops != [] && ops[|ops| - 1].Literal? then ops[..|ops| - 1] else ops;
      assert r[..|r| - 1] == front;
      if ops != [] && ops[|ops| - 1].Literal? {
        assert ops[|ops| - 1].data + a + b == ops[|ops| - 1].data + (a + b);
      }
    }
  }

  /** Replay length is matched plus literal bytes. */
  lemma {:induction false} ReplayLength(ops: seq<Op>, basis: seq<byte>)
    requires InBounds(ops, |basis|)
    ensures |Replay(ops, basis)| == Matched(ops) + Literals(ops)
  {
    if ops != [] {
      ReplayLength(ops[..|ops| - 1], basis);
    }
  }

  /** The op list stays in normal form: no empty op, no two literals in a row. */
  predicate Compact(ops: seq<Op>) {
    && (forall i | 0 <= i < |ops| :: CopyLen(ops[i]) + LiteralLen(ops[i]) > 0)
    && (forall i | 0 < i < |ops| :: ops[i].Literal? ==> ops[i - 1].Copy?)
  }

  lemma PushesStayCompact(ops: seq<Op>, offset: nat, len: nat, data: seq<byte>)
    requires Compact(ops)
    ensures Compact(CopyPushed(ops, offset, len)) && Compact(LiteralPushed(ops, data))
  {
  }

  /** Every copy length fits its 32-bit field. */
  predicate Narrow(ops: seq<Op>) {
    forall i | 0 <= i < |ops| && ops[i].Copy? :: ops[i].len < 0x1_0000_0000
  }

  /** Two neighbouring copies are one only where that length would not fit: the second
      never starts where the first ends unless the joined length leaves 32 bits. */
  predicate Merged(ops: seq<Op>) {
    forall i | 0 < i < |ops| && ops[i - 1].Copy? && ops[i].Copy? && ops[i - 1].offset + ops[i - 1].len == ops[i].offset ::
      ops[i - 1].len + ops[i].len >= 0x1_0000_0000
  }

  /** The wire form: nothing empty, nothing that could have been joined, nothing too wide. */
  predicate Packed(ops: seq<Op>) {
    Compact(ops) && Narrow(ops) && Merged(ops)
  }

  /** Pushes keep it, for a copy that itself fits. */
  lemma PushesStayPacked(ops: seq<Op>, offset: nat, len: nat, data: seq<byte>)
    requires Packed(ops) && len < 0x1_0000_0000
    ensures Packed(CopyPushed(ops, offset, len)) && Packed(LiteralPushed(ops, data))
  {
    PushesStayCompact(ops, offset, len, data);
    hide Compact;
    CopyStaysMerged(ops, offset, len);
    LiteralStaysMerged(ops, data);
  }

  lemma CopyStaysMerged(ops: seq<Op>, offset: nat, len: nat)
    requires Narrow(ops) && Merged(ops) && len < 0x1_0000_0000
    ensures Narrow(CopyPushed(ops, offset, len)) && Merged(CopyPushed(ops, offset, len))
  {
    var r := CopyPushed(ops, offset, len);
    forall i | 0 < i < |r| && r[i - 1].Copy? && r[i].Copy? && r[i - 1].offset + r[i - 1].len == r[i].offset
      ensures r[i - 1].len + r[i].len >= 0x1_0000_0000
    {
      assert r[i - 1] == ops[i - 1];
      if i < |ops| {
        assert ops[i - 1].Copy? && ops[i].Copy?;
      }
    }
  }

  lemma LiteralStaysMerged(ops: seq<Op>, data: seq<byte>)
    requires Narrow(ops) && Merged(ops)
    ensures Narrow(LiteralPushed(ops, data)) && Merged(LiteralPushed(ops, data))
  {
  }
}
