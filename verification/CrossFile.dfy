/** Recipes against a sibling: when what the receiver commits is the sender's source. */
module CrossFile {
  import opened Bytes
  import opened DeltaOps
  import opened FrameCodec
  import opened Patch
  import opened Sparse
  import opened Applies

  /** The recipe is right for the file the sender signed: its ops make the source of it. */
  ghost predicate Right(job: Job, signed: seq<byte>, source: seq<byte>) {
    && Validated(job.ops, job.basisSize) && job.sourceSize == |source|
    && InBounds(Effective(job.ops), |signed|) && Replay(Effective(job.ops), signed) == source
  }

  /** The two files agree at every stretch the ops copy. */
  predicate SameStretches(ops: seq<Op>, basis: seq<byte>, signed: seq<byte>)
    requires InBounds(ops, |basis|) && InBounds(ops, |signed|)
  {
    forall i | 0 <= i < |ops| :: OpBytes(ops[i], basis) == OpBytes(ops[i], signed)
  }

  lemma {:induction false} ReplayAgrees(ops: seq<Op>, basis: seq<byte>, signed: seq<byte>)
    requires InBounds(ops, |basis|) && InBounds(ops, |signed|)
    ensures |Replay(ops, basis)| == |Replay(ops, signed)|
    ensures Replay(ops, basis) == Replay(ops, signed) <==> SameStretches(ops, basis, signed)
  {
    if ops != [] {
      var front, last := ops[..|ops| - 1], ops[|ops| - 1];
      ReplayAgrees(front, basis, signed);
      SamePieces(Replay(front, basis), OpBytes(last, basis), Replay(front, signed), OpBytes(last, signed));
      assert SameStretches(ops, basis, signed) <==>
        SameStretches(front, basis, signed) && OpBytes(last, basis) == OpBytes(last, signed);
    }
  }

  lemma SamePieces(a: seq<byte>, b: seq<byte>, c: seq<byte>, d: seq<byte>)
    requires |a| == |c| && |b| == |d|
    ensures a + b == c + d <==> a == c && b == d
  {
    if a + b == c + d {
      assert (a + b)[..|a|] == a && (c + d)[..|c|] == c;
      assert (a + b)[|a|..] == b && (c + d)[|c|..] == d;
    }
  }

  /** What the receiver checks of a right recipe: that the copies lie in its basis and, only
      if a checksum came with it, what they make. */
  ghost predicate Accepted(job: Job, basis: seq<byte>, h: Hash) {
    && InBounds(Effective(job.ops), |basis|)
    && (job.checksum.Some? ==> h(Replay(Effective(job.ops), basis)) == job.checksum.value)
  }

  /** What the receiver holds of the sibling. */
  function SiblingFile(job: Job, sibling: Text, dest: Files): seq<byte> {
    if job.basisSize > 0 && sibling in dest then dest[sibling] else []
  }

  /** A right recipe is committed exactly when that check passes and staging and commit
      work. What it leaves is the sender's source exactly when the receiver's basis agrees
      with the signed file at the stretches copied; with a checksum it always is, unless
      the two collide. */
  lemma CrossCommitted(
    job: Job, luck: Luck, dest: Files, sibling: Text, signed: seq<byte>, source: seq<byte>, h: Hash)
    requires Right(job, signed, source) && job.basisPath == Some(sibling)
    ensures var basis := SiblingFile(job, sibling, dest);
      Commits(dest, job, luck, h) <==> luck.staged && luck.committed && Accepted(job, basis, h)
    ensures var basis := SiblingFile(job, sibling, dest);
      Commits(dest, job, luck, h) ==>
        && job.path in Wrote(dest, job, luck, h) && InBounds(Effective(job.ops), |basis|)
        && (Wrote(dest, job, luck, h)[job.path] == source <==> SameStretches(Effective(job.ops), basis, signed))
    ensures var basis := SiblingFile(job, sibling, dest);
      Commits(dest, job, luck, h) && job.checksum == Some(h(source)) ==>
        NoCollision(h, Replay(Effective(job.ops), basis), source) ==> Wrote(dest, job, luck, h)[job.path] == source
  {
    hide Fit, Effective, Replay, SameStretches;
    var ops, basis := Effective(job.ops), SiblingFile(job, sibling, dest);
    assert basis == BasisOf(job, dest);
    if InBounds(ops, |basis|) {
      ReplayLength(ops, basis);
      ReplayAgrees(ops, basis, signed);
      FitSame(Replay(ops, basis), job.sourceSize);
    }
  }

  /** The recipe that copies a whole sibling. */
  function CopyAll(path: Text, sibling: Text, n: nat): Job {
    Job(path, [Copy(0, n)], n, None, n, Some(sibling))
  }

  /** Without a checksum, which is what the sender sends unless it verifies, any other
      content of the sibling goes through: for every signed file and every differing file of
      at least its length a right recipe is reported as applied and leaves something else. */
  lemma StaleApplied(
    signed: seq<byte>, held: seq<byte>, path: Text, sibling: Text, dest: Files, luck: Luck, sizes: Sizes, h: Hash)
    requires 0 < |signed| <= |held| && held[..|signed|] != signed && |signed| < 0x1_0000_0000
    requires sibling in dest && dest[sibling] == held
    requires luck.staged && luck.committed && luck.stamped
    ensures var job := CopyAll(path, sibling, |signed|);
      && Right(job, signed, signed) && OutcomeOf(dest, job, luck, sizes, false, h) == Applied(path, |signed|, None)
      && Wrote(dest, job, luck, h)[path] == held[..|signed|]
  {
    hide Fit, Effective, Replay;
    CopyAllMakes(path, sibling, |signed|, signed);
    CopyAllMakes(path, sibling, |signed|, held);
    assert signed[..|signed|] == signed;
    FitSame(held[..|signed|], |signed|);
  }

  lemma CopyAllMakes(path: Text, sibling: Text, n: nat, basis: seq<byte>)
    requires 0 < n <= |basis|
    ensures var ops := Effective(CopyAll(path, sibling, n).ops);
      && InBounds(ops, |basis|) && Replay(ops, basis) == basis[..n] && Matched(ops) + Literals(ops) == n
  {
    var ops := [Copy(0, n)];
    OneEffective(Copy(0, n));
    OneReplay(Copy(0, n), basis);
    hide Effective, Replay;
    assert basis[0..n] == basis[..n];
    ReplayLength(ops, basis);
  }

  lemma OneEffective(op: Op)
    requires !Empty(op)
    ensures Effective([op]) == [op]
  {
    assert [op][..0] == [];
    assert Effective([]) == [];
  }

  lemma OneReplay(op: Op, basis: seq<byte>)
    requires Fits(op, |basis|)
    ensures Replay([op], basis) == OpBytes(op, basis)
  {
    assert [op][..0] == [];
    assert Replay([], basis) == [];
  }
}
