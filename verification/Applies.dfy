/** The receiver's bookkeeping: recipes applied by concurrent tasks, and the reports that
    go into the Ack. */
module Applies {
  import opened Bytes
  import opened DeltaOps
  import opened FrameCodec
  import opened Patch
  import opened Sparse

  datatype Job = Job(
    path: Text, ops: seq<Op>, basisSize: nat, checksum: Option<Digest>, sourceSize: nat, basisPath: Option<Text>)

  /** What the machine does to one apply: staging, committing or applying the metadata
      may fail, and the destination's times may no longer be the metadata's when checked
      again (`still`). */
  datatype Luck = Luck(staged: bool, committed: bool, stamped: bool, still: bool)

  datatype Outcome = Applied(path: Text, size: nat, hash: Option<Digest>) | Skipped(path: Text)

  datatype Task = Queued(job: Job, luck: Luck) | Done(outcome: Outcome)

  function PathOf(t: Task): Text {
    match t
    case Queued(job, _) => job.path
    case Done(o) => o.path
  }

  datatype Ack = Ack(skipped: seq<Text>, hashes: map<Text, Digest>)

  datatype ApplyError = Busy | NoFile | WrongFile | CommitFailed

  type Files = map<Text, seq<byte>>

  /** Sizes from the source metadata, by path. */
  type Sizes = map<Text, nat>

  // ---- what a reported hash stands for ----

  /** `streams` records, for each path, the bytes last received for it. The file holds
      them cut or padded, the digest is theirs, and the file has the size the source
      metadata gives. */
  ghost predicate Backed(dest: Files, streams: Files, sizes: Sizes, h: Hash, path: Text, digest: Digest) {
    && path in dest && path in streams
    && digest == h(streams[path]) && dest[path] == Fit(streams[path], |dest[path]|)
    && (path in sizes ==> |dest[path]| == sizes[path])
  }

  lemma FitSame(stream: seq<byte>, size: nat)
    ensures |Fit(stream, size)| == size
    ensures size == |stream| ==> Fit(stream, size) == stream
  {
  }

  // ---- one apply ----

  /** The path the basis is read from; without a basis the job depends on its own only. */
  function BasisPath(job: Job): Text {
    if job.basisPath.Some? && job.basisSize > 0 then job.basisPath.value else job.path
  }

  function BasisOf(job: Job, dest: Files): seq<byte> {
    if job.basisSize > 0 && BasisPath(job) in dest then dest[BasisPath(job)] else []
  }

  /** The patched bytes, when patching succeeds with an unlimited output. */
  function Patched(job: Job, basis: seq<byte>, h: Hash): Option<seq<byte>> {
    var ops := Effective(job.ops);
    if Validated(job.ops, job.basisSize) && Replayable(ops, job.checksum, basis, Matched(ops) + Literals(ops), true, h)
    then Some(Replay(ops, basis)) else None
  }

  /** With source metadata at hand it must apply, and under verification the committed
      file must still have the metadata's size and times. */
  predicate Settles(content: seq<byte>, path: Text, sizes: Sizes, luck: Luck, verify: bool) {
    path in sizes ==> luck.stamped && (verify ==> luck.still && |content| == sizes[path])
  }

  predicate Commits(dest: Files, job: Job, luck: Luck, h: Hash) {
    luck.staged && Patched(job, BasisOf(job, dest), h).Some? && luck.committed
  }

  /** The destination after the job: replaced exactly when everything up to the commit
      works. */
  function Wrote(dest: Files, job: Job, luck: Luck, h: Hash): Files {
    if Commits(dest, job, luck, h)
    then dest[job.path := Fit(Patched(job, BasisOf(job, dest), h).value, job.sourceSize)] else dest
  }

  ghost function Streamed(dest: Files, streams: Files, job: Job, luck: Luck, h: Hash): Files {
    if Commits(dest, job, luck, h) then streams[job.path := Patched(job, BasisOf(job, dest), h).value] else streams
  }

  /** The report: applied, under verification with the hash of the patched stream, exactly
      when the file was replaced and the destination still matches. */
  function OutcomeOf(dest: Files, job: Job, luck: Luck, sizes: Sizes, verify: bool, h: Hash): Outcome {
    if Commits(dest, job, luck, h)
       && Settles(Fit(Patched(job, BasisOf(job, dest), h).value, job.sourceSize), job.path, sizes, luck, verify)
    then Applied(job.path, job.sourceSize, if verify then Some(h(Patched(job, BasisOf(job, dest), h).value)) else None)
    else Skipped(job.path)
  }

  function ValueAt(m: Files, p: Text): Option<seq<byte>> {
    if p in m then Some(m[p]) else None
  }

  /** What is to become of a path: the report, the file and the bytes received for it once
      its apply has ended, and the path its basis is read from. */
  datatype Due = Due(outcome: Outcome, file: Option<seq<byte>>, stream: Option<seq<byte>>, basis: Text)

  ghost function DueOf(job: Job, luck: Luck, dest: Files, streams: Files, sizes: Sizes, verify: bool, h: Hash): Due {
    Due(OutcomeOf(dest, job, luck, sizes, verify, h), ValueAt(Wrote(dest, job, luck, h), job.path),
      ValueAt(Streamed(dest, streams, job, luck, h), job.path), BasisPath(job))
  }

  /** It depends on the job's own path and its basis only. */
  lemma DueFrame(
    job: Job, luck: Luck, dest: Files, streams: Files, dest': Files, streams': Files, sizes: Sizes, verify: bool, h: Hash)
    requires ValueAt(dest, job.path) == ValueAt(dest', job.path) && ValueAt(streams, job.path) == ValueAt(streams', job.path)
    requires ValueAt(dest, BasisPath(job)) == ValueAt(dest', BasisPath(job))
    ensures DueOf(job, luck, dest', streams', sizes, verify, h) == DueOf(job, luck, dest, streams, sizes, verify, h)
  {
    hide Patched, Fit;
    assert BasisOf(job, dest) == BasisOf(job, dest');
  }

  lemma {:induction false} EffectiveSizes(ops: seq<Op>)
    ensures Matched(Effective(ops)) + Literals(Effective(ops)) == Matched(ops) + Literals(ops)
  {
    if ops != [] {
      var front, last := ops[..|ops| - 1], ops[|ops| - 1];
      EffectiveSizes(front);
      if Empty(last) {
        assert Effective(ops) == Effective(front);
      } else {
        assert Effective(ops)[..|Effective(front)|] == Effective(front);
      }
    }
  }

  /** The patching half of an apply, through the shared interpreter. */
  method PatchJob(dest: Files, job: Job, verify: bool, h: Hash) returns (out: Option<seq<byte>>)
    ensures out == Patched(job, BasisOf(job, dest), h)
  {
    hide Replay, Effective, Validated, Matched, Literals;
    var basis := new BasisFile(BasisOf(job, dest));
    var delta := new Delta(job.sourceSize, job.basisSize);
    delta.ops, delta.checksum := job.ops, job.checksum;
    var matched := delta.BytesMatched();
    var literal := delta.BytesLiteral();
    EffectiveSizes(job.ops);
    var sink := new Sink(matched + literal);
    var r := ApplyPatch(basis, delta, sink, job.checksum.Some? || verify, h);
    out := if r.Ok? then Some(sink.written) else None;
  }

  /** Stage, patch, commit, check again; a reported hash is backed by the file. */
  method ApplyRecipe(
    dest: Files, job: Job, luck: Luck, sizes: Sizes, verify: bool, sparse: bool, h: Hash, ghost streams: Files)
    returns (dest': Files, outcome: Outcome)
    ensures dest' == Wrote(dest, job, luck, h)
    ensures outcome == OutcomeOf(dest, job, luck, sizes, verify, h)
    ensures outcome.path == job.path && (outcome.Applied? ==> outcome.hash.Some? == verify)
    ensures outcome.Applied? <==>
      && luck.staged && Patched(job, BasisOf(job, dest), h).Some? && luck.committed
      && (job.path in sizes ==> luck.stamped && (verify ==> luck.still && job.sourceSize == sizes[job.path]))
    ensures outcome.Applied? && verify ==>
      Backed(dest', Streamed(dest, streams, job, luck, h), sizes, h, job.path, outcome.hash.value)
  {
    hide Fit, Patched;
    if !luck.staged {
      return dest, Skipped(job.path);
    }
    var out := PatchJob(dest, job, verify, h);
    if out.None? {
      return dest, Skipped(job.path);
    }
    var content := WriteFile([out.value], job.sourceSize, 0, 4096, sparse);
    OnePart(out.value);
    FitSame(out.value, job.sourceSize);
    if !luck.committed {
      return dest, Skipped(job.path);
    }
    dest' := dest[job.path := content];
    if !Settles(content, job.path, sizes, luck, verify) {
      return dest', Skipped(job.path);
    }
    outcome := Applied(job.path, job.sourceSize, if verify then Some(h(out.value)) else None);
  }

  lemma OnePart(s: seq<byte>)
    ensures Concat([s]) == s
  {
    assert [s][..0] == [];
    assert Concat([]) + s == s;
  }

  // ---- the books of a run ----

  /** Apply tasks not joined yet, by handle; reports; paths applied without a hash; paths
      whose outcome was dropped; the path of the chunked file in flight; every path the
      run was asked to write; those it touched again after that; the destination files
      and the bytes received for them; and what is to become of each path. */
  datatype Books = Books(
    tasks: map<nat, Task>, hashes: map<Text, Digest>, skipped: seq<Text>, plain: set<Text>, discarded: set<Text>,
    flight: Option<Text>, written: set<Text>, reused: set<Text>, dest: Files, streams: Files,
    due: map<Text, Due>)

  ghost predicate HasTask(b: Books, p: Text) {
    exists i | i in b.tasks :: PathOf(b.tasks[i]) == p
  }

  ghost predicate Placed(b: Books, p: Text) {
    HasTask(b, p) || p in b.hashes || p in b.plain || p in b.discarded || p in b.skipped || b.flight == Some(p)
  }

  /** A path is in one place only. */
  ghost predicate Once(b: Books, p: Text) {
    && (HasTask(b, p) ==>
          p !in b.hashes && p !in b.plain && p !in b.discarded && p !in b.skipped && b.flight != Some(p))
    && (p in b.hashes ==> p !in b.plain && p !in b.discarded && p !in b.skipped && b.flight != Some(p))
    && (p in b.plain ==> p !in b.discarded && p !in b.skipped && b.flight != Some(p))
    && (p in b.discarded ==> p !in b.skipped && b.flight != Some(p))
    && (p in b.skipped ==> b.flight != Some(p))
    && (forall i, j | i in b.tasks && j in b.tasks && PathOf(b.tasks[i]) == p && PathOf(b.tasks[j]) == p :: i == j)
  }

  ghost predicate ReportsBacked(b: Books, sizes: Sizes, h: Hash) {
    && (forall i | i in b.tasks && b.tasks[i].Done? && b.tasks[i].outcome.Applied? && b.tasks[i].outcome.hash.Some?
          && b.tasks[i].outcome.path !in b.reused ::
          Backed(b.dest, b.streams, sizes, h, b.tasks[i].outcome.path, b.tasks[i].outcome.hash.value))
    && (forall p | p in b.hashes && p !in b.reused :: Backed(b.dest, b.streams, sizes, h, p, b.hashes[p]))
  }

  /** For every path the run touched once: a finished or reported hash is backed by the
      file, and the path is queued, finished, hashed, applied without a hash, dropped,
      skipped or in flight, and only one of these. Under verification nothing is applied
      without a hash. */
  ghost predicate Consistent(b: Books, sizes: Sizes, h: Hash, verify: bool) {
    && ReportsBacked(b, sizes, h) && b.reused <= b.written
    && (forall p :: Placed(b, p) ==> p in b.written)
    && (forall p | p in b.written && p !in b.reused :: Placed(b, p) && Once(b, p))
    && (verify ==> b.plain == {})
    && (verify ==> forall i | i in b.tasks && b.tasks[i].Done? && b.tasks[i].outcome.Applied? :: b.tasks[i].outcome.hash.Some?)
  }

  // ---- what becomes of a path, whatever the order ----

  /** Nothing is going to write the path, unless it is touched again. */
  ghost predicate Settled(b: Books, q: Text) {
    q in b.written && !HasTask(b, q) && b.flight != Some(q)
  }

  /** An apply is on its way to what is due, or has ended with it. */
  ghost predicate OnCourse(t: Task, due: Due, dest: Files, streams: Files, sizes: Sizes, h: Hash, verify: bool) {
    match t
    case Queued(job, luck) => DueOf(job, luck, dest, streams, sizes, verify, h) == due
    case Done(o) => due.outcome == o && AtRest(due, o.path, dest, streams)
  }

  ghost predicate AtRest(due: Due, p: Text, dest: Files, streams: Files) {
    ValueAt(dest, p) == due.file && ValueAt(streams, p) == due.stream
  }

  /** A report is the one that is due. */
  ghost predicate Reported(b: Books, p: Text, o: Outcome) {
    && (p in b.hashes ==> o.Applied? && o.hash == Some(b.hashes[p]))
    && (p in b.plain ==> o.Applied? && o.hash.None?)
    && (p in b.skipped ==> o.Skipped?)
  }

  /** The path and the one its basis is read from were touched once at most. */
  ghost predicate Steady(b: Books, p: Text) {
    p in b.due && p !in b.reused && b.due[p].basis !in b.reused
  }

  ghost predicate FatedAt(b: Books, p: Text, sizes: Sizes, h: Hash, verify: bool)
    requires p in b.due
  {
    && p in b.written && b.flight != Some(p) && (b.due[p].basis != p ==> Settled(b, b.due[p].basis))
    && (forall i | i in b.tasks && PathOf(b.tasks[i]) == p ::
          OnCourse(b.tasks[i], b.due[p], b.dest, b.streams, sizes, h, verify))
    && (!HasTask(b, p) ==> AtRest(b.due[p], p, b.dest, b.streams))
    && Reported(b, p, b.due[p].outcome)
  }

  /** Every steady path ends as it is due, in whatever order the applies end. */
  ghost predicate Fated(b: Books, sizes: Sizes, h: Hash, verify: bool) {
    forall p | Steady(b, p) :: FatedAt(b, p, sizes, h, verify)
  }

  /** What a new apply makes due: its end is fixed when its basis is its own file, or one
      that nothing is going to write. */
  ghost function DueAfter(b: Books, job: Job, luck: Luck, sizes: Sizes, h: Hash, verify: bool): map<Text, Due> {
    if BasisPath(job) == job.path || Settled(b, BasisPath(job))
    then b.due[job.path := DueOf(job, luck, b.dest, b.streams, sizes, verify, h)] else b.due - {job.path}
  }

  ghost function SpawnedBooks(b: Books, id: nat, job: Job, luck: Luck, sizes: Sizes, h: Hash, verify: bool): Books {
    Asked(b.(tasks := b.tasks[id := Queued(job, luck)], due := DueAfter(b, job, luck, sizes, h, verify)), job.path)
  }

  /** The run is asked to write a path: for the first time, or again. */
  function Asked(b: Books, p: Text): Books {
    b.(written := b.written + {p}, reused := if p in b.written then b.reused + {p} else b.reused)
  }

  function Report(b: Books, p: Text, o: Outcome): Books {
    b.(hashes := if o.Applied? && o.hash.Some? then b.hashes[p := o.hash.value] else b.hashes,
       plain := if o.Applied? && o.hash.None? then b.plain + {p} else b.plain,
       skipped := if o.Applied? then b.skipped else b.skipped + [p])
  }

  lemma TaskAdded(b: Books, id: nat, t: Task, p: Text)
    requires id !in b.tasks
    ensures HasTask(b.(tasks := b.tasks[id := t]), p) <==> HasTask(b, p) || PathOf(t) == p
  {
    var b' := b.(tasks := b.tasks[id := t]);
    assert b'.tasks[id] == t;
    assert forall i | i in b.tasks :: b'.tasks[i] == b.tasks[i];
  }

  lemma {:induction false} Spawned(b: Books, sizes: Sizes, h: Hash, verify: bool, id: nat, job: Job, luck: Luck)
    requires Consistent(b, sizes, h, verify) && id !in b.tasks
    ensures Consistent(SpawnedBooks(b, id, job, luck, sizes, h, verify), sizes, h, verify)
  {
    hide Backed, DueAfter;
    var b' := SpawnedBooks(b, id, job, luck, sizes, h, verify);
    forall p
      ensures HasTask(b', p) <==> HasTask(b, p) || job.path == p
    {
      SpawnedTask(b, id, job, luck, sizes, h, verify, p);
    }
    forall p | p in b'.written && p !in b'.reused
      ensures Placed(b', p) && Once(b', p)
    {
      hide HasTask;
      if p != job.path {
        assert Placed(b, p) && Once(b, p);
      } else {
        assert !Placed(b, p);
        NoTaskAt(b, p);
      }
    }
  }

  lemma SpawnedTask(b: Books, id: nat, job: Job, luck: Luck, sizes: Sizes, h: Hash, verify: bool, p: Text)
    requires id !in b.tasks
    ensures HasTask(SpawnedBooks(b, id, job, luck, sizes, h, verify), p) <==> HasTask(b, p) || job.path == p
  {
    hide DueAfter;
    TaskAdded(b, id, Queued(job, luck), p);
    SameTasks(b.(tasks := b.tasks[id := Queued(job, luck)]), SpawnedBooks(b, id, job, luck, sizes, h, verify), p);
  }

  lemma SameTasks(b: Books, b': Books, p: Text)
    requires b'.tasks == b.tasks
    ensures HasTask(b', p) == HasTask(b, p)
  {
  }

  /** Nothing of a path changes but its place among others. */
  ghost predicate Untouched(b: Books, b': Books, p: Text) {
    && p in b'.written && HasTask(b', p) == HasTask(b, p) && b'.flight != Some(p)
    && (forall i | i in b'.tasks && PathOf(b'.tasks[i]) == p :: i in b.tasks && b'.tasks[i] == b.tasks[i])
    && ValueAt(b'.dest, p) == ValueAt(b.dest, p) && ValueAt(b'.streams, p) == ValueAt(b.streams, p)
    && (p in b'.hashes ==> p in b.hashes && b'.hashes[p] == b.hashes[p])
    && (p in b'.plain ==> p in b.plain) && (p in b'.skipped ==> p in b.skipped)
  }

  lemma FateKept(b: Books, b': Books, p: Text, sizes: Sizes, h: Hash, verify: bool)
    requires p in b.due && p in b'.due && b'.due[p] == b.due[p] && FatedAt(b, p, sizes, h, verify)
    requires Untouched(b, b', p) && ValueAt(b'.dest, b.due[p].basis) == ValueAt(b.dest, b.due[p].basis)
    requires b.due[p].basis != p ==> Settled(b', b.due[p].basis)
    ensures FatedAt(b', p, sizes, h, verify)
  {
    hide HasTask, OutcomeOf, Wrote, Streamed;
    forall i | i in b'.tasks && PathOf(b'.tasks[i]) == p
      ensures OnCourse(b'.tasks[i], b.due[p], b'.dest, b'.streams, sizes, h, verify)
    {
      assert OnCourse(b.tasks[i], b.due[p], b.dest, b.streams, sizes, h, verify);
      if b.tasks[i].Queued? {
        DueFrame(b.tasks[i].job, b.tasks[i].luck, b.dest, b.streams, b'.dest, b'.streams, sizes, verify, h);
      }
    }
  }

  lemma {:induction false} SpawnedFate(b: Books, sizes: Sizes, h: Hash, verify: bool, id: nat, job: Job, luck: Luck)
    requires Consistent(b, sizes, h, verify) && Fated(b, sizes, h, verify) && id !in b.tasks
    ensures Fated(SpawnedBooks(b, id, job, luck, sizes, h, verify), sizes, h, verify)
  {
    var b' := SpawnedBooks(b, id, job, luck, sizes, h, verify);
    forall p | Steady(b', p)
      ensures FatedAt(b', p, sizes, h, verify)
    {
      SpawnedTask(b, id, job, luck, sizes, h, verify, p);
      SpawnedTask(b, id, job, luck, sizes, h, verify, b'.due[p].basis);
      hide HasTask, ReportsBacked, DueOf, Once, FatedAt, OnCourse;
      if p == job.path {
        SpawnedOwn(b, sizes, h, verify, id, job, luck);
      } else {
        assert Steady(b, p) && FatedAt(b, p, sizes, h, verify);
        SettledKnown(b, p, sizes, h, verify);
        FateKept(b, b', p, sizes, h, verify);
      }
    }
  }

  lemma SettledKnown(b: Books, p: Text, sizes: Sizes, h: Hash, verify: bool)
    requires p in b.due && FatedAt(b, p, sizes, h, verify)
    ensures p in b.written && b.flight != Some(p) && (b.due[p].basis != p ==> Settled(b, b.due[p].basis))
  {
  }

  lemma SpawnedOwn(b: Books, sizes: Sizes, h: Hash, verify: bool, id: nat, job: Job, luck: Luck)
    requires Consistent(b, sizes, h, verify) && id !in b.tasks
    requires Steady(SpawnedBooks(b, id, job, luck, sizes, h, verify), job.path)
    ensures FatedAt(SpawnedBooks(b, id, job, luck, sizes, h, verify), job.path, sizes, h, verify)
  {
    var b' := SpawnedBooks(b, id, job, luck, sizes, h, verify);
    SpawnedTask(b, id, job, luck, sizes, h, verify, job.path);
    SpawnedTask(b, id, job, luck, sizes, h, verify, BasisPath(job));
    Unplaced(b, sizes, h, verify, job.path);
    NewCourse(job, luck, b.dest, b.streams, sizes, h, verify);
    hide HasTask, Consistent, OnCourse, DueOf, BasisPath;
    NoTaskAt(b, job.path);
  }

  /** A new apply is on its way to what is made due for it. */
  lemma NewCourse(job: Job, luck: Luck, dest: Files, streams: Files, sizes: Sizes, h: Hash, verify: bool)
    ensures var due := DueOf(job, luck, dest, streams, sizes, verify, h);
      OnCourse(Queued(job, luck), due, dest, streams, sizes, h, verify) && due.basis == BasisPath(job)
  {
    hide OutcomeOf, Wrote, Streamed;
  }

  /** A path the run was not asked to write is nowhere. */
  lemma Unplaced(b: Books, sizes: Sizes, h: Hash, verify: bool, p: Text)
    requires Consistent(b, sizes, h, verify) && p !in b.written
    ensures !HasTask(b, p) && p !in b.hashes && p !in b.plain && p !in b.skipped && b.flight != Some(p)
  {
    hide HasTask, ReportsBacked;
    assert !Placed(b, p);
  }

  lemma OwnOutcome(job: Job, luck: Luck, dest: Files, sizes: Sizes, verify: bool, h: Hash)
    ensures OutcomeOf(dest, job, luck, sizes, verify, h).path == job.path
  {
  }

  lemma NoTaskAt(b: Books, p: Text)
    requires !HasTask(b, p)
    ensures forall i | i in b.tasks :: PathOf(b.tasks[i]) != p
  {
  }

  lemma BackedElsewhere(dest: Files, streams: Files, dest': Files, streams': Files, sizes: Sizes, h: Hash, p: Text, d: Digest)
    requires Backed(dest, streams, sizes, h, p, d)
    requires p in dest' && dest'[p] == dest[p] && p in streams' && streams'[p] == streams[p]
    ensures Backed(dest', streams', sizes, h, p, d)
  {
  }

  /** Only `p` may have changed between two pairs of maps. */
  ghost predicate OnlyAt(m: Files, m': Files, p: Text) {
    forall q | q in m && q != p :: q in m' && m'[q] == m[q]
  }

  /** A write to one path leaves every other report backed. */
  lemma {:induction false} OthersBacked(b: Books, dest': Files, streams': Files, sizes: Sizes, h: Hash, p: Text)
    requires ReportsBacked(b, sizes, h) && OnlyAt(b.dest, dest', p) && OnlyAt(b.streams, streams', p)
    requires p !in b.reused ==> p !in b.hashes
    requires p !in b.reused ==> forall i | i in b.tasks && PathOf(b.tasks[i]) == p :: b.tasks[i].Queued?
    ensures ReportsBacked(b.(dest := dest', streams := streams'), sizes, h)
  {
    forall i | i in b.tasks && b.tasks[i].Done? && b.tasks[i].outcome.Applied? && b.tasks[i].outcome.hash.Some?
      && b.tasks[i].outcome.path !in b.reused
      ensures Backed(dest', streams', sizes, h, b.tasks[i].outcome.path, b.tasks[i].outcome.hash.value)
    {
      BackedElsewhere(b.dest, b.streams, dest', streams', sizes, h, b.tasks[i].outcome.path, b.tasks[i].outcome.hash.value);
    }
    forall q | q in b.hashes && q !in b.reused
      ensures Backed(dest', streams', sizes, h, q, b.hashes[q])
    {
      BackedElsewhere(b.dest, b.streams, dest', streams', sizes, h, q, b.hashes[q]);
    }
  }

  lemma TaskKept(b: Books, id: nat, t: Task, p: Text)
    requires id in b.tasks && PathOf(t) == PathOf(b.tasks[id])
    ensures HasTask(b.(tasks := b.tasks[id := t]), p) <==> HasTask(b, p)
  {
    var b' := b.(tasks := b.tasks[id := t]);
    if HasTask(b, p) {
      var i :| i in b.tasks && PathOf(b.tasks[i]) == p;
      assert PathOf(b'.tasks[i]) == p;
    }
    if HasTask(b', p) {
      var i :| i in b'.tasks && PathOf(b'.tasks[i]) == p;
      assert PathOf(b.tasks[i]) == p;
    }
  }

  /** A spawned apply ends: every other report stays backed, its own is. */
  lemma {:induction false} Ran(
    b: Books, dest': Files, streams': Files, sizes: Sizes, h: Hash, verify: bool, id: nat, o: Outcome)
    requires Consistent(b, sizes, h, verify) && id in b.tasks && b.tasks[id].Queued? && o.path == b.tasks[id].job.path
    requires OnlyAt(b.dest, dest', o.path) && OnlyAt(b.streams, streams', o.path)
    requires o.Applied? && o.hash.Some? ==> Backed(dest', streams', sizes, h, o.path, o.hash.value)
    requires o.Applied? && verify ==> o.hash.Some?
    ensures Consistent(b.(tasks := b.tasks[id := Done(o)], dest := dest', streams := streams'), sizes, h, verify)
  {
    hide Backed, OnlyAt;
    var p, b' := o.path, b.(tasks := b.tasks[id := Done(o)], dest := dest', streams := streams');
    if p !in b.reused {
      TaskAlone(b, sizes, h, verify, id, p);
    }
    OthersBacked(b, dest', streams', sizes, h, p);
    assert ReportsBacked(b', sizes, h);
    hide ReportsBacked;
    forall q
      ensures Placed(b', q) == Placed(b, q) && Once(b', q) == Once(b, q)
    {
      RanPlace(b, dest', streams', id, o, q);
    }
    hide Placed, Once;
  }

  lemma RanPlace(b: Books, dest': Files, streams': Files, id: nat, o: Outcome, q: Text)
    requires id in b.tasks && o.path == PathOf(b.tasks[id])
    ensures var b' := b.(tasks := b.tasks[id := Done(o)], dest := dest', streams := streams');
      Placed(b', q) == Placed(b, q) && Once(b', q) == Once(b, q)
  {
    var b' := b.(tasks := b.tasks[id := Done(o)], dest := dest', streams := streams');
    TaskKept(b, id, Done(o), q);
    SameTasks(b.(tasks := b.tasks[id := Done(o)]), b', q);
    hide HasTask;
    forall i | i in b'.tasks
      ensures i in b.tasks && PathOf(b'.tasks[i]) == PathOf(b.tasks[i])
    {
    }
    assert b'.tasks.Keys == b.tasks.Keys;
    assert forall i | i in b.tasks :: PathOf(b'.tasks[i]) == PathOf(b.tasks[i]);
  }

  /** A path touched once that a task writes is nowhere else. */
  lemma TaskAlone(b: Books, sizes: Sizes, h: Hash, verify: bool, id: nat, p: Text)
    requires Consistent(b, sizes, h, verify) && p !in b.reused && id in b.tasks && PathOf(b.tasks[id]) == p
    ensures p in b.written && p !in b.hashes && p !in b.plain && p !in b.skipped
    ensures forall i | i in b.tasks && PathOf(b.tasks[i]) == p :: i == id
  {
    hide ReportsBacked;
    assert HasTask(b, p);
    assert Placed(b, p);
    assert Once(b, p);
  }

  /** A path touched once that is in flight is nowhere else. */
  lemma FlightAlone(b: Books, sizes: Sizes, h: Hash, verify: bool, p: Text)
    requires Consistent(b, sizes, h, verify) && p !in b.reused && b.flight == Some(p)
    ensures p in b.written && !HasTask(b, p) && p !in b.hashes && p !in b.plain && p !in b.skipped
  {
    hide ReportsBacked, HasTask;
    assert Placed(b, p);
    assert Once(b, p);
  }

  /** An apply that ends does what is due, and no other path's fate changes. */
  lemma {:induction false} RanFate(b: Books, sizes: Sizes, h: Hash, verify: bool, id: nat, job: Job, luck: Luck)
    requires Consistent(b, sizes, h, verify) && Fated(b, sizes, h, verify)
    requires id in b.tasks && b.tasks[id] == Queued(job, luck)
    ensures Fated(RanBooks(b, sizes, h, verify, id, job, luck), sizes, h, verify)
  {
    var b' := RanBooks(b, sizes, h, verify, id, job, luck);
    assert PathOf(b.tasks[id]) == job.path && HasTask(b, job.path);
    OwnOutcome(job, luck, b.dest, sizes, verify, h);
    forall p | Steady(b', p)
      ensures FatedAt(b', p, sizes, h, verify)
    {
      assert Steady(b, p) && FatedAt(b, p, sizes, h, verify);
      SettledKnown(b, p, sizes, h, verify);
      TaskKept(b, id, b'.tasks[id], p);
      TaskKept(b, id, b'.tasks[id], b.due[p].basis);
      hide HasTask, ReportsBacked, FatedAt, OnCourse;
      SameTasks(b.(tasks := b'.tasks), b', p);
      SameTasks(b.(tasks := b'.tasks), b', b.due[p].basis);
      if p == job.path {
        RanOwn(b, sizes, h, verify, id, job, luck);
      } else {
        ElsewhereSame(b, job, luck, h, p);
        ElsewhereSame(b, job, luck, h, b.due[p].basis);
        FateKept(b, b', p, sizes, h, verify);
      }
    }
  }

  ghost function RanBooks(b: Books, sizes: Sizes, h: Hash, verify: bool, id: nat, job: Job, luck: Luck): Books {
    b.(tasks := b.tasks[id := Done(OutcomeOf(b.dest, job, luck, sizes, verify, h))],
       dest := Wrote(b.dest, job, luck, h), streams := Streamed(b.dest, b.streams, job, luck, h))
  }

  lemma ElsewhereSame(b: Books, job: Job, luck: Luck, h: Hash, p: Text)
    ensures p != job.path ==> ValueAt(Wrote(b.dest, job, luck, h), p) == ValueAt(b.dest, p)
    ensures p != job.path ==> ValueAt(Streamed(b.dest, b.streams, job, luck, h), p) == ValueAt(b.streams, p)
  {
    hide Fit, Commits, Patched;
  }

  lemma RanOwn(b: Books, sizes: Sizes, h: Hash, verify: bool, id: nat, job: Job, luck: Luck)
    requires Consistent(b, sizes, h, verify) && Steady(b, job.path) && FatedAt(b, job.path, sizes, h, verify)
    requires id in b.tasks && b.tasks[id] == Queued(job, luck)
    requires var b' := RanBooks(b, sizes, h, verify, id, job, luck);
      HasTask(b', job.path) && (HasTask(b', b.due[job.path].basis) == HasTask(b, b.due[job.path].basis))
    ensures FatedAt(RanBooks(b, sizes, h, verify, id, job, luck), job.path, sizes, h, verify)
  {
    var p, b' := job.path, RanBooks(b, sizes, h, verify, id, job, luck);
    OwnOutcome(job, luck, b.dest, sizes, verify, h);
    TaskAlone(b, sizes, h, verify, id, p);
    hide HasTask, Consistent, OutcomeOf, Wrote, Streamed, OnCourse;
    Arrives(job, luck, b.due[p], b.dest, b.streams, sizes, h, verify);
  }

  lemma Arrives(job: Job, luck: Luck, due: Due, dest: Files, streams: Files, sizes: Sizes, h: Hash, verify: bool)
    requires OnCourse(Queued(job, luck), due, dest, streams, sizes, h, verify)
    ensures OnCourse(Done(OutcomeOf(dest, job, luck, sizes, verify, h)), due,
      Wrote(dest, job, luck, h), Streamed(dest, streams, job, luck, h), sizes, h, verify)
  {
    OwnOutcome(job, luck, dest, sizes, verify, h);
    hide OutcomeOf, Wrote, Streamed;
  }

  lemma TaskGone(b: Books, id: nat, p: Text)
    requires id in b.tasks
    ensures HasTask(b.(tasks := b.tasks - {id}), p) ==> HasTask(b, p)
    ensures PathOf(b.tasks[id]) != p ==> (HasTask(b.(tasks := b.tasks - {id}), p) <==> HasTask(b, p))
    ensures PathOf(b.tasks[id]) == p && Once(b, p) ==> !HasTask(b.(tasks := b.tasks - {id}), p)
  {
    var b' := b.(tasks := b.tasks - {id});
    assert forall i | i in b'.tasks :: i in b.tasks && b'.tasks[i] == b.tasks[i];
    if HasTask(b, p) && PathOf(b.tasks[id]) != p {
      var i :| i in b.tasks && PathOf(b.tasks[i]) == p;
      assert PathOf(b'.tasks[i]) == p;
    }
  }

  /** A finished apply is joined and its outcome reported. */
  lemma {:induction false} Folded(b: Books, sizes: Sizes, h: Hash, verify: bool, id: nat)
    requires Consistent(b, sizes, h, verify) && id in b.tasks && b.tasks[id].Done?
    ensures Consistent(Report(b.(tasks := b.tasks - {id}), PathOf(b.tasks[id]), b.tasks[id].outcome), sizes, h, verify)
  {
    hide Backed;
    var o := b.tasks[id].outcome;
    var p, b' := o.path, Report(b.(tasks := b.tasks - {id}), o.path, o);
    assert HasTask(b, p) && Placed(b, p);
    forall q
      ensures Placed(b', q) ==> q in b'.written
      ensures q in b'.written && q !in b'.reused ==> Placed(b', q) && Once(b', q)
    {
      TaskGone(b, id, q);
      assert Placed(b, q) ==> q in b.written;
      assert q in b.written && q !in b.reused ==> Placed(b, q) && Once(b, q);
      hide HasTask;
    }
  }

  /** A finished apply leaves the books: its report is the one that is due. */
  lemma {:induction false} FoldedFate(b: Books, sizes: Sizes, h: Hash, verify: bool, id: nat)
    requires Consistent(b, sizes, h, verify) && Fated(b, sizes, h, verify) && id in b.tasks && b.tasks[id].Done?
    ensures Fated(Report(b.(tasks := b.tasks - {id}), PathOf(b.tasks[id]), b.tasks[id].outcome), sizes, h, verify)
  {
    var gone, p := b.(tasks := b.tasks - {id}), PathOf(b.tasks[id]);
    var b' := Report(gone, p, b.tasks[id].outcome);
    forall q | Steady(b, q)
      ensures FatedAt(b', q, sizes, h, verify)
    {
      LeftTask(b, b', id, q, sizes, h, verify);
      if p == q {
        JoinedOwn(b, sizes, h, verify, id);
      } else {
        SettledKnown(b, q, sizes, h, verify);
        hide HasTask, Consistent, OnCourse, FatedAt;
        FateKept(b, b', q, sizes, h, verify);
      }
    }
  }

  /** Its report dropped, the file still is as it is due. */
  lemma {:induction false} DiscardedFate(b: Books, sizes: Sizes, h: Hash, verify: bool, id: nat)
    requires Consistent(b, sizes, h, verify) && Fated(b, sizes, h, verify) && id in b.tasks && b.tasks[id].Done?
    ensures Fated(b.(tasks := b.tasks - {id}, discarded := b.discarded + {PathOf(b.tasks[id])}), sizes, h, verify)
  {
    var p := PathOf(b.tasks[id]);
    var b' := b.(tasks := b.tasks - {id}, discarded := b.discarded + {p});
    forall q | Steady(b, q)
      ensures FatedAt(b', q, sizes, h, verify)
    {
      LeftTask(b, b', id, q, sizes, h, verify);
      if p == q {
        JoinedOwn(b, sizes, h, verify, id);
      } else {
        SettledKnown(b, q, sizes, h, verify);
        hide HasTask, Consistent, OnCourse, FatedAt;
        FateKept(b, b', q, sizes, h, verify);
      }
    }
  }

  lemma LeftTask(b: Books, b': Books, id: nat, q: Text, sizes: Sizes, h: Hash, verify: bool)
    requires Consistent(b, sizes, h, verify) && Fated(b, sizes, h, verify) && Steady(b, q)
    requires id in b.tasks && b'.tasks == b.tasks - {id}
    ensures FatedAt(b, q, sizes, h, verify) && (HasTask(b', b.due[q].basis) ==> HasTask(b, b.due[q].basis))
    ensures PathOf(b.tasks[id]) != q ==> HasTask(b', q) == HasTask(b, q)
    ensures PathOf(b.tasks[id]) == q ==> !HasTask(b', q)
  {
    assert FatedAt(b, q, sizes, h, verify);
    if PathOf(b.tasks[id]) == q {
      TaskAlone(b, sizes, h, verify, id, q);
    }
    hide Consistent, OnCourse;
    TaskGone(b, id, q);
    TaskGone(b, id, b.due[q].basis);
    SameTasks(b.(tasks := b.tasks - {id}), b', q);
    SameTasks(b.(tasks := b.tasks - {id}), b', b.due[q].basis);
  }

  lemma JoinedOwn(b: Books, sizes: Sizes, h: Hash, verify: bool, id: nat)
    requires Consistent(b, sizes, h, verify) && id in b.tasks && b.tasks[id].Done? && Steady(b, PathOf(b.tasks[id]))
    requires FatedAt(b, PathOf(b.tasks[id]), sizes, h, verify)
    ensures var p := PathOf(b.tasks[id]);
      && b.due[p].outcome == b.tasks[id].outcome && AtRest(b.due[p], p, b.dest, b.streams)
      && p !in b.hashes && p !in b.plain && p !in b.skipped
  {
    TaskAlone(b, sizes, h, verify, id, PathOf(b.tasks[id]));
    hide Consistent;
    assert OnCourse(b.tasks[id], b.due[PathOf(b.tasks[id])], b.dest, b.streams, sizes, h, verify);
  }

  /** A finished apply is joined and its outcome dropped. */
  lemma {:induction false} Discarded(b: Books, sizes: Sizes, h: Hash, verify: bool, id: nat)
    requires Consistent(b, sizes, h, verify) && id in b.tasks
    ensures Consistent(b.(tasks := b.tasks - {id}, discarded := b.discarded + {PathOf(b.tasks[id])}), sizes, h, verify)
    ensures var b' := b.(tasks := b.tasks - {id}, discarded := b.discarded + {PathOf(b.tasks[id])});
      PathOf(b.tasks[id]) !in b.reused ==> !HasTask(b', PathOf(b.tasks[id]))
  {
    hide Backed;
    var p := PathOf(b.tasks[id]);
    var b' := b.(tasks := b.tasks - {id}, discarded := b.discarded + {p});
    assert HasTask(b, p) && Placed(b, p);
    TaskGone(b, id, p);
    forall q
      ensures Placed(b', q) ==> q in b'.written
      ensures q in b'.written && q !in b'.reused ==> Placed(b', q) && Once(b', q)
    {
      TaskGone(b, id, q);
      assert Placed(b, q) ==> q in b.written;
      assert q in b.written && q !in b.reused ==> Placed(b, q) && Once(b, q);
      hide HasTask;
    }
  }

  ghost function StartedBooks(b: Books, p: Text): Books {
    Asked(b, p).(flight := Some(p), due := b.due - {p})
  }

  ghost function RefusedBooks(b: Books, p: Text): Books {
    Asked(b, p).(skipped := b.skipped + [p], due := b.due[p := Due(Skipped(p), ValueAt(b.dest, p), ValueAt(b.streams, p), p)])
  }

  lemma {:induction false} StartedFate(b: Books, sizes: Sizes, h: Hash, verify: bool, p: Text)
    requires Consistent(b, sizes, h, verify) && Fated(b, sizes, h, verify) && b.flight.None?
    ensures Fated(StartedBooks(b, p), sizes, h, verify)
  {
    var b' := StartedBooks(b, p);
    forall q | Steady(b', q)
      ensures FatedAt(b', q, sizes, h, verify)
    {
      AskedKept(b, b', p, q, sizes, h, verify);
    }
  }

  lemma {:induction false} RefusedFate(b: Books, sizes: Sizes, h: Hash, verify: bool, p: Text)
    requires Consistent(b, sizes, h, verify) && Fated(b, sizes, h, verify) && b.flight.None?
    ensures Fated(RefusedBooks(b, p), sizes, h, verify)
  {
    var b' := RefusedBooks(b, p);
    forall q | Steady(b', q)
      ensures FatedAt(b', q, sizes, h, verify)
    {
      if q != p {
        AskedKept(b, b', p, q, sizes, h, verify);
      } else {
        assert !HasTask(b, q) && !Placed(b, q);
        SameTasks(b, b', q);
        NoTaskAt(b', q);
        hide HasTask, Consistent, OnCourse;
      }
    }
  }

  /** Starting a chunked file leaves the fate of every other path. */
  lemma AskedKept(b: Books, b': Books, p: Text, q: Text, sizes: Sizes, h: Hash, verify: bool)
    requires Fated(b, sizes, h, verify) && b.flight.None?
    requires b' == StartedBooks(b, p) || b' == RefusedBooks(b, p)
    requires q != p && Steady(b', q)
    ensures FatedAt(b', q, sizes, h, verify)
  {
    assert Steady(b, q) && FatedAt(b, q, sizes, h, verify);
    SameTasks(b, b', q);
    SameTasks(b, b', b.due[q].basis);
    SettledKnown(b, q, sizes, h, verify);
    hide HasTask, OnCourse, FatedAt;
    FateKept(b, b', q, sizes, h, verify);
  }

  /** The chunked file starts: its path is in flight, or skipped when staging failed. */
  lemma {:induction false} Started(b: Books, sizes: Sizes, h: Hash, verify: bool, p: Text)
    requires Consistent(b, sizes, h, verify) && b.flight.None?
    ensures Consistent(StartedBooks(b, p), sizes, h, verify) && Consistent(RefusedBooks(b, p), sizes, h, verify)
  {
    hide Backed;
    AskedPlaces(b, StartedBooks(b, p), p, sizes, h, verify);
    AskedPlaces(b, RefusedBooks(b, p), p, sizes, h, verify);
    hide Placed, Once;
  }

  lemma AskedPlaces(b: Books, b': Books, p: Text, sizes: Sizes, h: Hash, verify: bool)
    requires Consistent(b, sizes, h, verify) && b.flight.None?
    requires b' == StartedBooks(b, p) || b' == RefusedBooks(b, p)
    ensures forall q :: Placed(b', q) ==> q in b'.written
    ensures forall q | q in b'.written && q !in b'.reused :: Placed(b', q) && Once(b', q)
  {
    hide ReportsBacked;
    forall q
      ensures Placed(b', q) ==> q in b'.written
      ensures q in b'.written && q !in b'.reused ==> Placed(b', q) && Once(b', q)
    {
      SameTasks(b, b', q);
      assert Placed(b, q) ==> q in b.written;
      assert q in b.written && q !in b.reused ==> Placed(b, q) && Once(b, q);
      if q == p && q !in b.written {
        NoTaskAt(b, q);
      }
      hide HasTask;
    }
  }

  ghost function EndedBooks(b: Books, content: seq<byte>, stream: seq<byte>, o: Outcome): Books {
    Report(b.(flight := None, dest := b.dest[o.path := content], streams := b.streams[o.path := stream],
      due := b.due[o.path := Due(o, Some(content), Some(stream), o.path)]), o.path, o)
  }

  lemma EndedOwn(b: Books, content: seq<byte>, stream: seq<byte>, sizes: Sizes, h: Hash, verify: bool, o: Outcome)
    requires Consistent(b, sizes, h, verify) && b.flight == Some(o.path) && o.path !in b.reused
    ensures FatedAt(EndedBooks(b, content, stream, o), o.path, sizes, h, verify)
  {
    var p, b' := o.path, EndedBooks(b, content, stream, o);
    FlightAlone(b, sizes, h, verify, p);
    SameTasks(b, b', p);
    hide HasTask, Consistent, OnCourse;
    NoTaskAt(b, p);
  }

  lemma {:induction false} EndedFate(
    b: Books, content: seq<byte>, stream: seq<byte>, sizes: Sizes, h: Hash, verify: bool, o: Outcome)
    requires Consistent(b, sizes, h, verify) && Fated(b, sizes, h, verify) && b.flight == Some(o.path)
    ensures Fated(EndedBooks(b, content, stream, o), sizes, h, verify)
  {
    var p, b' := o.path, EndedBooks(b, content, stream, o);
    forall q | Steady(b', q)
      ensures FatedAt(b', q, sizes, h, verify)
    {
      assert HasTask(b', q) == HasTask(b, q);
      if q == p {
        EndedOwn(b, content, stream, sizes, h, verify, o);
      } else {
        assert HasTask(b', b.due[q].basis) == HasTask(b, b.due[q].basis);
        assert Steady(b, q) && FatedAt(b, q, sizes, h, verify);
        SettledKnown(b, q, sizes, h, verify);
        hide HasTask, ReportsBacked, OnCourse, Once, FatedAt;
        FateKept(b, b', q, sizes, h, verify);
      }
    }
  }

  /** The chunked file ends: committed, then hashed or skipped. */
  lemma {:induction false} Ended(
    b: Books, content: seq<byte>, stream: seq<byte>, sizes: Sizes, h: Hash, verify: bool, o: Outcome)
    requires Consistent(b, sizes, h, verify) && b.flight == Some(o.path)
    requires o.Applied? && o.hash.Some? ==>
      Backed(b.dest[o.path := content], b.streams[o.path := stream], sizes, h, o.path, o.hash.value)
    requires o.Applied? && verify ==> o.hash.Some?
    ensures Consistent(EndedBooks(b, content, stream, o), sizes, h, verify)
  {
    hide Backed;
    var p, b' := o.path, EndedBooks(b, content, stream, o);
    if p !in b.reused {
      FlightAlone(b, sizes, h, verify, p);
      NoTaskAt(b, p);
    }
    assert Placed(b, p);
    hide OnlyAt;
    OthersBacked(b, b.dest[p := content], b.streams[p := stream], sizes, h, p);
    forall q
      ensures Placed(b', q) ==> q in b'.written
      ensures q in b'.written && q !in b'.reused ==> Placed(b', q) && Once(b', q)
    {
      assert HasTask(b', q) == HasTask(b, q);
      assert Placed(b, q) ==> q in b.written;
      assert q in b.written && q !in b.reused ==> Placed(b, q) && Once(b, q);
      hide HasTask;
    }
  }

  /** Deleting keeps the books, if deleting what the run wrote counts as touching it
      again. */
  lemma {:induction false} Deleted(b: Books, paths: set<Text>, sizes: Sizes, h: Hash, verify: bool)
    requires Consistent(b, sizes, h, verify)
    ensures Consistent(b.(dest := b.dest - paths, reused := b.reused + paths * b.written), sizes, h, verify)
  {
    var b' := b.(dest := b.dest - paths, reused := b.reused + paths * b.written);
    forall p
      ensures Placed(b', p) == Placed(b, p) && Once(b', p) == Once(b, p)
    {
      assert HasTask(b', p) == HasTask(b, p);
    }
    forall i | i in b.tasks && b.tasks[i].Done? && b.tasks[i].outcome.Applied? && b.tasks[i].outcome.hash.Some?
      && b.tasks[i].outcome.path !in b'.reused
      ensures Backed(b'.dest, b.streams, sizes, h, b.tasks[i].outcome.path, b.tasks[i].outcome.hash.value)
    {
      var q := b.tasks[i].outcome.path;
      assert PathOf(b.tasks[i]) == q && HasTask(b, q) && Placed(b, q);
      BackedElsewhere(b.dest, b.streams, b'.dest, b.streams, sizes, h, q, b.tasks[i].outcome.hash.value);
    }
    forall q | q in b.hashes && q !in b'.reused
      ensures Backed(b'.dest, b.streams, sizes, h, q, b.hashes[q])
    {
      assert Placed(b, q);
      BackedElsewhere(b.dest, b.streams, b'.dest, b.streams, sizes, h, q, b.hashes[q]);
    }
  }

  lemma {:induction false} DeletedFate(b: Books, paths: set<Text>, sizes: Sizes, h: Hash, verify: bool)
    requires Consistent(b, sizes, h, verify) && Fated(b, sizes, h, verify)
    ensures Fated(b.(dest := b.dest - paths, reused := b.reused + paths * b.written), sizes, h, verify)
  {
    var b' := b.(dest := b.dest - paths, reused := b.reused + paths * b.written);
    forall p | Steady(b', p)
      ensures FatedAt(b', p, sizes, h, verify)
    {
      assert HasTask(b', p) == HasTask(b, p) && HasTask(b', b.due[p].basis) == HasTask(b, b.due[p].basis);
      assert Steady(b, p) && FatedAt(b, p, sizes, h, verify);
      SettledKnown(b, p, sizes, h, verify);
      hide HasTask, ReportsBacked, OnCourse, Once, FatedAt;
      FateKept(b, b', p, sizes, h, verify);
    }
  }
}
