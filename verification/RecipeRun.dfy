/** A run of delta recipes whose applies end in any order: what the Ack says and what the
    destination holds afterwards. */
module RecipeRun {
  import opened Bytes
  import opened DeltaOps
  import opened FrameCodec
  import opened Patch
  import opened Sparse
  import opened Applies
  import opened ReceiverState

  /** Paths the run was not asked to write are as they were. */
  ghost predicate Unasked(written: set<Text>, dest: Files, dest': Files, streams: Files, streams': Files) {
    forall q | q !in written :: ValueAt(dest', q) == ValueAt(dest, q) && ValueAt(streams', q) == ValueAt(streams, q)
  }

  lemma RunUnasked(
    t: Task, written: set<Text>, dest: Files, dest': Files, streams: Files, streams': Files, h: Hash)
    requires PathOf(t) in written && Unasked(written, dest, dest', streams, streams')
    ensures Unasked(written, dest, LeftBy(t, dest', h), streams, ReceivedBy(t, dest', streams', h))
  {
    hide Fit, Commits, Patched;
  }

  /** Any applies end, in any order. */
  method Background(state: ApplyState, events: seq<nat>, ghost dest: Files, ghost streams: Files)
    requires state.Valid() && Unasked(state.written, dest, state.dest, streams, state.streams)
    modifies state`tasks, state`dest, state`streams
    ensures state.Valid() && Unasked(state.written, dest, state.dest, streams, state.streams)
  {
    hide Consistent, Fated, Held, Below, LeftBy, ReceivedBy, Unasked, EndOf;
    for i := 0 to |events|
      invariant state.Valid() && Unasked(state.written, dest, state.dest, streams, state.streams)
    {
      if events[i] in state.tasks {
        HandleKnown(state.View(), state.sizes, state.h, state.verify);
        RunUnasked(state.tasks[events[i]], state.written, dest, state.dest, streams, state.streams, state.h);
        state.RunTask(events[i]);
      }
    }
  }

  /** Distinct paths, each new to the run and patched from its own file or from nothing. */
  ghost predicate Fresh(jobs: seq<Job>, written: set<Text>) {
    && (forall i, j | 0 <= i < j < |jobs| :: jobs[i].path != jobs[j].path)
    && forall k | 0 <= k < |jobs| :: jobs[k].basisPath.None? && jobs[k].path !in written
  }

  /** The first `n` recipes have their end on the destination of the start fixed. */
  ghost predicate Promised(
    due: map<Text, Due>, jobs: seq<Job>, lucks: seq<Luck>, n: nat, dest: Files, streams: Files, sizes: Sizes,
    verify: bool, h: Hash)
    requires n <= |jobs| == |lucks|
  {
    forall k | 0 <= k < n ::
      jobs[k].path in due && due[jobs[k].path] == DueOf(jobs[k], lucks[k], dest, streams, sizes, verify, h)
  }

  lemma PromisedNext(
    due: map<Text, Due>, due': map<Text, Due>, jobs: seq<Job>, lucks: seq<Luck>, n: nat, written: set<Text>, dest: Files,
    dest': Files, streams: Files, streams': Files, sizes: Sizes, verify: bool, h: Hash)
    requires n < |jobs| == |lucks| && Fresh(jobs, written) && Promised(due, jobs, lucks, n, dest, streams, sizes, verify, h)
    requires Unasked(written + Paths(jobs[..n]), dest, dest', streams, streams')
    requires due' == due[jobs[n].path := DueOf(jobs[n], lucks[n], dest', streams', sizes, verify, h)]
    ensures Promised(due', jobs, lucks, n + 1, dest, streams, sizes, verify, h)
  {
    hide OutcomeOf, Wrote, Streamed, DueOf;
    assert jobs[n].path !in Paths(jobs[..n]);
    DueFrame(jobs[n], lucks[n], dest, streams, dest', streams', sizes, verify, h);
  }

  /** The file a recipe without a basis path is patched from. */
  function OwnFile(job: Job, dest: Files): seq<byte> {
    if job.basisSize > 0 && job.path in dest then dest[job.path] else []
  }

  /** The recipe makes its file: the copies lie in the announced and in the actual basis,
      a checksum matches, and staging and commit work. */
  ghost predicate Makes(job: Job, luck: Luck, basis: seq<byte>, h: Hash) {
    && luck.staged && luck.committed && Validated(job.ops, job.basisSize)
    && InBounds(Effective(job.ops), |basis|)
    && (job.checksum.Some? ==> job.checksum.value == h(Replay(Effective(job.ops), basis)))
  }

  /** With source metadata at hand it was applied, and under verification the committed file
      still has its size and times. */
  predicate Confirmed(job: Job, luck: Luck, sizes: Sizes, verify: bool) {
    job.path in sizes ==> luck.stamped && (verify ==> luck.still && job.sourceSize == sizes[job.path])
  }

  /** What the Ack and the destination say of a path is what its recipe does to the
      destination of the start. */
  ghost predicate Told(
    ack: Ack, plain: set<Text>, dest': Files, job: Job, luck: Luck, dest: Files, sizes: Sizes, verify: bool, h: Hash)
  {
    var p, basis := job.path, OwnFile(job, dest);
    var good := Makes(job, luck, basis, h) && Confirmed(job, luck, sizes, verify);
    && ValueAt(dest', p) == (if Makes(job, luck, basis, h)
                             then Some(Fit(Replay(Effective(job.ops), basis), job.sourceSize)) else ValueAt(dest, p))
    && (p in ack.hashes <==> good && verify)
    && (p in ack.hashes ==> ack.hashes[p] == h(Replay(Effective(job.ops), basis)))
    && (p in plain <==> good && !verify) && (p in ack.skipped <==> !good)
  }

  lemma ToldFrom(b: Books, job: Job, luck: Luck, dest: Files, streams: Files, sizes: Sizes, verify: bool, h: Hash)
    requires job.path in b.due && b.due[job.path] == DueOf(job, luck, dest, streams, sizes, verify, h)
    requires Ends(b, job.path) && job.path !in b.discarded && job.basisPath.None?
    ensures Told(Ack(b.skipped, b.hashes), b.plain, b.dest, job, luck, dest, sizes, verify, h)
  {
    hide Fit, Effective, Replay;
    var basis := OwnFile(job, dest);
    assert basis == BasisOf(job, dest);
    if InBounds(Effective(job.ops), |basis|) {
      ReplayLength(Effective(job.ops), basis);
    }
    FitSame(if Makes(job, luck, basis, h) then Replay(Effective(job.ops), basis) else [], job.sourceSize);
  }

  lemma NewPaths(b: Books, sizes: Sizes, h: Hash, verify: bool, jobs: seq<Job>)
    requires Consistent(b, sizes, h, verify) && Fresh(jobs, b.written)
    ensures forall k | 0 <= k < |jobs| :: jobs[k].path !in b.reused && jobs[k].path !in b.discarded
  {
    hide HasTask, ReportsBacked;
    forall k | 0 <= k < |jobs|
      ensures jobs[k].path !in b.reused && jobs[k].path !in b.discarded
    {
      assert !Placed(b, jobs[k].path);
    }
  }

  lemma Nothing(
    due: map<Text, Due>, jobs: seq<Job>, lucks: seq<Luck>, written: set<Text>, dest: Files, streams: Files, sizes: Sizes,
    verify: bool, h: Hash)
    requires |lucks| == |jobs|
    ensures Promised(due, jobs, lucks, 0, dest, streams, sizes, verify, h) && Unasked(written, dest, dest, streams, streams)
  {
  }

  lemma Kept(
    due: map<Text, Due>, jobs: seq<Job>, lucks: seq<Luck>, k: nat, dest: Files, streams: Files, sizes: Sizes,
    verify: bool, h: Hash)
    requires k < |jobs| == |lucks| && Promised(due, jobs, lucks, |jobs|, dest, streams, sizes, verify, h)
    requires jobs[k].basisPath.None?
    ensures jobs[k].path in due && due[jobs[k].path] == DueOf(jobs[k], lucks[k], dest, streams, sizes, verify, h)
    ensures due[jobs[k].path].basis == jobs[k].path
  {
    hide OutcomeOf, Wrote, Streamed;
  }

  lemma InPaths(jobs: seq<Job>, k: nat)
    requires k < |jobs|
    ensures jobs[k].path in Paths(jobs)
  {
  }

  lemma NotYet(jobs: seq<Job>, written: set<Text>, i: nat)
    requires i < |jobs| && Fresh(jobs, written)
    ensures jobs[i].path !in written + Paths(jobs[..i])
  {
  }

  lemma MoreAsked(written: set<Text>, p: Text, dest: Files, dest': Files, streams: Files, streams': Files)
    requires Unasked(written, dest, dest', streams, streams')
    ensures Unasked(written + {p}, dest, dest', streams, streams')
  {
  }

  /** The next recipe of the run. */
  method RecipeNext(
    state: ApplyState, jobs: seq<Job>, lucks: seq<Luck>, i: nat, ghost written: set<Text>, ghost dest: Files,
    ghost streams: Files)
    requires state.Valid() && i < |jobs| == |lucks| && Fresh(jobs, written)
    requires state.written == written + Paths(jobs[..i])
    requires Unasked(state.written, dest, state.dest, streams, state.streams)
    requires Promised(state.due, jobs, lucks, i, dest, streams, state.sizes, state.verify, state.h)
    modifies state`tasks, state`nextHandle, state`dest, state`streams, state`applied, state`written, state`reused,
      state`discarded, state`due
    ensures state.Valid() && state.written == written + Paths(jobs[..i + 1])
    ensures state.reused == old(state.reused) && state.discarded == old(state.discarded)
    ensures Unasked(state.written, dest, state.dest, streams, state.streams)
    ensures Promised(state.due, jobs, lucks, i + 1, dest, streams, state.sizes, state.verify, state.h)
  {
    hide Consistent, Fated, Held, Below, HasTask, Paths, Unasked, Promised, DueOf, LeftBy, ReceivedBy, Repeated;
    ghost var due := state.due;
    PathsSnoc(jobs, i);
    NotYet(jobs, written, i);
    MoreAsked(state.written, jobs[i].path, dest, state.dest, streams, state.streams);
    PromisedNext(due, due[jobs[i].path := DueOf(jobs[i], lucks[i], state.dest, state.streams, state.sizes, state.verify,
      state.h)], jobs, lucks, i, written, dest, state.dest, streams, state.streams, state.sizes, state.verify, state.h);
    state.HandleDeltaRecipe(jobs[i], lucks[i]);
  }

  /** A run of recipes for new paths. Whatever happened before, and however the applies
      end between the recipes, each path is reported and left exactly as its own recipe
      does on the destination of the start: hashed, applied without a hash or skipped. */
  method RunRecipes(state: ApplyState, jobs: seq<Job>, lucks: seq<Luck>, events: nat -> seq<nat>) returns (ack: Ack)
    requires state.Valid() && |lucks| == |jobs| && Fresh(jobs, state.written)
    modifies state
    ensures state.Valid()
    ensures forall k | 0 <= k < |jobs| ::
      Told(ack, state.plain, state.dest, jobs[k], lucks[k], old(state.dest), state.sizes, state.verify, state.h)
  {
    hide Consistent, Fated, Held, Below, HasTask, Paths, Unasked, Promised, Told, DueOf, Ends, Once, Backed;
    ghost var dest, streams := state.dest, state.streams;
    NewPaths(state.View(), state.sizes, state.h, state.verify, jobs);
    NoPaths(jobs);
    Nothing(state.due, jobs, lucks, state.written, dest, streams, state.sizes, state.verify, state.h);
    for i := 0 to |jobs|
      invariant state.Valid() && state.written == old(state.written) + Paths(jobs[..i])
      invariant state.reused == old(state.reused) && state.discarded == old(state.discarded)
      invariant Unasked(state.written, dest, state.dest, streams, state.streams)
      invariant Promised(state.due, jobs, lucks, i, dest, streams, state.sizes, state.verify, state.h)
    {
      Background(state, events(i), dest, streams);
      RecipeNext(state, jobs, lucks, i, old(state.written), dest, streams);
    }
    assert jobs[..|jobs|] == jobs;
    Background(state, events(|jobs|), dest, streams);
    ack := state.HandleDone();
    forall k | 0 <= k < |jobs|
      ensures Told(ack, state.plain, state.dest, jobs[k], lucks[k], dest, state.sizes, state.verify, state.h)
    {
      Kept(state.due, jobs, lucks, k, dest, streams, state.sizes, state.verify, state.h);
      InPaths(jobs, k);
      assert Steady(state.View(), jobs[k].path);
      ToldFrom(state.View(), jobs[k], lucks[k], dest, streams, state.sizes, state.verify, state.h);
    }
  }
}
