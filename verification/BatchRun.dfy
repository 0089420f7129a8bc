/** A batch of small files from the sender's buffers to the Ack. */
module BatchRun {
  import opened Bytes
  import opened DeltaOps
  import opened FrameCodec
  import opened FrameReceive
  import opened Patch
  import opened Sparse
  import opened Applies
  import opened ReceiverState
  import opened RecipeRun
  import opened CrossFile
  import StreamRun

  /** Distinct paths, each new to the run, and no checksum but that of the data. */
  ghost predicate NewFiles(items: seq<Item>, written: set<Text>, h: Hash) {
    && (forall i, j | 0 <= i < j < |items| :: items[i].path != items[j].path)
    && forall i | 0 <= i < |items| ::
         items[i].path !in written && (items[i].checksum.Some? ==> items[i].checksum.value == h(items[i].data))
  }

  /** Staging, commit and metadata work, the times stay, and the metadata's size is the
      file's. */
  predicate AllWell(items: seq<Item>, luck: Luck, sizes: Sizes) {
    && luck.staged && luck.committed && luck.stamped && luck.still
    && forall i | 0 <= i < |items| && items[i].path in sizes :: sizes[items[i].path] == |items[i].data|
  }

  function JobOf(i: Item): Job {
    Job(i.path, if i.data == [] then [] else [Literal(i.data)], 0, i.checksum, |i.data|, None)
  }

  lemma JobsAre(items: seq<Item>, k: nat)
    requires k < |items|
    ensures |StreamRun.JobsOf(Recipes(items))| == |items| && StreamRun.JobsOf(Recipes(items))[k] == JobOf(items[k])
  {
  }

  /** The literal is the file. */
  lemma LiteralFile(i: Item, basis: seq<byte>)
    ensures var ops := Effective(JobOf(i).ops);
      Validated(JobOf(i).ops, 0) && InBounds(ops, |basis|) && Replay(ops, basis) == i.data
  {
    if i.data != [] {
      OneEffective(Literal(i.data));
      OneReplay(Literal(i.data), basis);
    }
    hide Effective, Replay;
    NoOps(basis);
  }

  lemma NoOps(basis: seq<byte>)
    ensures Effective([]) == [] && Replay([], basis) == []
  {
  }

  /** A literal job ends with its file in place and reported as done. */
  lemma FileTold(
    ack: Ack, plain: set<Text>, dest': Files, i: Item, luck: Luck, dest: Files, sizes: Sizes, verify: bool, h: Hash)
    requires Told(ack, plain, dest', JobOf(i), luck, dest, sizes, verify, h) && AllWell([i], luck, sizes)
    requires i.checksum.Some? ==> i.checksum.value == h(i.data)
    ensures i.path in dest' && dest'[i.path] == i.data && i.path !in ack.skipped
    ensures if verify then i.path in ack.hashes && ack.hashes[i.path] == h(i.data) else i.path in plain
  {
    assert [i][0] == i;
    LiteralFile(i, OwnFile(JobOf(i), dest));
    FitSame(i.data, |i.data|);
    hide Fit, Effective, Replay;
  }

  lemma NotRepeated(jobs: seq<Job>, p: Text)
    requires forall i, j | 0 <= i < j < |jobs| :: jobs[i].path != jobs[j].path
    ensures !Repeated(jobs, p)
  {
  }

  lemma OwedOne(
    due: map<Text, Due>, jobs: seq<Job>, lucks: seq<Luck>, k: nat, dest: Files, streams: Files, sizes: Sizes,
    verify: bool, h: Hash)
    requires Owed(due, jobs, lucks, dest, streams, sizes, verify, h) && k < |jobs|
    requires jobs[k].basisPath.None? && !Repeated(jobs, jobs[k].path)
    ensures jobs[k].path in due && due[jobs[k].path] == DueOf(jobs[k], lucks[k], dest, streams, sizes, verify, h)
    ensures due[jobs[k].path].basis == jobs[k].path
  {
    hide OutcomeOf, Wrote, Streamed, Repeated;
  }

  /** What must be fresh of a batch for its promises. */
  lemma FreshJobs(items: seq<Item>, written: set<Text>, h: Hash)
    requires NewFiles(items, written, h)
    ensures Fresh(StreamRun.JobsOf(Recipes(items)), written)
  {
    forall k | 0 <= k < |items|
      ensures StreamRun.JobsOf(Recipes(items))[k] == JobOf(items[k])
    {
      JobsAre(items, k);
    }
  }

  /** End to end: a batch the sender can send is received from the bytes as sent, and at the
      Ack every file is in place with exactly its bytes and reported as done, under
      verification with the hash of its bytes. */
  method TransferBatch(items: seq<Item>, c: Codec, utf8: Text -> bool, suffix: seq<byte>, state: ApplyState, luck: Luck)
    returns (ack: Ack)
    requires Sendable(items, utf8) && Faithful(c) && state.Valid()
    requires NewFiles(items, state.written, state.h) && AllWell(items, luck, state.sizes)
    modifies state
    ensures state.Valid()
    ensures forall k | 0 <= k < |items| ::
      && items[k].path in state.dest && state.dest[items[k].path] == items[k].data && items[k].path !in ack.skipped
      && if state.verify then items[k].path in ack.hashes && ack.hashes[items[k].path] == state.h(items[k].data)
         else items[k].path in state.plain
  {
    hide Consistent, Fated, Held, Below, HasTask, Paths, Owed, Queues, Told, Ends, Once, Backed, Sendable, Faithful,
      BatchWire, Repeated, AllWell, DueOf, Fresh, NewFiles;
    var ctrl := new Wire();
    var sent := SendBatch(ctrl, items, utf8);
    var pipe := new Pipe(ctrl.bytes + suffix);
    assert pipe.data[0..|ctrl.bytes|] == ctrl.bytes;
    var frame := ReceiveFrame(pipe, c, utf8, Some(OutBatch(items)));
    ghost var dest, streams, jobs := state.dest, state.streams, StreamRun.JobsOf(Recipes(items));
    FreshJobs(items, state.written, state.h);
    NewPaths(state.View(), state.sizes, state.h, state.verify, jobs);
    state.HandleBatch(StreamRun.JobsOf(frame.value.recipes), seq(|frame.value.recipes|, _ => luck));
    ack := state.HandleDone();
    forall k | 0 <= k < |items|
      ensures items[k].path in state.dest && state.dest[items[k].path] == items[k].data && items[k].path !in ack.skipped
      ensures if state.verify then items[k].path in ack.hashes && ack.hashes[items[k].path] == state.h(items[k].data)
        else items[k].path in state.plain
    {
      JobsAre(items, k);
      OneNew(items, old(state.written), state.h, luck, state.sizes, k);
      NotRepeated(jobs, jobs[k].path);
      FileDone(state.View(), items, k, luck, dest, streams, state.sizes, state.verify, state.h);
    }
  }

  lemma FileDone(
    b: Books, items: seq<Item>, k: nat, luck: Luck, dest: Files, streams: Files, sizes: Sizes, verify: bool, h: Hash)
    requires k < |items| && AllWell([items[k]], luck, sizes)
    requires var jobs := StreamRun.JobsOf(Recipes(items));
      && Owed(b.due, jobs, seq(|jobs|, _ => luck), dest, streams, sizes, verify, h)
      && forall i, j | 0 <= i < j < |jobs| :: jobs[i].path != jobs[j].path
    requires items[k].checksum.Some? ==> items[k].checksum.value == h(items[k].data)
    requires items[k].path !in b.reused && items[k].path !in b.discarded && forall p | Steady(b, p) :: Ends(b, p)
    ensures items[k].path in b.dest && b.dest[items[k].path] == items[k].data && items[k].path !in b.skipped
    ensures if verify then items[k].path in b.hashes && b.hashes[items[k].path] == h(items[k].data)
      else items[k].path in b.plain
  {
    hide Owed, Ends, Told, AllWell, DueOf, Repeated;
    var jobs := StreamRun.JobsOf(Recipes(items));
    JobsAre(items, k);
    NotRepeated(jobs, jobs[k].path);
    OwedOne(b.due, jobs, seq(|jobs|, _ => luck), k, dest, streams, sizes, verify, h);
    assert Steady(b, jobs[k].path);
    ToldFrom(b, jobs[k], luck, dest, streams, sizes, verify, h);
    FileTold(Ack(b.skipped, b.hashes), b.plain, b.dest, items[k], luck, dest, sizes, verify, h);
  }

  lemma OneNew(items: seq<Item>, written: set<Text>, h: Hash, luck: Luck, sizes: Sizes, k: nat)
    requires NewFiles(items, written, h) && AllWell(items, luck, sizes) && k < |items|
    ensures items[k].path !in written && AllWell([items[k]], luck, sizes)
    ensures items[k].checksum.Some? ==> items[k].checksum.value == h(items[k].data)
    ensures var jobs := StreamRun.JobsOf(Recipes(items)); forall i, j | 0 <= i < j < |jobs| :: jobs[i].path != jobs[j].path
  {
  }

  method SendBatch(ctrl: Wire, items: seq<Item>, utf8: Text -> bool)
    returns (sent: bool)
    requires Sendable(items, utf8) && ctrl.bytes == []
    modifies ctrl
    ensures ctrl.bytes == BatchWire(items)
  {
    hide BatchWire, GoodItems, Total;
    sent := SendBatchRaw(ctrl, items);
    assert [] + BatchWire(items) == BatchWire(items);
  }
}
