/** The receiver's dispatch over a whole run, and what a stream that breaks off does to it. */
module StreamRun {
  import opened Bytes
  import opened Reader
  import opened DeltaOps
  import opened FrameCodec
  import opened FrameReceive
  import opened Sparse
  import opened ChunkedFile
  import opened ChunkSend
  import opened Applies
  import opened ReceiverState
  import opened ChunkTransfer
  import SenderWindow

  /** What the machine brings to one frame, and the recipe a serialized frame carries. */
  datatype Env = Env(staged: bool, luck: Luck, preallocated: nat, most: nat, recipe: Option<Job>)

  // ---- the chunked-file slot as an automaton ----

  datatype Phase = Free | Draining(fileId: u64) | Filling(fileId: u64, path: Text)

  ghost function PhaseOf(state: ApplyState): Phase
    reads state
  {
    match state.slot
    case Idle => Free
    case Drains(id) => Draining(id)
    case Receiving(file) => Filling(file.fileId, file.path)
  }

  predicate Lands(path: Text, luck: Luck, sizes: Sizes) {
    luck.committed && (path in sizes ==> luck.stamped)
  }

  /** The slot after one frame, or nothing if the receiver refuses it and ends the run. */
  function Step(ph: Phase, f: Frame, env: Env, sizes: Sizes): Option<Phase> {
    match f
    case FileStart(id, path, _) =>
      if !ph.Free? then None else Some(if env.staged then Filling(id, path) else Draining(id))
    case FileChunk(id, _) => if ph.Free? || ph.fileId != id then None else Some(ph)
    case FileEnd(_) =>
      if ph.Free? || (ph.Filling? && !Lands(ph.path, env.luck, sizes)) then None else Some(Free)
    case _ => Some(ph)
  }

  function After(ph: Phase, frames: seq<Frame>, envs: seq<Env>, sizes: Sizes): Option<Phase>
    requires |envs| == |frames|
  {
    if frames == [] then Some(ph)
    else
      var n := |frames| - 1;
      var before := After(ph, frames[..n], envs[..n], sizes);
      if before.None? then None else Step(before.value, frames[n], envs[n], sizes)
  }

  lemma {:induction false} AfterConcat(
    ph: Phase, a: seq<Frame>, ea: seq<Env>, b: seq<Frame>, eb: seq<Env>, sizes: Sizes)
    requires |ea| == |a| && |eb| == |b|
    ensures var mid := After(ph, a, ea, sizes);
      After(ph, a + b, ea + eb, sizes) == if mid.None? then None else After(mid.value, b, eb, sizes)
  {
    if b == [] {
      assert a + b == a && ea + eb == ea;
    } else {
      var n := |b| - 1;
      AfterConcat(ph, a, ea, b[..n], eb[..n], sizes);
      assert (a + b)[..|a| + n] == a + b[..n] && (ea + eb)[..|a| + n] == ea + eb[..n];
    }
  }

  // ---- the dispatch ----

  function JobsOf(recipes: seq<BatchFile>): seq<Job> {
    seq(|recipes|, k requires 0 <= k < |recipes| =>
      Job(recipes[k].path, recipes[k].ops, 0, recipes[k].checksum, recipes[k].sourceSize, None))
  }

  /** One frame to its handler: it is refused exactly where the automaton stops. */
  method Dispatch(state: ApplyState, f: Frame, env: Env) returns (ok: bool)
    requires state.Valid() && env.most > 0
    modifies state, state.Flight()
    ensures ok <==> Step(old(PhaseOf(state)), f, env, state.sizes).Some?
    ensures ok ==> state.Valid() && Some(PhaseOf(state)) == Step(old(PhaseOf(state)), f, env, state.sizes)
    ensures fresh(state.Flight() - old(state.Flight()))
  {
    hide Consistent, Fated, Held, Below, Concat, Fit, Queues, Owed, DueOf;
    match f {
      case FileStart(id, path, size) =>
        var r := state.HandleFileStart(id, path, size, env.staged, env.preallocated, env.most);
        ok := r.Ok?;
      case FileChunk(id, data) =>
        var r := state.HandleFileChunk(id, data);
        ok := r.Ok?;
      case FileEnd(_) =>
        var r := state.HandleFileEnd(env.luck);
        ok := r.Ok?;
      case Batch(recipes) =>
        state.HandleBatch(JobsOf(recipes), seq(|recipes|, _ => env.luck));
        ok := true;
      case Other(_) =>
        if env.recipe.Some? {
          state.HandleDeltaRecipe(env.recipe.value, env.luck);
        }
        ok := true;
    }
  }

  function FramesOf(outs: seq<Outgoing>): (r: seq<Frame>)
    ensures |r| == |outs|
  {
    seq(|outs|, k requires 0 <= k < |outs| => FrameOf(outs[k]))
  }

  function EnvsOf(env: nat -> Env, n: nat): seq<Env> {
    seq(n, k requires 0 <= k < n => env(k))
  }

  /** The slot after the first `i` frames. */
  function PhaseAt(ph: Phase, outs: seq<Outgoing>, env: nat -> Env, i: nat, sizes: Sizes): Option<Phase>
    requires i <= |outs|
  {
    After(ph, FramesOf(outs[..i]), EnvsOf(env, i), sizes)
  }

  lemma PhaseNext(ph: Phase, outs: seq<Outgoing>, env: nat -> Env, i: nat, sizes: Sizes)
    requires i < |outs|
    ensures var before := PhaseAt(ph, outs, env, i, sizes);
      PhaseAt(ph, outs, env, i + 1, sizes) ==
        if before.None? then None else Step(before.value, FrameOf(outs[i]), env(i), sizes)
  {
    hide Step;
    var frames, envs := FramesOf(outs[..i + 1]), EnvsOf(env, i + 1);
    assert frames[..i] == FramesOf(outs[..i]) && frames[i] == FrameOf(outs[i]);
    assert envs[..i] == EnvsOf(env, i) && envs[i] == env(i);
  }

  /** Nothing follows a refused frame. */
  lemma {:induction false} StaysRefused(ph: Phase, outs: seq<Outgoing>, env: nat -> Env, i: nat, sizes: Sizes)
    requires i <= |outs| && PhaseAt(ph, outs, env, i, sizes).None?
    ensures PhaseAt(ph, outs, env, |outs|, sizes).None?
    decreases |outs| - i
  {
    if i < |outs| {
      PhaseNext(ph, outs, env, i, sizes);
      StaysRefused(ph, outs, env, i + 1, sizes);
    }
  }

  /** The receive loop over the bytes of a run: it gets to the end exactly when the
      automaton accepts the frames. */
  method ReceiveRun(
    pipe: Pipe, c: Codec, utf8: Text -> bool, state: ApplyState, env: nat -> Env, ghost outs: seq<Outgoing>)
    returns (ok: bool)
    requires pipe.Valid() && Faithful(c) && state.Valid() && forall i :: env(i).most > 0
    requires FramesAhead(c, pipe.data, pipe.pos, outs, 0, utf8, |pipe.data|)
    modifies pipe, state, state.Flight()
    ensures ok <==> PhaseAt(old(PhaseOf(state)), outs, env, |outs|, state.sizes).Some?
    ensures ok ==> state.Valid() && Some(PhaseOf(state)) == PhaseAt(old(PhaseOf(state)), outs, env, |outs|, state.sizes)
  {
    hide FramesAhead, WireAll, WireOf, CanSend, Ahead, Faithful, Consistent, Fated, Held, Below, Step, PhaseAt;
    ghost var start := PhaseOf(state);
    NoneYet(start, outs, env, state.sizes);
    var i: nat := 0;
    MoreFrames(c, pipe.data, pipe.pos, outs, i, utf8);
    while pipe.pos < |pipe.data|
      invariant pipe.Valid() && state.Valid() && i <= |outs| && (pipe.pos < |pipe.data| <==> i < |outs|)
      invariant FramesAhead(c, pipe.data, pipe.pos, outs, i, utf8, |pipe.data|)
      invariant Some(PhaseOf(state)) == PhaseAt(start, outs, env, i, state.sizes)
      invariant fresh(state.Flight() - old(state.Flight()))
      decreases |outs| - i
    {
      NextFrame(c, pipe.data, pipe.pos, outs, i, utf8, |pipe.data|);
      PhaseNext(start, outs, env, i, state.sizes);
      var frame := ReceiveFrame(pipe, c, utf8, Some(outs[i]));
      var taken := Dispatch(state, frame.value, env(i));
      i := i + 1;
      if !taken {
        StaysRefused(start, outs, env, i, state.sizes);
        return false;
      }
      MoreFrames(c, pipe.data, pipe.pos, outs, i, utf8);
    }
    ok := true;
  }

  lemma NoneYet(ph: Phase, outs: seq<Outgoing>, env: nat -> Env, sizes: Sizes)
    ensures PhaseAt(ph, outs, env, 0, sizes) == Some(ph)
  {
  }

  /** Bytes are left exactly as long as frames are. */
  lemma MoreFrames(c: Codec, data: seq<byte>, pos: nat, outs: seq<Outgoing>, i: nat, utf8: Text -> bool)
    requires Faithful(c) && FramesAhead(c, data, pos, outs, i, utf8, |data|)
    ensures pos < |data| <==> i < |outs|
  {
    if i < |outs| {
      NextFrame(c, data, pos, outs, i, utf8, |data|);
      Starts(c, outs[i], utf8, data, pos);
    } else {
      AtTheEnd(c, data, pos, outs, utf8, |data|);
    }
  }

  // ---- runs of files ----

  /** What one file, or one other frame, leaves on the wire. */
  datatype Sent =
    | Whole(fileId: u64, path: Text, size: nat, chunks: seq<seq<byte>>)
    | Cut(fileId: u64, path: Text, size: nat, chunks: seq<seq<byte>>)
    | Alone(out: Outgoing)

  function OutsOf(s: Sent): seq<Outgoing> {
    match s
    case Whole(id, path, size, chunks) => FileOuts(id, path, size, chunks)
    case Cut(id, path, size, chunks) => OpenOuts(id, path, size, chunks)
    case Alone(out) => [out]
  }

  /** The other frames do not concern the chunked-file slot. */
  predicate Proper(s: Sent) {
    s.Alone? ==> FrameOf(s.out).Batch? || FrameOf(s.out).Other?
  }

  function RunOuts(run: seq<Sent>): seq<Outgoing> {
    if run == [] then [] else RunOuts(run[..|run| - 1]) + OutsOf(run[|run| - 1])
  }

  predicate HasCut(run: seq<Sent>) {
    exists k | 0 <= k < |run| :: run[k].Cut?
  }

  /** No stream follows one that broke off. */
  predicate OnlyLastCut(run: seq<Sent>) {
    forall k, l | 0 <= k < l < |run| && run[k].Cut? :: run[l].Alone?
  }

  predicate AllLand(envs: seq<Env>) {
    forall i | 0 <= i < |envs| :: envs[i].luck.committed && envs[i].luck.stamped
  }

  lemma {:induction false} ChunksStay(id: u64, chunks: seq<seq<byte>>, envs: seq<Env>, ph: Phase, sizes: Sizes)
    requires |envs| == |chunks| && !ph.Free? && ph.fileId == id
    ensures After(ph, FramesOf(ChunkOuts(id, chunks)), envs, sizes) == Some(ph)
  {
    if chunks != [] {
      var n := |chunks| - 1;
      ChunksStay(id, chunks[..n], envs[..n], ph, sizes);
      assert FramesOf(ChunkOuts(id, chunks))[..n] == FramesOf(ChunkOuts(id, chunks[..n]));
    }
  }

  lemma FramesConcat(a: seq<Outgoing>, b: seq<Outgoing>)
    ensures FramesOf(a + b) == FramesOf(a) + FramesOf(b)
  {
  }

  /** The frames up to the end frame take a free slot and keep it; another stream's stop
      the run. */
  lemma {:induction false} OpenPhase(
    ph: Phase, id: u64, path: Text, size: nat, chunks: seq<seq<byte>>, envs: seq<Env>, sizes: Sizes)
    requires |envs| == |chunks| + 1
    ensures var r := After(ph, FramesOf(OpenOuts(id, path, size, chunks)), envs, sizes);
      && (r.Some? <==> ph.Free?)
      && (r.Some? ==> r.value == if envs[0].staged then Filling(id, path) else Draining(id))
  {
    var first, rest := [Control(FileStart(id, path, size))], ChunkOuts(id, chunks);
    FramesConcat(first, rest);
    AfterConcat(ph, FramesOf(first), envs[..1], FramesOf(rest), envs[1..], sizes);
    assert envs[..1] + envs[1..] == envs;
    assert FramesOf(first)[..0] == [] && envs[..1][..0] == [];
    if ph.Free? {
      ChunksStay(id, chunks, envs[1..], if envs[0].staged then Filling(id, path) else Draining(id), sizes);
    }
  }

  /** The slot after one file or frame. */
  lemma {:induction false} SentPhase(ph: Phase, s: Sent, envs: seq<Env>, sizes: Sizes)
    requires Proper(s) && |envs| == |OutsOf(s)| && AllLand(envs)
    ensures var r := After(ph, FramesOf(OutsOf(s)), envs, sizes);
      && (r.Some? <==> s.Alone? || ph.Free?)
      && (r.Some? ==> (r.value.Free? <==> ph.Free? && !s.Cut?))
  {
    match s {
      case Whole(id, path, size, chunks) =>
        var n, last := |chunks| + 1, [Control(FileEnd(id))];
        OpenPhase(ph, id, path, size, chunks, envs[..n], sizes);
        assert OutsOf(s) == OpenOuts(id, path, size, chunks) + last;
        FramesConcat(OpenOuts(id, path, size, chunks), last);
        AfterConcat(ph, FramesOf(OpenOuts(id, path, size, chunks)), envs[..n], FramesOf(last), envs[n..], sizes);
        assert envs[..n] + envs[n..] == envs;
        assert FramesOf(last)[..0] == [] && envs[n..][..0] == [];
      case Cut(id, path, size, chunks) =>
        OpenPhase(ph, id, path, size, chunks, envs, sizes);
      case Alone(out) =>
        assert FramesOf([out])[..0] == [] && envs[..0] == [];
    }
  }

  /** With every commit working, the receiver takes the frames of a run exactly when no
      stream follows one that broke off after its start frame. */
  lemma {:induction false} CutExactly(run: seq<Sent>, envs: seq<Env>, sizes: Sizes)
    requires |envs| == |RunOuts(run)| && AllLand(envs) && forall k | 0 <= k < |run| :: Proper(run[k])
    ensures var r := After(Free, FramesOf(RunOuts(run)), envs, sizes);
      && (r.Some? <==> OnlyLastCut(run)) && (r.Some? ==> (r.value.Free? <==> !HasCut(run)))
  {
    hide Proper, After, OnlyLastCut, HasCut, OutsOf, FramesOf, RunOuts, AllLand;
    if run == [] {
      NoRun(sizes);
      assert envs == [];
    } else {
      var front, last := run[..|run| - 1], run[|run| - 1];
      var n := |RunOuts(front)|;
      assert front + [last] == run;
      LastOuts(front, last);
      LandSlices(envs, n);
      CutExactly(front, envs[..n], sizes);
      CutStep(front, last, envs, sizes);
    }
  }

  lemma NoRun(sizes: Sizes)
    ensures RunOuts([]) == [] && After(Free, FramesOf([]), [], sizes) == Some(Free)
    ensures OnlyLastCut([]) && !HasCut([])
  {
  }

  lemma LastOuts(front: seq<Sent>, last: Sent)
    ensures RunOuts(front + [last]) == RunOuts(front) + OutsOf(last)
  {
    assert (front + [last])[..|front|] == front;
  }

  lemma LandSlices(envs: seq<Env>, n: nat)
    requires AllLand(envs) && n <= |envs|
    ensures AllLand(envs[..n]) && AllLand(envs[n..])
  {
  }

  lemma CutStep(front: seq<Sent>, last: Sent, envs: seq<Env>, sizes: Sizes)
    requires |envs| == |RunOuts(front)| + |OutsOf(last)| && Proper(last) && AllLand(envs[|RunOuts(front)|..])
    requires var mid := After(Free, FramesOf(RunOuts(front)), envs[..|RunOuts(front)|], sizes);
      && (mid.Some? <==> OnlyLastCut(front)) && (mid.Some? ==> (mid.value.Free? <==> !HasCut(front)))
    ensures var r := After(Free, FramesOf(RunOuts(front) + OutsOf(last)), envs, sizes);
      && (r.Some? <==> OnlyLastCut(front + [last])) && (r.Some? ==> (r.value.Free? <==> !HasCut(front + [last])))
  {
    hide After, OnlyLastCut, HasCut, OutsOf, FramesOf, RunOuts, AllLand, Proper;
    var n := |RunOuts(front)|;
    RunSplit(front, last, envs, sizes);
    CutSnoc(front, last);
    var mid := After(Free, FramesOf(RunOuts(front)), envs[..n], sizes);
    if mid.Some? {
      SentPhase(mid.value, last, envs[n..], sizes);
    }
  }

  lemma RunSplit(front: seq<Sent>, last: Sent, envs: seq<Env>, sizes: Sizes)
    requires |envs| == |RunOuts(front)| + |OutsOf(last)|
    ensures var n := |RunOuts(front)|;
      var mid := After(Free, FramesOf(RunOuts(front)), envs[..n], sizes);
      After(Free, FramesOf(RunOuts(front) + OutsOf(last)), envs, sizes) ==
        if mid.None? then None else After(mid.value, FramesOf(OutsOf(last)), envs[n..], sizes)
  {
    hide After, OutsOf, RunOuts;
    var n := |RunOuts(front)|;
    FramesConcat(RunOuts(front), OutsOf(last));
    AfterConcat(Free, FramesOf(RunOuts(front)), envs[..n], FramesOf(OutsOf(last)), envs[n..], sizes);
    assert envs[..n] + envs[n..] == envs;
  }

  lemma CutSnoc(run: seq<Sent>, s: Sent)
    ensures OnlyLastCut(run + [s]) <==> OnlyLastCut(run) && (HasCut(run) ==> s.Alone?)
    ensures HasCut(run + [s]) <==> HasCut(run) || s.Cut?
  {
    var whole := run + [s];
    assert forall k | 0 <= k < |run| :: whole[k] == run[k];
    assert whole[|run|] == s;
  }

  // ---- the sender's window ----

  predicate Matches(s: Sent, item: SenderWindow.Item) {
    (item.Stream? <==> s.Whole?) && (item.Broken? <==> s.Cut?) && (item.Recipe? <==> s.Alone?)
  }

  /** The run carries the window's items in order, with batches and control frames
      anywhere between them. */
  predicate Mirrors(run: seq<Sent>, wire: seq<SenderWindow.Item>) {
    if run == [] then wire == []
    else
      || (run[|run| - 1].Alone? && Mirrors(run[..|run| - 1], wire))
      || (wire != [] && Matches(run[|run| - 1], wire[|wire| - 1]) && Mirrors(run[..|run| - 1], wire[..|wire| - 1]))
  }

  predicate HasBroken(wire: seq<SenderWindow.Item>) {
    exists k | 0 <= k < |wire| :: wire[k].Broken?
  }

  lemma BrokenSnoc(wire: seq<SenderWindow.Item>, item: SenderWindow.Item)
    ensures SenderWindow.OnlyLastBroken(wire + [item]) <==>
      SenderWindow.OnlyLastBroken(wire) && (HasBroken(wire) ==> item.Recipe?)
    ensures HasBroken(wire + [item]) <==> HasBroken(wire) || item.Broken?
  {
    var whole := wire + [item];
    assert forall k | 0 <= k < |wire| :: whole[k] == wire[k];
    assert whole[|wire|] == item;
  }

  lemma {:induction false} MirrorsBroken(run: seq<Sent>, wire: seq<SenderWindow.Item>)
    requires Mirrors(run, wire)
    ensures OnlyLastCut(run) <==> SenderWindow.OnlyLastBroken(wire)
    ensures HasCut(run) <==> HasBroken(wire)
    decreases |run|
  {
    if run != [] {
      var front, last := run[..|run| - 1], run[|run| - 1];
      assert front + [last] == run;
      CutSnoc(front, last);
      if last.Alone? && Mirrors(front, wire) {
        MirrorsBroken(front, wire);
      } else {
        var before := wire[..|wire| - 1];
        MirrorsBroken(front, before);
        assert before + [wire[|wire| - 1]] == wire;
        BrokenSnoc(before, wire[|wire| - 1]);
      }
    }
  }

  /** Every commit working, the receiver takes what a run of the window put on the wire
      exactly when no stream follows one that broke off. */
  lemma WindowAccepted(wire: seq<SenderWindow.Item>, run: seq<Sent>, envs: seq<Env>, sizes: Sizes)
    requires Mirrors(run, wire) && |envs| == |RunOuts(run)| && AllLand(envs)
    requires forall k | 0 <= k < |run| :: Proper(run[k])
    ensures After(Free, FramesOf(RunOuts(run)), envs, sizes).Some? <==> SenderWindow.OnlyLastBroken(wire)
  {
    hide After, RunOuts, FramesOf, OnlyLastCut, Mirrors, HasCut;
    MirrorsBroken(run, wire);
    CutExactly(run, envs, sizes);
  }

  // ---- from the sources ----

  datatype Named = Named(fileId: u64, path: Text, size: nat)

  /** What a source leaves: all its chunks and the end frame, or after a failed read chunks
      of a prefix. */
  ghost predicate Leaves(s: Sent, name: Named, source: seq<byte>, broke: bool, chunkSize: nat) {
    && !s.Alone?
    && s == (if broke then Cut(name.fileId, name.path, name.size, s.chunks)
             else Whole(name.fileId, name.path, name.size, s.chunks))
    && GoodChunks(s.chunks, chunkSize)
    && if broke then Concat(s.chunks) <= source else Concat(s.chunks) == source
  }

  lemma {:induction false} WireConcat(c: Codec, a: seq<Outgoing>, b: seq<Outgoing>)
    ensures WireAll(c, a + b) == WireAll(c, a) + WireAll(c, b)
  {
    hide WireOf;
    if b == [] {
      assert a + b == a && WireAll(c, a) + [] == WireAll(c, a);
    } else {
      var front, last := b[..|b| - 1], b[|b| - 1];
      WireConcat(c, a, front);
      assert (a + b)[..|a + b| - 1] == a + front;
      BytesAssociate(WireAll(c, a), WireAll(c, front), WireOf(c, last));
    }
  }

  /** The chunked files of a run, one after the other; a file that breaks off is reported
      and the next one is sent. */
  method SendStreams(
    ctrl: Wire, c: Codec, sources: seq<Source>, names: seq<Named>, chunkSize: nat, batchBytes: nat, verify: bool, h: Hash)
    returns (broke: seq<bool>, ghost run: seq<Sent>)
    requires |names| == |sources| && 0 < chunkSize && 9 + chunkSize <= MAX_LEN
    requires forall i | 0 <= i < |sources| :: sources[i].Valid() && sources[i].pos == 0
    requires forall i, j | 0 <= i < j < |sources| :: sources[i] != sources[j]
    requires forall i | 0 <= i < |names| :: Announceable(c, names[i].fileId, names[i].path, names[i].size)
    modifies ctrl, sources
    ensures |broke| == |run| == |sources| && ctrl.bytes == old(ctrl.bytes) + WireAll(c, RunOuts(run))
    ensures forall i | 0 <= i < |run| :: Leaves(run[i], names[i], sources[i].data, broke[i], chunkSize)
    ensures forall i | 0 <= i < |sources| && NoFailure(sources[i].schedule) :: !broke[i]
  {
    hide WireAll, RunOuts, Leaves, Announceable, FileOuts, OpenOuts;
    broke, run := [], [];
    NothingSent(c, ctrl.bytes);
    for i := 0 to |sources|
      invariant |broke| == |run| == i && ctrl.bytes == old(ctrl.bytes) + WireAll(c, RunOuts(run))
      invariant forall k | 0 <= k < i :: Leaves(run[k], names[k], sources[k].data, broke[k], chunkSize)
      invariant forall k | 0 <= k < i && NoFailure(sources[k].schedule) :: !broke[k]
      invariant forall k | i <= k < |sources| :: sources[k].Valid() && sources[k].pos == 0
    {
      var name := names[i];
      ghost var before := ctrl.bytes;
      var sent, chunks :=
        SendChunked(ctrl, c, sources[i], name.fileId, name.path, name.size, chunkSize, batchBytes, verify, h);
      assert Announceable(c, name.fileId, name.path, name.size);
      if sent.Err? {
        assert sent.error == Unsendable ==> sent == Err(Unsendable);
        assert sent == Err(SendError.ReadFailed);
      }
      ghost var s := if sent.Err? then Cut(name.fileId, name.path, name.size, chunks)
        else Whole(name.fileId, name.path, name.size, chunks);
      OneLeft(s, name, sources[i].data, sent.Err?, chunkSize);
      RunSnoc(c, old(ctrl.bytes), run, s);
      broke, run := broke + [sent.Err?], run + [s];
    }
  }

  lemma NothingSent(c: Codec, bytes: seq<byte>)
    ensures bytes + WireAll(c, RunOuts([])) == bytes
  {
  }

  lemma OneLeft(s: Sent, name: Named, source: seq<byte>, broke: bool, chunkSize: nat)
    requires !s.Alone? && GoodChunks(s.chunks, chunkSize)
    requires s == if broke then Cut(name.fileId, name.path, name.size, s.chunks)
      else Whole(name.fileId, name.path, name.size, s.chunks)
    requires if broke then Concat(s.chunks) <= source else Concat(s.chunks) == source
    ensures Leaves(s, name, source, broke, chunkSize)
  {
  }

  lemma RunSnoc(c: Codec, before: seq<byte>, run: seq<Sent>, s: Sent)
    ensures RunOuts(run + [s]) == RunOuts(run) + OutsOf(s)
    ensures before + WireAll(c, RunOuts(run)) + WireAll(c, OutsOf(s)) == before + WireAll(c, RunOuts(run + [s]))
  {
    hide WireAll, OutsOf;
    assert (run + [s])[..|run|] == run;
    WireConcat(c, RunOuts(run), OutsOf(s));
    BytesAssociate(before, WireAll(c, RunOuts(run)), WireAll(c, OutsOf(s)));
  }

  /** Every frame of the run can be sent, and received. */
  lemma {:induction false} RunSendable(
    c: Codec, run: seq<Sent>, names: seq<Named>, datas: seq<seq<byte>>, broke: seq<bool>, chunkSize: nat,
    utf8: Text -> bool)
    requires |run| == |names| == |datas| == |broke| && 9 + chunkSize <= MAX_LEN
    requires forall i | 0 <= i < |run| :: Leaves(run[i], names[i], datas[i], broke[i], chunkSize)
    requires forall i | 0 <= i < |names| :: Announceable(c, names[i].fileId, names[i].path, names[i].size)
    ensures forall k | 0 <= k < |RunOuts(run)| :: CanSend(c, RunOuts(run)[k], utf8)
  {
    if run != [] {
      hide CanSend, Announceable, Leaves;
      var n := |run| - 1;
      RunSendable(c, run[..n], names[..n], datas[..n], broke[..n], chunkSize, utf8);
      SentSendable(c, run[n], names[n], datas[n], broke[n], chunkSize, utf8);
    }
  }

  lemma SentSendable(
    c: Codec, s: Sent, name: Named, data: seq<byte>, broke: bool, chunkSize: nat, utf8: Text -> bool)
    requires Leaves(s, name, data, broke, chunkSize) && 9 + chunkSize <= MAX_LEN
    requires Announceable(c, name.fileId, name.path, name.size)
    ensures forall k | 0 <= k < |OutsOf(s)| :: CanSend(c, OutsOf(s)[k], utf8)
  {
    AllSendable(c, name.fileId, name.path, name.size, s.chunks, chunkSize, utf8);
    hide CanSend, Announceable;
    var whole := FileOuts(name.fileId, name.path, name.size, s.chunks);
    assert broke ==> OutsOf(s) == whole[..|whole| - 1];
  }

  /** The run's frames up to the last file, and whether one of its streams follows one
      that broke off. */
  lemma CutsBroke(
    run: seq<Sent>, names: seq<Named>, datas: seq<seq<byte>>, broke: seq<bool>, chunkSize: nat)
    requires |run| == |names| == |datas| == |broke|
    requires forall i | 0 <= i < |run| :: Leaves(run[i], names[i], datas[i], broke[i], chunkSize)
    ensures OnlyLastCut(run) <==> forall i | 0 <= i < |broke| - 1 :: !broke[i]
    ensures forall i | 0 <= i < |run| :: Proper(run[i])
  {
    forall i | 0 <= i < |run|
      ensures !run[i].Alone? && (run[i].Cut? <==> broke[i])
    {
      assert Leaves(run[i], names[i], datas[i], broke[i], chunkSize);
    }
    forall i | 0 <= i < |broke| - 1
      ensures OnlyLastCut(run) ==> !broke[i]
    {
      assert !run[i + 1].Alone?;
    }
  }

  /** A whole run of chunked files, over the bytes on the wire: for every list of sources,
      read splitting and read failure, chunk and batch size, staging outcome and rhythm, if
      every commit works the receiver gets to the end exactly when no file but the last one
      breaks off after its start frame. */
  method TransferStreams(
    sources: seq<Source>, names: seq<Named>, chunkSize: nat, batchBytes: nat, c: Codec, utf8: Text -> bool,
    state: ApplyState, env: nat -> Env)
    returns (ok: bool, broke: seq<bool>)
    requires |names| == |sources| && 0 < chunkSize && 9 + chunkSize <= MAX_LEN && Faithful(c)
    requires forall i | 0 <= i < |sources| :: sources[i].Valid() && sources[i].pos == 0
    requires forall i, j | 0 <= i < j < |sources| :: sources[i] != sources[j]
    requires forall i | 0 <= i < |names| :: Announceable(c, names[i].fileId, names[i].path, names[i].size)
    requires state.Valid() && state.slot.Idle?
    requires forall i :: env(i).most > 0 && env(i).luck.committed && env(i).luck.stamped
    modifies sources, state
    ensures |broke| == |sources| && (ok ==> state.Valid())
    ensures forall i | 0 <= i < |sources| && NoFailure(sources[i].schedule) :: !broke[i]
    ensures ok <==> forall i | 0 <= i < |broke| - 1 :: !broke[i]
  {
    hide WireAll, RunOuts, Leaves, Announceable, CanSend, FramesAhead, Faithful, Consistent, Fated, Held, Below, After,
      OnlyLastCut;
    var ctrl := new Wire();
    ghost var run;
    broke, run := SendStreams(ctrl, c, sources, names, chunkSize, batchBytes, state.verify, state.h);
    ghost var datas := seq(|sources|, i requires 0 <= i < |sources| => sources[i].data);
    ghost var outs := RunOuts(run);
    RunSendable(c, run, names, datas, broke, chunkSize, utf8);
    assert ctrl.bytes == WireAll(c, outs) == WireAll(c, outs) + [];
    OnTheWire(c, outs, [], utf8);
    var pipe := new Pipe(ctrl.bytes);
    ok := ReceiveRun(pipe, c, utf8, state, env, outs);
    CutsBroke(run, names, datas, broke, chunkSize);
    assert outs[..|outs|] == outs;
    CutExactly(run, EnvsOf(env, |outs|), state.sizes);
  }
}
