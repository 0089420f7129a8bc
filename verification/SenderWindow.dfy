/** The sender's delta window as a state machine: a FIFO of in-flight jobs, some of
    them waiting on a basis signature that another job or a detached signature
    task will send or drop. Every interleaving of the loop with those tasks is a run. */
module SenderWindow {
  import opened Bytes
  import opened BasisIndex

  const DELTA_MIN_SIZE: nat := 10 * 1024 * 1024
  const SMALL_FILE_MAX: nat := 2 * 1024 * 1024
  const MEDIUM_FILE_MAX: nat := 16 * 1024 * 1024

  /** A plan entry; `content` is false for directories, links and specials. */
  datatype Task = Task(rel: string, size: nat, update: bool, content: bool)

  predicate IsDelta(t: Task) {
    t.update && t.size > DELTA_MIN_SIZE
  }

  type Refs = map<string, seq<string>>
  type Deps = map<string, string>

  function Dependents(refs: Refs, rel: string): seq<string> {
    if rel in refs then refs[rel] else []
  }

  /** What a run is about: the plan, who feeds whom, and the window size. */
  datatype World = World(plan: seq<Task>, refs: Refs, deps: Deps, jobs: nat)

  /** Distinct paths; every dependent's basis is an earlier file of the plan, and
      holds one sender for each of its dependents. */
  ghost predicate Paired(w: World) {
    && (forall i, j | 0 <= i < j < |w.plan| :: w.plan[i].rel != w.plan[j].rel)
    && (forall r, d :: d in Dependents(w.refs, r) <==> d in w.deps && w.deps[d] == r)
    && (forall j | 0 <= j < |w.plan| && w.plan[j].rel in w.deps :: BasisBefore(w, j))
    && (forall d | d in w.deps :: exists j | 0 <= j < |w.plan| :: w.plan[j].rel == d)
  }

  ghost predicate BasisBefore(w: World, j: nat)
    requires j < |w.plan| && w.plan[j].rel in w.deps
  {
    w.plan[j].content && exists i | 0 <= i < j :: w.plan[i].content && w.plan[i].rel == w.deps[w.plan[j].rel]
  }

  /** The plan position of a dependent's basis. */
  lemma BasisOf(w: World, j: nat) returns (i: nat)
    requires Paired(w) && j < |w.plan| && w.plan[j].rel in w.deps
    ensures i < j && w.plan[i].content && w.plan[i].rel == w.deps[w.plan[j].rel]
    ensures w.plan[j].rel in Dependents(w.refs, w.plan[i].rel)
  {
    assert BasisBefore(w, j);
    i :| 0 <= i < j && w.plan[i].content && w.plan[i].rel == w.deps[w.plan[j].rel];
  }

  // ---- the state ----

  datatype Chan = Open | Sent | Dropped

  /** A queued job: a cross-file delta waits on its own channel; `txs` are the
      channels a delta job feeds when it is drained. */
  datatype Job = Job(at: nat, rel: string, basis: Option<string>, txs: seq<string>)

  /** A detached signature task and the channels it will send or drop. */
  datatype Feeder = Feeder(at: nat, txs: seq<string>)

  /** A stream that breaks leaves its start frame, and perhaps some chunks, on the wire. */
  datatype Item = Stream(rel: string) | Broken(rel: string) | Recipe(rel: string, basis: Option<string>)

  /** `aborted` names the file at which the sender gave up the run. */
  datatype State = State(
    next: nat, pending: seq<Job>, feeders: seq<Feeder>, chans: map<string, Chan>,
    wire: seq<Item>, batched: seq<string>, skipped: seq<string>, drained: seq<nat>, aborted: Option<string>)

  function Init(w: World): State {
    State(0, [], [], map d | d in w.deps :: Open, [], [], [], [], None)
  }

  // ---- the steps ----

  /** How a whole-file stream of one file ends: sent (with the scanned size or
      another), or with the file not opened or a read failed, after the start frame. */
  datatype Streamed = Whole(same: bool) | Unreadable

  /** How a job's computation ends: with a delta, one that is not worth sending, without a
      useful basis, or in an error. */
  datatype Computed = Prepared(sig: bool, same: bool) | Dissimilar | Fallback | Failed

  /** `stat` tells whether the size of a file without a useful basis can be read again
      before it is streamed. */
  datatype Outcome = Outcome(compute: Computed, stat: bool, stream: Streamed)

  datatype Step = Visit(s: Streamed) | Drain(o: Outcome) | Feed(k: nat, ok: bool)

  predicate Batchable(w: World, t: Task) {
    && t.content && !IsDelta(t) && t.size <= SMALL_FILE_MAX
    && Dependents(w.refs, t.rel) == [] && t.rel !in w.deps
  }

  /** A file that goes through the window. */
  predicate Windowed(w: World, t: Task) {
    t.content && !Batchable(w, t) && (t.rel in w.deps || IsDelta(t) || t.size <= MEDIUM_FILE_MAX)
  }

  /** Only a reference on the plain delta path feeds its dependents itself. */
  predicate FeedsItself(w: World, t: Task) {
    t.rel !in w.deps && IsDelta(t)
  }

  predicate Room(w: World, s: State) {
    s.pending == [] || |s.pending| < w.jobs
  }

  predicate Ready(s: State, j: Job) {
    j.basis.Some? ==> j.rel !in s.chans || s.chans[j.rel] != Open
  }

  /** The loop is about to drain: the window is full, or the plan is done. */
  predicate Draining(w: World, s: State) {
    s.pending != [] && (s.next >= |w.plan| || (Windowed(w, w.plan[s.next]) && !Room(w, s)))
  }

  predicate Enabled(w: World, s: State, step: Step) {
    match step
    case Visit(_) => s.aborted.None? && s.next < |w.plan| && !Draining(w, s)
    case Drain(_) => s.aborted.None? && Draining(w, s) && Ready(s, s.pending[0])
    case Feed(k, _) => k < |s.feeders|
  }

  function JobFor(w: World, at: nat): Job
    requires at < |w.plan|
  {
    var t := w.plan[at];
    Job(at, t.rel, if t.rel in w.deps then Some(w.deps[t.rel]) else None,
      if FeedsItself(w, t) then Dependents(w.refs, t.rel) else [])
  }

  /** A reference that will not feed its dependents itself gets a signature task. */
  function Feeding(w: World, at: nat, feeders: seq<Feeder>): seq<Feeder>
    requires at < |w.plan|
  {
    var t := w.plan[at];
    if FeedsItself(w, t) || Dependents(w.refs, t.rel) == [] then feeders
    else feeders + [Feeder(at, Dependents(w.refs, t.rel))]
  }

  function Streaming(s: State, rel: string, o: Streamed): State {
    match o
    case Whole(same) => s.(wire := s.wire + [Stream(rel)], skipped := s.skipped + (if same then [] else [rel]))
    case Unreadable => s.(wire := s.wire + [Broken(rel)], skipped := s.skipped + [rel])
  }

  /** Send or drop a group of channels; the first message decides. */
  function Resolve(chans: map<string, Chan>, txs: seq<string>, v: Chan): map<string, Chan> {
    map c | c in chans :: if c in txs && chans[c] == Open then v else chans[c]
  }

  function Visited(w: World, s: State, o: Streamed): State
    requires s.next < |w.plan|
  {
    var t := w.plan[s.next];
    var s' := s.(next := s.next + 1);
    if !t.content then s'
    else if Batchable(w, t) then s'.(batched := s.batched + [t.rel])
    else
      var fed := s'.(feeders := Feeding(w, s.next, s.feeders));
      if Windowed(w, t) then fed.(pending := s.pending + [JobFor(w, s.next)])
      else Streaming(fed, t.rel, o)
  }

  predicate Lost(s: State, j: Job) {
    j.basis.Some? && j.rel in s.chans && s.chans[j.rel] == Dropped
  }

  /** The whole file must be streamed, and its size is read again first. */
  predicate FallsBack(s: State, o: Outcome)
    requires s.pending != []
  {
    Lost(s, s.pending[0]) || o.compute.Fallback?
  }

  function Drained(w: World, s: State, o: Outcome): State
    requires s.pending != []
  {
    var j := s.pending[0];
    var s' := s.(pending := s.pending[1..], drained := s.drained + [j.at]);
    var dropped := s'.(chans := Resolve(s.chans, j.txs, Dropped));
    if FallsBack(s, o) && !o.stat then dropped.(aborted := Some(j.rel))
    else if FallsBack(s, o) || o.compute.Dissimilar? then Streaming(dropped, j.rel, o.stream)
    else match o.compute
      case Prepared(sig, same) => s'.(
        wire := s.wire + [Recipe(j.rel, j.basis)],
        skipped := s.skipped + (if same then [] else [j.rel]),
        chans := Resolve(s.chans, j.txs, if sig && same then Sent else Dropped))
      case _ => dropped.(skipped := s.skipped + [j.rel])
  }

  function Fed(s: State, k: nat, ok: bool): State
    requires k < |s.feeders|
  {
    s.(feeders := s.feeders[..k] + s.feeders[k + 1..],
       chans := Resolve(s.chans, s.feeders[k].txs, if ok then Sent else Dropped))
  }

  function After(w: World, s: State, step: Step): State
    requires Enabled(w, s, step)
  {
    match step
    case Visit(o) => Visited(w, s, o)
    case Drain(o) => Drained(w, s, o)
    case Feed(k, ok) => Fed(s, k, ok)
  }

  // ---- the invariant ----

  /** Plan positions of the windowed tasks before `n`, in plan order. */
  function WindowOrder(w: World, n: nat): seq<nat>
    requires n <= |w.plan|
  {
    if n == 0 then []
    else WindowOrder(w, n - 1) + (if Windowed(w, w.plan[n - 1]) then [n - 1] else [])
  }

  function Ats(jobs: seq<Job>): seq<nat> {
    seq(|jobs|, k requires 0 <= k < |jobs| => jobs[k].at)
  }

  ghost predicate QueueOk(w: World, s: State) {
    && s.next <= |w.plan| && (|s.pending| <= w.jobs || |s.pending| <= 1)
    && s.drained + Ats(s.pending) == WindowOrder(w, s.next)
    && (forall k | 0 <= k < |s.pending| :: s.pending[k].at < s.next && s.pending[k] == JobFor(w, s.pending[k].at))
    && (forall k | 0 <= k < |s.pending| :: Windowed(w, w.plan[s.pending[k].at]))
    && (forall k, l | 0 <= k < l < |s.pending| :: s.pending[k].at < s.pending[l].at)
  }

  /** Someone visited still holds the sender of channel `d`: a signature task, or a
      queued job of the reference. */
  ghost predicate HeldBy(s: State, i: nat, d: string) {
    || (exists k | 0 <= k < |s.feeders| :: d in s.feeders[k].txs)
    || (exists k | 0 <= k < |s.pending| :: s.pending[k].at == i && d in s.pending[k].txs)
  }

  /** No channel is open and orphaned. */
  ghost predicate ChannelsOk(w: World, s: State) {
    && s.chans.Keys == w.deps.Keys && s.next <= |w.plan|
    && forall d, i | d in w.deps && s.chans[d] == Open && 0 <= i < s.next && w.plan[i].content
         && w.plan[i].rel == w.deps[d] :: HeldBy(s, i, d)
  }

  ghost predicate OnWire(wire: seq<Item>, rel: string) {
    exists k | 0 <= k < |wire| :: wire[k].rel == rel && !wire[k].Broken?
  }

  ghost predicate Queued(s: State, i: nat) {
    exists k | 0 <= k < |s.pending| :: s.pending[k].at == i
  }

  /** Every visited file is somewhere: still queued, or sent, batched or reported, or the
      one the sender gave up at. */
  ghost predicate AllPlaced(w: World, s: State) {
    && s.next <= |w.plan|
    && forall i | 0 <= i < s.next && w.plan[i].content :: Placed(w, s, i)
  }

  ghost predicate Placed(w: World, s: State, i: nat)
    requires i < |w.plan|
  {
    var rel := w.plan[i].rel;
    || Queued(s, i) || OnWire(s.wire, rel) || rel in s.skipped || (rel in s.batched && Batchable(w, w.plan[i]))
    || s.aborted == Some(rel)
  }

  /** A cross-file recipe comes after its basis's content, unless that was reported. */
  ghost predicate Follows(s: State, k: nat)
    requires k < |s.wire|
  {
    s.wire[k].Recipe? && s.wire[k].basis.Some? ==>
      OnWire(s.wire[..k], s.wire[k].basis.value) || s.wire[k].basis.value in s.skipped
  }

  ghost predicate WireOrdered(w: World, s: State) {
    && (forall k | 0 <= k < |s.wire| :: Follows(s, k))
    && forall k | 0 <= k < |s.wire| && s.wire[k].Recipe? && s.wire[k].basis.Some? ::
         s.wire[k].rel in w.deps && w.deps[s.wire[k].rel] == s.wire[k].basis.value
  }

  /** No file crosses twice, broken off or not. */
  ghost predicate SentOnce(w: World, s: State) {
    && s.next <= |w.plan|
    && (forall k, l | 0 <= k < l < |s.wire| :: s.wire[k].rel != s.wire[l].rel)
    && (forall k, j | 0 <= k < |s.wire| && 0 <= j < |s.pending| :: s.wire[k].rel != s.pending[j].rel)
    && (forall k, i | 0 <= k < |s.wire| && s.next <= i < |w.plan| :: s.wire[k].rel != w.plan[i].rel)
  }

  /** A recipe against another file goes out only after that file's signature came. */
  ghost predicate RecipesFed(s: State) {
    forall k | 0 <= k < |s.wire| && s.wire[k].Recipe? && s.wire[k].basis.Some? ::
      s.wire[k].rel in s.chans && s.chans[s.wire[k].rel] == Sent
  }

  /** A reference that feeds its dependents itself has done so only with its own recipe on
      the wire and nothing reported about it. */
  ghost predicate SentRight(w: World, s: State) {
    forall d, i | d in w.deps && 0 <= i < |w.plan| && w.plan[i].rel == w.deps[d] && FeedsItself(w, w.plan[i])
      && d in s.chans && s.chans[d] == Sent :: Unchanged(s, w.plan[i].rel)
  }

  /** Nothing is reported about a file that is still queued or not visited. */
  ghost predicate Unreported(w: World, s: State) {
    && (forall k | 0 <= k < |s.pending| :: s.pending[k].rel !in s.skipped)
    && (forall i | 0 <= s.next <= i < |w.plan| :: w.plan[i].rel !in s.skipped)
  }

  /** A signature task works for a reference that does not feed its dependents itself. */
  ghost predicate FeedersOk(w: World, s: State) {
    forall k | 0 <= k < |s.feeders| :: FeederOk(w, s.feeders[k])
  }

  predicate FeederOk(w: World, f: Feeder) {
    && f.at < |w.plan| && !FeedsItself(w, w.plan[f.at]) && f.txs == Dependents(w.refs, w.plan[f.at].rel)
  }

  ghost predicate Unchanged(s: State, rel: string) {
    rel !in s.skipped && exists k | 0 <= k < |s.wire| :: s.wire[k].rel == rel && s.wire[k].Recipe?
  }

  // ---- who goes where, by size and pairing ----

  /** A new or small file of at most 2 MiB that pairs with no other. */
  predicate Small(w: World, t: Task) {
    && t.content && !(t.update && t.size > 10485760) && t.size <= 2097152
    && t.rel !in w.deps && t.rel !in w.deps.Values
  }

  /** A file above 16 MiB without a basis of its own or another's. */
  predicate Large(w: World, t: Task) {
    t.content && !t.update && t.size > 16777216 && t.rel !in w.deps
  }

  ghost predicate Routed(w: World, s: State) {
    && s.next <= |w.plan|
    && (forall i | 0 <= i < s.next && w.plan[i].content :: w.plan[i].rel in s.batched <==> Small(w, w.plan[i]))
    && (forall r | r in s.batched :: FromPlan(w, s, r))
    && (forall k | 0 <= k < |s.wire| :: FromPlan(w, s, s.wire[k].rel))
    && (forall k, i | 0 <= k < |s.wire| && 0 <= i < |w.plan| && w.plan[i].rel == s.wire[k].rel ::
          RightKind(w, w.plan[i], s.wire[k]))
    && (forall k | 0 <= k < |s.pending| :: RightJob(w, s.pending[k]))
  }

  /** A queued job is one of a file that is neither small nor large, with its own basis. */
  ghost predicate RightJob(w: World, j: Job) {
    && j.at < |w.plan| && w.plan[j.at].rel == j.rel && w.plan[j.at].content
    && !Small(w, w.plan[j.at]) && !Large(w, w.plan[j.at])
    && j.basis == (if j.rel in w.deps then Some(w.deps[j.rel]) else None)
  }

  ghost predicate FromPlan(w: World, s: State, rel: string) {
    exists i | 0 <= i < s.next && i < |w.plan| :: w.plan[i].content && w.plan[i].rel == rel
  }

  /** Small files never cross alone, large ones never as a recipe, and a recipe names the
      basis its file was paired with, or none. */
  predicate RightKind(w: World, t: Task, item: Item) {
    && !Small(w, t)
    && (item.Recipe? ==> !Large(w, t) && item.basis == if t.rel in w.deps then Some(w.deps[t.rel]) else None)
  }

  ghost predicate Inv(w: World, s: State) {
    && QueueOk(w, s) && ChannelsOk(w, s) && AllPlaced(w, s) && WireOrdered(w, s) && SentOnce(w, s)
    && RecipesFed(s) && SentRight(w, s) && FeedersOk(w, s) && Unreported(w, s) && Routed(w, s)
  }

  lemma InitHolds(w: World)
    ensures Inv(w, Init(w))
  {
  }

  // ---- each step keeps it: the queue ----

  lemma AtsSnoc(jobs: seq<Job>, j: Job)
    ensures Ats(jobs + [j]) == Ats(jobs) + [j.at]
  {
  }

  lemma AtsTail(jobs: seq<Job>)
    requires jobs != []
    ensures Ats(jobs) == [jobs[0].at] + Ats(jobs[1..])
  {
  }

  lemma VisitQueue(w: World, s: State, o: Streamed)
    requires QueueOk(w, s) && Enabled(w, s, Visit(o))
    ensures QueueOk(w, Visited(w, s, o))
  {
    hide Feeding, Ats;
    AtsSnoc(s.pending, JobFor(w, s.next));
    assert s.drained + (Ats(s.pending) + [s.next]) == s.drained + Ats(s.pending) + [s.next];
    assert s.drained + Ats(s.pending) + [] == s.drained + Ats(s.pending);
  }

  lemma DrainQueue(w: World, s: State, o: Outcome)
    requires QueueOk(w, s) && s.pending != []
    ensures QueueOk(w, Drained(w, s, o))
  {
    hide Ats, Resolve, WindowOrder;
    AtsTail(s.pending);
    var at := s.pending[0].at;
    assert s.drained + [at] + Ats(s.pending[1..]) == s.drained + ([at] + Ats(s.pending[1..]));
  }

  // ---- channels ----

  lemma {:induction false} VisitChannels(w: World, s: State, o: Streamed)
    requires Paired(w) && QueueOk(w, s) && ChannelsOk(w, s) && Enabled(w, s, Visit(o))
    ensures ChannelsOk(w, Visited(w, s, o))
  {
    hide Ats, WindowOrder, Draining, Paired;
    var s' := Visited(w, s, o);
    forall d, i | d in w.deps && s'.chans[d] == Open && 0 <= i < s'.next && w.plan[i].content && w.plan[i].rel == w.deps[d]
      ensures HeldBy(s', i, d)
    {
      if i < s.next {
        assert HeldBy(s, i, d);
        StillHeld(w, s, o, i, d);
      } else {
        NewlyHeld(w, s, o, d);
      }
    }
  }

  lemma StillHeld(w: World, s: State, o: Streamed, i: nat, d: string)
    requires s.next < |w.plan| && HeldBy(s, i, d)
    ensures HeldBy(Visited(w, s, o), i, d)
  {
    var s' := Visited(w, s, o);
    assert s.feeders <= s'.feeders && s.pending <= s'.pending;
    if k :| 0 <= k < |s.feeders| && d in s.feeders[k].txs {
      assert d in s'.feeders[k].txs;
    } else {
      var k :| 0 <= k < |s.pending| && s.pending[k].at == i && d in s.pending[k].txs;
      assert s'.pending[k].at == i && d in s'.pending[k].txs;
    }
  }

  lemma NewlyHeld(w: World, s: State, o: Streamed, d: string)
    requires Paired(w) && s.next < |w.plan| && w.plan[s.next].content
    requires d in w.deps && w.plan[s.next].rel == w.deps[d]
    ensures HeldBy(Visited(w, s, o), s.next, d)
  {
    var t := w.plan[s.next];
    var s' := Visited(w, s, o);
    assert d in Dependents(w.refs, t.rel);
    if FeedsItself(w, t) {
      assert s'.pending[|s.pending|] == JobFor(w, s.next);
      assert d in s'.pending[|s.pending|].txs;
    } else {
      assert s'.feeders[|s.feeders|] == Feeder(s.next, Dependents(w.refs, t.rel));
    }
  }

  lemma DrainChannels(w: World, s: State, o: Outcome)
    requires ChannelsOk(w, s) && s.pending != []
    ensures ChannelsOk(w, Drained(w, s, o))
  {
    var s' := Drained(w, s, o);
    forall d, i | d in w.deps && s'.chans[d] == Open && 0 <= i < s'.next && w.plan[i].content && w.plan[i].rel == w.deps[d]
      ensures HeldBy(s', i, d)
    {
      assert s.chans[d] == Open && d !in s.pending[0].txs;
      assert HeldBy(s, i, d);
      if k :| 0 <= k < |s.feeders| && d in s.feeders[k].txs {
        assert d in s'.feeders[k].txs;
      } else {
        var k :| 0 <= k < |s.pending| && s.pending[k].at == i && d in s.pending[k].txs;
        assert s'.pending[k - 1] == s.pending[k];
      }
    }
  }

  lemma FeedChannels(w: World, s: State, k: nat, ok: bool)
    requires ChannelsOk(w, s) && k < |s.feeders|
    ensures ChannelsOk(w, Fed(s, k, ok))
  {
    var s' := Fed(s, k, ok);
    forall d, i | d in w.deps && s'.chans[d] == Open && 0 <= i < s'.next && w.plan[i].content && w.plan[i].rel == w.deps[d]
      ensures HeldBy(s', i, d)
    {
      assert s.chans[d] == Open && d !in s.feeders[k].txs;
      assert HeldBy(s, i, d);
      if l :| 0 <= l < |s.feeders| && d in s.feeders[l].txs {
        assert s'.feeders[if l < k then l else l - 1] == s.feeders[l];
      }
    }
  }

  // ---- placement ----

  /** Growing the outputs loses nothing. */
  predicate Grows(s: State, s': State) {
    && s.wire <= s'.wire && s.batched <= s'.batched && s.skipped <= s'.skipped
    && (s.aborted.Some? ==> s'.aborted == s.aborted)
  }

  lemma StaysPlaced(w: World, s: State, s': State, i: nat)
    requires i < |w.plan| && Placed(w, s, i) && Grows(s, s') && (Queued(s, i) ==> Placed(w, s', i))
    ensures Placed(w, s', i)
  {
    hide Batchable;
    var rel := w.plan[i].rel;
    if k :| 0 <= k < |s.wire| && s.wire[k].rel == rel && !s.wire[k].Broken? {
      assert s'.wire[k].rel == rel;
    }
  }

  lemma StreamingPlaces(s: State, rel: string, o: Streamed)
    ensures var s' := Streaming(s, rel, o); Grows(s, s') && (OnWire(s'.wire, rel) || rel in s'.skipped)
  {
    var s' := Streaming(s, rel, o);
    if o.Whole? {
      assert s'.wire[|s.wire|].rel == rel;
    }
  }

  lemma VisitPlaces(w: World, s: State, o: Streamed)
    requires AllPlaced(w, s) && s.next < |w.plan|
    ensures AllPlaced(w, Visited(w, s, o)) && Grows(s, Visited(w, s, o))
  {
    hide Batchable, IsDelta, FeedsItself;
    var s' := Visited(w, s, o);
    var at, t := s.next, w.plan[s.next];
    StreamingPlaces(s.(next := at + 1, feeders := Feeding(w, at, s.feeders)), t.rel, o);
    if Windowed(w, t) {
      assert s'.pending[|s.pending|].at == at;
      assert Queued(s', at);
    }
    forall i | 0 <= i < s'.next && w.plan[i].content
      ensures Placed(w, s', i)
    {
      if i < at {
        if k :| 0 <= k < |s.pending| && s.pending[k].at == i {
          assert s'.pending[k].at == i;
          assert Queued(s', i);
        }
        StaysPlaced(w, s, s', i);
      }
    }
  }

  lemma DrainPlaces(w: World, s: State, o: Outcome)
    requires QueueOk(w, s) && AllPlaced(w, s) && s.pending != [] && s.aborted.None?
    ensures AllPlaced(w, Drained(w, s, o)) && Grows(s, Drained(w, s, o))
  {
    hide Resolve, Batchable, WindowOrder, Ats, Lost;
    var s' := Drained(w, s, o);
    var j := s.pending[0];
    DrainSettles(w, s, o);
    forall i | 0 <= i < s'.next && w.plan[i].content
      ensures Placed(w, s', i)
    {
      if k :| 0 <= k < |s.pending| && s.pending[k].at == i {
        if k > 0 {
          assert s'.pending[k - 1].at == i;
          assert Queued(s', i);
        } else {
          assert w.plan[i].rel == j.rel;
        }
      }
      StaysPlaced(w, s, s', i);
    }
  }

  lemma DrainSettles(w: World, s: State, o: Outcome)
    requires s.pending != [] && s.aborted.None?
    ensures var s', rel := Drained(w, s, o), s.pending[0].rel;
      Grows(s, s') && (OnWire(s'.wire, rel) || rel in s'.skipped || s'.aborted == Some(rel))
  {
    hide Resolve, Lost;
    var j := s.pending[0];
    var s' := Drained(w, s, o);
    var base := s.(pending := s.pending[1..], drained := s.drained + [j.at]);
    StreamingPlaces(base.(chans := Resolve(s.chans, j.txs, Dropped)), j.rel, o.stream);
    if |s'.wire| > |s.wire| {
      assert s'.wire[|s.wire|].rel == j.rel;
    }
  }

  // ---- wire order ----

  lemma FrontIsEarliest(w: World, s: State, i: nat)
    requires QueueOk(w, s) && s.pending != [] && i < s.pending[0].at
    ensures !Queued(s, i) && forall k | 0 <= k < |s.pending| :: s.pending[k].at != i
  {
    hide WindowOrder, Ats, Windowed, JobFor;
    assert forall k | 0 <= k < |s.pending| :: s.pending[0].at <= s.pending[k].at;
  }

  /** When a cross-file job reaches the front, its basis is already settled: sent,
      or reported as skipped. */
  lemma FrontBasisSettled(w: World, s: State)
    requires Paired(w) && QueueOk(w, s) && AllPlaced(w, s) && s.pending != [] && s.pending[0].basis.Some?
    requires s.aborted.None?
    ensures var j := s.pending[0];
      && j.rel in w.deps && w.deps[j.rel] == j.basis.value
      && (OnWire(s.wire, j.basis.value) || j.basis.value in s.skipped)
  {
    hide WindowOrder, Ats;
    var j := s.pending[0];
    var i := BasisOf(w, j.at);
    FrontIsEarliest(w, s, i);
    assert Placed(w, s, i);
  }

  lemma WireGrows(w: World, s: State, s': State)
    requires WireOrdered(w, s) && Grows(s, s')
    requires |s.wire| <= |s'.wire| <= |s.wire| + 1
    requires |s'.wire| > |s.wire| ==> Follows(s', |s.wire|)
    requires |s'.wire| > |s.wire| && s'.wire[|s.wire|].Recipe? && s'.wire[|s.wire|].basis.Some? ==>
      (s'.wire[|s.wire|].rel in w.deps && w.deps[s'.wire[|s.wire|].rel] == s'.wire[|s.wire|].basis.value)
    ensures WireOrdered(w, s')
  {
    forall k | 0 <= k < |s'.wire|
      ensures Follows(s', k)
    {
      if k < |s.wire| {
        assert Follows(s, k) && s'.wire[..k] == s.wire[..k];
      }
    }
  }

  lemma VisitOrdered(w: World, s: State, o: Streamed)
    requires WireOrdered(w, s) && s.next < |w.plan|
    ensures WireOrdered(w, Visited(w, s, o))
  {
    hide Batchable, Windowed, FeedsItself, Feeding, JobFor, WireOrdered;
    WireGrows(w, s, Visited(w, s, o));
  }

  lemma {:induction false} DrainOrdered(w: World, s: State, o: Outcome)
    requires Paired(w) && QueueOk(w, s) && AllPlaced(w, s) && WireOrdered(w, s) && s.pending != [] && s.aborted.None?
    ensures WireOrdered(w, Drained(w, s, o))
  {
    hide Resolve, Lost, QueueOk, AllPlaced, WireOrdered, Paired;
    var s' := Drained(w, s, o);
    if s.pending[0].basis.Some? {
      FrontBasisSettled(w, s);
    }
    if |s'.wire| > |s.wire| {
      assert s'.wire[..|s.wire|] == s.wire;
    }
    WireGrows(w, s, s');
  }

  // ---- no double send ----

  lemma VisitOnce(w: World, s: State, o: Streamed)
    requires Paired(w) && QueueOk(w, s) && SentOnce(w, s) && s.next < |w.plan|
    ensures SentOnce(w, Visited(w, s, o))
  {
    hide Batchable, FeedsItself, Feeding, Windowed, Ats, WindowOrder;
  }

  lemma DrainOnce(w: World, s: State, o: Outcome)
    requires Paired(w) && QueueOk(w, s) && SentOnce(w, s) && s.pending != []
    ensures SentOnce(w, Drained(w, s, o))
  {
    hide Resolve, Lost, Ats, WindowOrder, Windowed, FeedsItself;
    var s' := Drained(w, s, o);
    var j := s.pending[0];
    assert forall l | 0 < l < |s.pending| :: s.pending[l].rel != j.rel;
    assert forall k | 0 <= k < |s'.pending| :: s'.pending[k] == s.pending[k + 1];
    assert s'.wire == s.wire || s'.wire == s.wire + [Stream(j.rel)] || s'.wire == s.wire + [Broken(j.rel)]
      || s'.wire == s.wire + [Recipe(j.rel, j.basis)];
  }

  // ---- recipes and signatures ----

  /** What is on the wire stays unreported when another file is. */
  lemma StillUnchanged(s: State, s': State, rel: string, other: string)
    requires Unchanged(s, rel) && s.wire <= s'.wire
    requires forall r | r in s'.skipped :: r in s.skipped || r == other
    requires forall k | 0 <= k < |s.wire| :: s.wire[k].rel != other
    ensures Unchanged(s', rel)
  {
    var k :| 0 <= k < |s.wire| && s.wire[k].rel == rel && s.wire[k].Recipe?;
    assert s'.wire[k].rel == rel;
  }

  lemma VisitFed(w: World, s: State, o: Streamed)
    requires RecipesFed(s) && SentRight(w, s) && SentOnce(w, s) && s.next < |w.plan|
    ensures RecipesFed(Visited(w, s, o)) && SentRight(w, Visited(w, s, o))
  {
    hide Batchable, Windowed, Feeding, JobFor, FeedsItself, Unchanged;
    var s' := Visited(w, s, o);
    forall d, i | d in w.deps && 0 <= i < |w.plan| && w.plan[i].rel == w.deps[d] && FeedsItself(w, w.plan[i])
      && d in s'.chans && s'.chans[d] == Sent
      ensures Unchanged(s', w.plan[i].rel)
    {
      StillUnchanged(s, s', w.plan[i].rel, w.plan[s.next].rel);
    }
  }

  lemma DrainFed(w: World, s: State, o: Outcome)
    requires QueueOk(w, s) && ChannelsOk(w, s) && RecipesFed(s) && s.pending != [] && Ready(s, s.pending[0])
    ensures RecipesFed(Drained(w, s, o))
  {
    hide WindowOrder, Ats, Windowed, FeedsItself;
    var s', j := Drained(w, s, o), s.pending[0];
    assert j == JobFor(w, j.at);
    forall k | 0 <= k < |s'.wire| && s'.wire[k].Recipe? && s'.wire[k].basis.Some?
      ensures s'.wire[k].rel in s'.chans && s'.chans[s'.wire[k].rel] == Sent
    {
      if k < |s.wire| {
        assert s'.wire[k] == s.wire[k];
      }
    }
  }

  /** What a drain changes. */
  lemma DrainShape(w: World, s: State, o: Outcome)
    requires s.pending != []
    ensures var s', j := Drained(w, s, o), s.pending[0];
      && s'.next == s.next && s'.batched == s.batched && s'.pending == s.pending[1..] && s'.feeders == s.feeders
      && (s'.wire == s.wire || (|s'.wire| == |s.wire| + 1 && s'.wire[..|s.wire|] == s.wire && s'.wire[|s.wire|].rel == j.rel
            && (s'.wire[|s.wire|].Recipe? ==> s'.wire[|s.wire|].basis == j.basis)))
      && (s'.skipped == s.skipped || s'.skipped == s.skipped + [j.rel])
      && s'.chans.Keys == s.chans.Keys
      && (forall d | d in s.chans && s'.chans[d] == Sent && s.chans[d] != Sent ::
            d in j.txs && s'.wire == s.wire + [Recipe(j.rel, j.basis)] && s'.skipped == s.skipped)
  {
    hide FallsBack;
  }

  lemma {:induction false} DrainSentRight(w: World, s: State, o: Outcome)
    requires Paired(w) && QueueOk(w, s) && SentOnce(w, s) && SentRight(w, s) && Unreported(w, s) && s.pending != []
    ensures SentRight(w, Drained(w, s, o))
  {
    var s', j := Drained(w, s, o), s.pending[0];
    DrainShape(w, s, o);
    assert j == JobFor(w, j.at);
    hide WindowOrder, Ats, Windowed, QueueOk, Drained, Unchanged, FeedsItself;
    forall d, i | d in w.deps && 0 <= i < |w.plan| && w.plan[i].rel == w.deps[d] && FeedsItself(w, w.plan[i])
      && d in s'.chans && s'.chans[d] == Sent
      ensures Unchanged(s', w.plan[i].rel)
    {
      if s.chans[d] == Sent {
        StillUnchanged(s, s', w.plan[i].rel, j.rel);
      } else {
        assert d in Dependents(w.refs, j.rel);
        NowUnchanged(s, s', j);
      }
    }
  }

  lemma NowUnchanged(s: State, s': State, j: Job)
    requires s'.wire == s.wire + [Recipe(j.rel, j.basis)] && s'.skipped == s.skipped && j.rel !in s.skipped
    ensures Unchanged(s', j.rel)
  {
    assert s'.wire[|s.wire|].rel == j.rel;
  }

  lemma VisitUnreported(w: World, s: State, o: Streamed)
    requires Paired(w) && QueueOk(w, s) && Unreported(w, s) && s.next < |w.plan|
    ensures Unreported(w, Visited(w, s, o))
  {
    hide Batchable, Windowed, Feeding, FeedsItself, Ats, WindowOrder;
  }

  lemma DrainUnreported(w: World, s: State, o: Outcome)
    requires Paired(w) && QueueOk(w, s) && Unreported(w, s) && s.pending != []
    ensures Unreported(w, Drained(w, s, o))
  {
    DrainShape(w, s, o);
    hide Drained, Ats, WindowOrder, Windowed, FeedsItself;
    assert forall l | 0 < l < |s.pending| :: s.pending[l].rel != s.pending[0].rel;
  }

  lemma FeedFed(w: World, s: State, k: nat, ok: bool)
    requires Paired(w) && RecipesFed(s) && SentRight(w, s) && FeedersOk(w, s) && k < |s.feeders|
    ensures RecipesFed(Fed(s, k, ok)) && SentRight(w, Fed(s, k, ok)) && FeedersOk(w, Fed(s, k, ok))
    ensures Unreported(w, s) ==> Unreported(w, Fed(s, k, ok))
  {
    var s' := Fed(s, k, ok);
    assert FeederOk(w, s.feeders[k]);
    FeedersLeft(w, s, k, ok);
    hide FeederOk, FeedersOk, FeedsItself, Paired, Unchanged;
    forall d, i | d in w.deps && 0 <= i < |w.plan| && w.plan[i].rel == w.deps[d] && FeedsItself(w, w.plan[i])
      && d in s'.chans && s'.chans[d] == Sent
      ensures Unchanged(s', w.plan[i].rel)
    {
      FeederElsewhere(w, s.feeders[k], d, i);
      assert Unchanged(s, w.plan[i].rel);
      SameOutputs(s, s', w.plan[i].rel);
    }
  }

  lemma FeedersLeft(w: World, s: State, k: nat, ok: bool)
    requires FeedersOk(w, s) && k < |s.feeders|
    ensures FeedersOk(w, Fed(s, k, ok))
  {
    hide FeederOk;
  }

  lemma SameOutputs(s: State, s': State, rel: string)
    requires Unchanged(s, rel) && s'.wire == s.wire && s'.skipped == s.skipped
    ensures Unchanged(s', rel)
  {
  }

  /** A signature task does not feed the dependents of a reference that feeds its own. */
  lemma FeederElsewhere(w: World, f: Feeder, d: string, i: nat)
    requires Paired(w) && FeederOk(w, f) && i < |w.plan| && FeedsItself(w, w.plan[i])
    requires d in w.deps && w.plan[i].rel == w.deps[d]
    ensures d !in f.txs
  {
    hide FeedsItself;
    assert w.deps[d] == w.plan[f.at].rel || d !in f.txs;
  }

  lemma DrainFeeders(w: World, s: State, o: Outcome)
    requires FeedersOk(w, s) && s.pending != []
    ensures FeedersOk(w, Drained(w, s, o))
  {
    hide Resolve, FallsBack;
  }

  lemma VisitFeeders(w: World, s: State, o: Streamed)
    requires FeedersOk(w, s) && s.next < |w.plan|
    ensures FeedersOk(w, Visited(w, s, o))
  {
    hide Batchable, Windowed, JobFor;
  }

  // ---- routing ----

  /** The conditions of the loop, in sizes and pairings. */
  lemma RouteExactly(w: World, t: Task)
    requires Paired(w) && t.content
    ensures Batchable(w, t) <==> Small(w, t)
    ensures Windowed(w, t) <==> !Small(w, t) && !Large(w, t)
  {
    NoDependents(w, t.rel);
  }

  lemma NoDependents(w: World, rel: string)
    requires Paired(w)
    ensures Dependents(w.refs, rel) == [] <==> rel !in w.deps.Values
  {
    var ds := Dependents(w.refs, rel);
    if rel in w.deps.Values {
      var d :| d in w.deps && w.deps[d] == rel;
      assert d in ds;
    }
    if ds != [] {
      assert ds[0] in ds;
      assert w.deps[ds[0]] == rel;
    }
  }

  lemma FromLater(w: World, s: State, s': State, rel: string)
    requires FromPlan(w, s, rel) && s.next <= s'.next
    ensures FromPlan(w, s', rel)
  {
  }

  lemma {:induction false} VisitRouted(w: World, s: State, o: Streamed)
    requires Paired(w) && Routed(w, s) && s.next < |w.plan|
    ensures Routed(w, Visited(w, s, o))
  {
    var s', t := Visited(w, s, o), w.plan[s.next];
    if t.content {
      RouteExactly(w, t);
      assert FromPlan(w, s', t.rel);
    }
    forall r | FromPlan(w, s, r)
      ensures FromPlan(w, s', r) && r != t.rel
    {
      FromLater(w, s, s', r);
    }
    hide Batchable, Windowed, Small, Large, Feeding, FeedsItself, FromPlan;
  }

  lemma {:induction false} DrainRouted(w: World, s: State, o: Outcome)
    requires Paired(w) && QueueOk(w, s) && Routed(w, s) && s.pending != []
    ensures Routed(w, Drained(w, s, o))
  {
    var s', j := Drained(w, s, o), s.pending[0];
    DrainShape(w, s, o);
    assert RightJob(w, j) && j.at < s.next;
    hide WindowOrder, Ats, Windowed, Small, Large, QueueOk, Drained;
    assert FromPlan(w, s', j.rel);
    assert forall r | FromPlan(w, s, r) :: FromPlan(w, s', r);
    hide FromPlan;
    forall k, i | 0 <= k < |s'.wire| && 0 <= i < |w.plan| && w.plan[i].rel == s'.wire[k].rel
      ensures RightKind(w, w.plan[i], s'.wire[k])
    {
      if k == |s.wire| {
        assert i == j.at;
      } else {
        assert s'.wire[k] == s.wire[k];
      }
    }
    forall k | 0 <= k < |s'.wire|
      ensures FromPlan(w, s', s'.wire[k].rel)
    {
      assert k < |s.wire| ==> s'.wire[k] == s.wire[k];
    }
  }

  lemma FeedRouted(w: World, s: State, k: nat, ok: bool)
    requires Routed(w, s) && k < |s.feeders|
    ensures Routed(w, Fed(s, k, ok))
  {
    hide Small, Large, RightKind, RightJob;
    var s' := Fed(s, k, ok);
    assert forall r | FromPlan(w, s, r) :: FromPlan(w, s', r);
  }

  // ---- all together ----

  lemma {:induction false} StepKeeps(w: World, s: State, step: Step)
    requires Paired(w) && Inv(w, s) && Enabled(w, s, step)
    ensures Inv(w, After(w, s, step))
  {
    hide QueueOk, ChannelsOk, AllPlaced, WireOrdered, SentOnce, Paired, Visited, Drained, Fed, RecipesFed, SentRight,
      FeedersOk, Unreported, Routed;
    match step {
      case Visit(o) =>
        VisitFed(w, s, o);
        VisitFeeders(w, s, o);
        VisitUnreported(w, s, o);
        VisitRouted(w, s, o);
        VisitQueue(w, s, o);
        VisitChannels(w, s, o);
        VisitPlaces(w, s, o);
        VisitOrdered(w, s, o);
        VisitOnce(w, s, o);
      case Drain(o) =>
        DrainQueue(w, s, o);
        DrainChannels(w, s, o);
        DrainPlaces(w, s, o);
        DrainOrdered(w, s, o);
        DrainOnce(w, s, o);
        DrainFed(w, s, o);
        DrainSentRight(w, s, o);
        DrainUnreported(w, s, o);
        DrainRouted(w, s, o);
        DrainFeeders(w, s, o);
      case Feed(k, ok) =>
        FeedChannels(w, s, k, ok);
        FeedRest(w, s, k, ok);
        FeedFed(w, s, k, ok);
        FeedRouted(w, s, k, ok);
    }
  }

  lemma FeedRest(w: World, s: State, k: nat, ok: bool)
    requires QueueOk(w, s) && AllPlaced(w, s) && WireOrdered(w, s) && SentOnce(w, s) && k < |s.feeders|
    ensures var s' := Fed(s, k, ok); QueueOk(w, s') && AllPlaced(w, s') && WireOrdered(w, s') && SentOnce(w, s')
  {
    hide Resolve, Batchable;
    var s' := Fed(s, k, ok);
    forall i | 0 <= i < s'.next && w.plan[i].content
      ensures Placed(w, s', i)
    {
      assert Placed(w, s, i);
      assert Queued(s, i) ==> Queued(s', i);
    }
    assert forall k | 0 <= k < |s.wire| :: Follows(s, k) ==> Follows(s', k);
  }

  // ---- no deadlock ----

  /** A job at the front that is not ready waits for a running signature task: every
      job it could otherwise depend on has already left the queue. */
  lemma FrontIsFed(w: World, s: State)
    requires Paired(w) && Inv(w, s) && s.pending != [] && !Ready(s, s.pending[0])
    ensures exists k | 0 <= k < |s.feeders| :: s.pending[0].rel in s.feeders[k].txs
  {
    hide WindowOrder, Ats, WireOrdered, AllPlaced, SentOnce, Windowed, FeedsItself, Dependents;
    var j := s.pending[0];
    assert j == JobFor(w, j.at);
    var i := BasisOf(w, j.at);
    FrontIsEarliest(w, s, i);
    assert HeldBy(s, i, j.rel);
  }

  predicate Finished(w: World, s: State) {
    s.next >= |w.plan| && s.pending == [] && s.aborted.None?
  }

  predicate Over(w: World, s: State) {
    Finished(w, s) || s.aborted.Some?
  }

  /** In every state that keeps the invariant the loop is over or something can run; when
      it waits, the very signature task it waits for can run. */
  lemma {:induction false} NeverStuck(w: World, s: State, v: Streamed, o: Outcome, ok: bool)
    requires Paired(w) && Inv(w, s) && !Over(w, s)
    ensures
      if !Draining(w, s) then Enabled(w, s, Visit(v))
      else if Ready(s, s.pending[0]) then Enabled(w, s, Drain(o))
      else exists k | 0 <= k < |s.feeders| :: s.pending[0].rel in s.feeders[k].txs && Enabled(w, s, Feed(k, ok))
    ensures s.next < |w.plan| && |s.pending| < w.jobs ==> Enabled(w, s, Visit(v))
  {
    hide Paired, Inv;
    if Draining(w, s) && !Ready(s, s.pending[0]) {
      FrontIsFed(w, s);
      var k :| 0 <= k < |s.feeders| && s.pending[0].rel in s.feeders[k].txs;
      assert Enabled(w, s, Feed(k, ok));
    }
  }

  lemma CanMove(w: World, s: State)
    requires Paired(w) && Inv(w, s) && (Over(w, s) ==> s.feeders != [])
    ensures exists step :: Enabled(w, s, step)
  {
    hide Paired, Inv;
    if Over(w, s) {
      assert Enabled(w, s, Feed(0, true));
    } else {
      NeverStuck(w, s, Unreadable, Outcome(Failed, true, Unreadable), true);
    }
  }

  // ---- whole runs ----

  function Work(w: World, s: State): int
  {
    3 * (|w.plan| - s.next) + |s.pending| + |s.feeders|
  }

  lemma StepShrinks(w: World, s: State, step: Step)
    requires Enabled(w, s, step)
    ensures Work(w, After(w, s, step)) < Work(w, s)
  {
    hide Resolve, Batchable, Windowed, FeedsItself, Lost;
  }

  /** `run` is a possible run from `s` that ends in `end`. */
  predicate RunsTo(w: World, s: State, run: seq<Step>, end: State)
    decreases |run|
  {
    if run == [] then s == end
    else Enabled(w, s, run[0]) && RunsTo(w, After(w, s, run[0]), run[1..], end)
  }

  /** Every reachable state keeps the invariant, and every run is short: all
      interleavings terminate. */
  lemma {:induction false} RunKeeps(w: World, s: State, run: seq<Step>, end: State)
    requires Paired(w) && Inv(w, s) && RunsTo(w, s, run, end)
    ensures Inv(w, end) && |run| + Work(w, end) <= Work(w, s)
    decreases |run|
  {
    hide Inv, Paired, After, Enabled, Work;
    if run != [] {
      StepKeeps(w, s, run[0]);
      StepShrinks(w, s, run[0]);
      RunKeeps(w, After(w, s, run[0]), run[1..], end);
    }
  }

  /** The step drains a file without a useful basis whose size cannot be read again. */
  predicate GivesUp(w: World, s: State, step: Step) {
    step.Drain? && s.pending != [] && FallsBack(s, step.o) && !step.o.stat
  }

  /** No step of the run does. */
  predicate Survives(w: World, s: State, run: seq<Step>)
    decreases |run|
  {
    run == [] || (Enabled(w, s, run[0]) && !GivesUp(w, s, run[0]) && Survives(w, After(w, s, run[0]), run[1..]))
  }

  lemma StepAborts(w: World, s: State, step: Step)
    requires Enabled(w, s, step)
    ensures After(w, s, step).aborted.Some? <==> s.aborted.Some? || GivesUp(w, s, step)
  {
    hide Resolve, Windowed, Batchable, FeedsItself, Feeding;
  }

  lemma {:induction false} StaysAborted(w: World, s: State, run: seq<Step>, end: State)
    requires RunsTo(w, s, run, end) && s.aborted.Some?
    ensures end.aborted.Some?
    decreases |run|
  {
    hide After, Enabled, GivesUp;
    if run != [] {
      StepAborts(w, s, run[0]);
      StaysAborted(w, After(w, s, run[0]), run[1..], end);
    }
  }

  /** A file-level failure ends the run exactly when it is that one. */
  lemma {:induction false} AbortedExactly(w: World, s: State, run: seq<Step>, end: State)
    requires RunsTo(w, s, run, end) && s.aborted.None?
    ensures end.aborted.None? <==> Survives(w, s, run)
    decreases |run|
  {
    hide After, Enabled, GivesUp;
    if run != [] {
      StepAborts(w, s, run[0]);
      if GivesUp(w, s, run[0]) {
        StaysAborted(w, After(w, s, run[0]), run[1..], end);
      } else {
        AbortedExactly(w, After(w, s, run[0]), run[1..], end);
      }
    }
  }

  /** A run that cannot continue is over. The sender gave it up exactly when it had to
      stream a file whose size it could not read again. Otherwise it is finished: files
      were drained in plan order, each is on the wire, batched or reported, and no channel
      is left waiting. In both cases no file crosses twice and every cross-file recipe
      follows its basis's content on the wire unless that basis was reported, and went out
      only with its basis's signature. */
  lemma CompleteRun(w: World, run: seq<Step>, end: State)
    requires Paired(w) && RunsTo(w, Init(w), run, end) && forall step :: !Enabled(w, end, step)
    ensures |run| <= 3 * |w.plan| && WireOrdered(w, end) && SentOnce(w, end)
    ensures forall k | 0 <= k < |end.wire| && end.wire[k].Recipe? && end.wire[k].basis.Some? ::
      end.wire[k].rel in end.chans && end.chans[end.wire[k].rel] == Sent
    ensures SentRight(w, end) && Routed(w, end)
    ensures end.aborted.None? <==> Survives(w, Init(w), run)
    ensures Survives(w, Init(w), run) ==> Finished(w, end) && end.drained == WindowOrder(w, |w.plan|)
    ensures Survives(w, Init(w), run) ==> forall i | 0 <= i < |w.plan| && w.plan[i].content ::
      var rel := w.plan[i].rel; OnWire(end.wire, rel) || rel in end.skipped || rel in end.batched
    ensures Survives(w, Init(w), run) ==> forall d | d in w.deps :: d in end.chans && end.chans[d] != Open
  {
    hide After, WireOrdered, SentOnce, Paired, Enabled, Batchable, WindowOrder, Survives, SentRight, Routed;
    InitHolds(w);
    RunKeeps(w, Init(w), run, end);
    AbortedExactly(w, Init(w), run, end);
    if Over(w, end) ==> end.feeders != [] {
      CanMove(w, end);
    }
    if Survives(w, Init(w), run) {
      assert end.drained + [] == end.drained;
      AllResolved(w, end);
      forall i | 0 <= i < |w.plan| && w.plan[i].content
        ensures var rel := w.plan[i].rel; OnWire(end.wire, rel) || rel in end.skipped || rel in end.batched
      {
        assert Placed(w, end, i);
      }
    }
  }

  /** No stream comes after one that broke off. */
  predicate OnlyLastBroken(wire: seq<Item>) {
    forall k, l | 0 <= k < l < |wire| && wire[k].Broken? :: wire[l].Recipe?
  }

  lemma AllResolved(w: World, s: State)
    requires Paired(w) && ChannelsOk(w, s) && Finished(w, s) && s.feeders == []
    ensures forall d | d in w.deps :: d in s.chans && s.chans[d] != Open
  {
    forall d | d in w.deps
      ensures s.chans[d] != Open
    {
      var j :| 0 <= j < |w.plan| && w.plan[j].rel == d;
      var i := BasisOf(w, j);
      hide Paired;
      assert !HeldBy(s, i, d);
    }
  }
}
