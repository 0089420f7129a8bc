/** The sender's plan loop: the pairing pass, one turn per task, and the draining of
    the delta window, refining the window state machine. */
module SenderLoop {
  import opened Bytes
  import opened BasisIndex
  import opened SenderWindow

  // ---- the pairing pass ----

  /** The content entries before plan position `n`. */
  function Prior(plan: seq<Task>, n: nat): seq<StemEntry>
    requires n <= |plan|
  {
    if n == 0 then []
    else Prior(plan, n - 1) + (if plan[n - 1].content then [StemEntry(plan[n - 1].size, plan[n - 1].rel)] else [])
  }

  /** Files with no destination basis, large enough for cross-file pairing. */
  predicate Seeks(t: Task) {
    t.content && !IsDelta(t) && t.size >= CROSS_BASIS_MIN
  }

  function BasisName(best: Option<(string, nat)>): Option<string> {
    if best.Some? then Some(best.value.0) else None
  }

  function Lookup(deps: Deps, rel: string): Option<string> {
    if rel in deps then Some(deps[rel]) else None
  }

  /** Task `j` is paired exactly as a linear scan of the earlier entries would. */
  ghost predicate ChosenByScan(plan: seq<Task>, deps: Deps, keyOf: KeyOf, j: nat)
    requires j < |plan|
  {
    var t := plan[j];
    if Seeks(t) then
      exists best :: LinearChoice(best, Prior(plan, j), keyOf, t.rel, t.size) && Lookup(deps, t.rel) == BasisName(best)
    else t.rel !in deps
  }

  ghost predicate DistinctPaths(plan: seq<Task>) {
    forall i, j | 0 <= i < j < |plan| :: plan[i].rel != plan[j].rel
  }

  lemma {:induction false} PriorHas(plan: seq<Task>, n: nat, e: StemEntry)
    requires n <= |plan| && e in Prior(plan, n)
    ensures exists i | 0 <= i < n :: plan[i].content && plan[i].rel == e.rel
  {
    if e in Prior(plan, n - 1) {
      PriorHas(plan, n - 1, e);
    } else {
      assert plan[n - 1].content && plan[n - 1].rel == e.rel;
    }
  }

  /** No reference holds two senders for one dependent. */
  ghost predicate OneSender(refs: Refs) {
    forall r, i, j | 0 <= i < j < |Dependents(refs, r)| :: Dependents(refs, r)[i] != Dependents(refs, r)[j]
  }

  /** The pairing so far is consistent. */
  ghost predicate PairedTo(plan: seq<Task>, refs: Refs, deps: Deps, n: nat)
    requires n <= |plan|
  {
    && OneSender(refs)
    && (forall r, d :: d in Dependents(refs, r) <==> d in deps && deps[d] == r)
    && (forall d | d in deps :: exists j | 0 <= j < n :: plan[j].rel == d)
    && (forall j | 0 <= j < n && plan[j].rel in deps :: BasisBefore(World(plan, refs, deps, 0), j))
  }

  lemma PairOne(plan: seq<Task>, refs: Refs, deps: Deps, n: nat, basis: string)
    requires DistinctPaths(plan) && n < |plan| && PairedTo(plan, refs, deps, n)
    requires plan[n].content && exists i | 0 <= i < n :: plan[i].content && plan[i].rel == basis
    ensures var rel := plan[n].rel;
      PairedTo(plan, refs[basis := Dependents(refs, basis) + [rel]], deps[rel := basis], n + 1)
  {
    var rel := plan[n].rel;
    var refs', deps' := refs[basis := Dependents(refs, basis) + [rel]], deps[rel := basis];
    assert rel !in deps;
    hide OneSender;
    SenderAdded(refs, basis, rel);
    forall r, d
      ensures d in Dependents(refs', r) <==> d in deps' && deps'[d] == r
    {
      assert d in Dependents(refs, r) <==> d in deps && deps[d] == r;
    }
    assert plan[n].rel == rel;
    forall j | 0 <= j < n + 1 && plan[j].rel in deps'
      ensures BasisBefore(World(plan, refs', deps', 0), j)
    {
      if j < n {
        assert plan[j].rel != rel;
        assert BasisBefore(World(plan, refs, deps, 0), j);
      }
    }
  }

  lemma SenderAdded(refs: Refs, basis: string, rel: string)
    requires OneSender(refs) && rel !in Dependents(refs, basis)
    ensures OneSender(refs[basis := Dependents(refs, basis) + [rel]])
  {
    var was, refs' := Dependents(refs, basis), refs[basis := Dependents(refs, basis) + [rel]];
    forall r, i, j | 0 <= i < j < |Dependents(refs', r)|
      ensures Dependents(refs', r)[i] != Dependents(refs', r)[j]
    {
      if r == basis {
        assert Dependents(refs', r)[i] == was[i];
      } else {
        assert Dependents(refs', r) == Dependents(refs, r);
      }
    }
  }

  lemma SkipOne(plan: seq<Task>, refs: Refs, deps: Deps, n: nat)
    requires DistinctPaths(plan) && n < |plan| && PairedTo(plan, refs, deps, n)
    ensures PairedTo(plan, refs, deps, n + 1) && plan[n].rel !in deps
  {
  }

  lemma EarlierChoices(plan: seq<Task>, deps: Deps, deps': Deps, keyOf: KeyOf, n: nat)
    requires DistinctPaths(plan) && n < |plan|
    requires forall d :: d != plan[n].rel ==> Lookup(deps', d) == Lookup(deps, d)
    requires forall j | 0 <= j < n :: ChosenByScan(plan, deps, keyOf, j)
    ensures forall j | 0 <= j < n :: ChosenByScan(plan, deps', keyOf, j)
  {
    hide LinearChoice, Prior, Seeks;
    forall j | 0 <= j < n
      ensures ChosenByScan(plan, deps', keyOf, j)
    {
      assert ChosenByScan(plan, deps, keyOf, j);
      assert Lookup(deps', plan[j].rel) == Lookup(deps, plan[j].rel);
    }
  }

  /** Every pairing names an earlier file of the plan, and the one a linear scan of
      all earlier entries would choose. */
  method PairFiles(plan: seq<Task>, keyOf: KeyOf) returns (refs: Refs, deps: Deps)
    requires DistinctPaths(plan)
    ensures forall jobs :: Paired(World(plan, refs, deps, jobs))
    ensures OneSender(refs)
    ensures forall j | 0 <= j < |plan| :: ChosenByScan(plan, deps, keyOf, j)
    ensures forall j | 0 <= j < |plan| :: PairedRight(plan, deps, keyOf, j)
  {
    hide LinearChoice, ChosenByScan, PairedTo, DistinctPaths, OneSender, PairedRight;
    var maps := new BasisMaps(keyOf);
    refs, deps := map[], map[];
    NothingPaired(plan);
    for i := 0 to |plan|
      invariant maps.Valid() && fresh(maps) && maps.keyOf == keyOf && maps.prior == Prior(plan, i)
      invariant PairedTo(plan, refs, deps, i)
      invariant forall j | 0 <= j < i :: ChosenByScan(plan, deps, keyOf, j)
    {
      var t := plan[i];
      ghost var was := deps;
      SkipOne(plan, refs, deps, i);
      if !t.content {
        NotSeeking(plan, deps, keyOf, i);
        continue;
      }
      var best: Option<(string, nat)> := None;
      if !IsDelta(t) && t.size >= CROSS_BASIS_MIN {
        best := maps.Candidate(t.rel, t.size);
        if best.Some? {
          var (basis, size) := best.value;
          ChoiceIsEarlier(plan, i, best, keyOf);
          PairOne(plan, refs, deps, i, basis);
          refs := refs[basis := Dependents(refs, basis) + [t.rel]];
          deps := deps[t.rel := basis];
        }
        Chosen(plan, deps, keyOf, i, best);
      } else {
        NotSeeking(plan, deps, keyOf, i);
      }
      EarlierChoices(plan, was, deps, keyOf, i);
      maps.Register(t.rel, t.size);
    }
    AllPaired(plan, refs, deps);
    forall j | 0 <= j < |plan|
      ensures PairedRight(plan, deps, keyOf, j)
    {
      ScanPairsRight(plan, deps, keyOf, j);
    }
  }

  /** The earlier file `i` could serve `t` as a basis. */
  predicate CouldServe(plan: seq<Task>, keyOf: KeyOf, i: nat, t: Task)
    requires i < |plan|
  {
    plan[i].content && Siblings(keyOf(t.rel), t.size, keyOf(plan[i].rel), plan[i].size)
  }

  /** On sizes and names: a file is paired exactly when it has content of at least 1 MiB, is no
      update above 10 MiB and some earlier file could serve; then with a closest such file. */
  ghost predicate PairedRight(plan: seq<Task>, deps: Deps, keyOf: KeyOf, j: nat)
    requires j < |plan|
  {
    var t := plan[j];
    && (t.rel in deps <==>
          t.content && t.size >= 1048576 && !(t.update && t.size > 10485760)
          && exists i | 0 <= i < j :: CouldServe(plan, keyOf, i, t))
    && (t.rel in deps ==>
          exists i | 0 <= i < j :: CouldServe(plan, keyOf, i, t) && plan[i].rel == deps[t.rel]
            && forall k | 0 <= k < j && CouldServe(plan, keyOf, k, t) ::
                 Apart(plan[i].size, t.size) <= Apart(plan[k].size, t.size))
  }

  lemma {:induction false} PriorIs(plan: seq<Task>, n: nat, e: StemEntry)
    requires n <= |plan|
    ensures e in Prior(plan, n) <==>
      exists i | 0 <= i < n :: plan[i].content && StemEntry(plan[i].size, plan[i].rel) == e
  {
    if n > 0 {
      PriorIs(plan, n - 1, e);
    }
  }

  lemma {:induction false} ScanPairsRight(plan: seq<Task>, deps: Deps, keyOf: KeyOf, j: nat)
    requires j < |plan| && ChosenByScan(plan, deps, keyOf, j)
    ensures PairedRight(plan, deps, keyOf, j)
  {
    var t := plan[j];
    if Seeks(t) {
      var best :| LinearChoice(best, Prior(plan, j), keyOf, t.rel, t.size) && Lookup(deps, t.rel) == BasisName(best);
      ChoiceIsClosest(best, Prior(plan, j), keyOf, t.rel, t.size);
      hide Siblings, LinearChoice, Apart, Prior;
      forall i | 0 <= i < j && plan[i].content
        ensures StemEntry(plan[i].size, plan[i].rel) in Prior(plan, j)
      {
        PriorIs(plan, j, StemEntry(plan[i].size, plan[i].rel));
      }
      if best.Some? {
        PriorIs(plan, j, StemEntry(best.value.1, best.value.0));
        var i :| 0 <= i < j && plan[i].content && StemEntry(plan[i].size, plan[i].rel) == StemEntry(best.value.1, best.value.0);
        assert CouldServe(plan, keyOf, i, t);
      }
    }
  }

  lemma NothingPaired(plan: seq<Task>)
    ensures PairedTo(plan, map[], map[], 0)
  {
  }

  lemma NotSeeking(plan: seq<Task>, deps: Deps, keyOf: KeyOf, n: nat)
    requires n < |plan| && !Seeks(plan[n]) && plan[n].rel !in deps
    ensures ChosenByScan(plan, deps, keyOf, n)
  {
  }

  lemma Chosen(plan: seq<Task>, deps: Deps, keyOf: KeyOf, n: nat, best: Option<(string, nat)>)
    requires n < |plan| && Seeks(plan[n]) && LinearChoice(best, Prior(plan, n), keyOf, plan[n].rel, plan[n].size)
    requires Lookup(deps, plan[n].rel) == BasisName(best)
    ensures ChosenByScan(plan, deps, keyOf, n)
  {
    hide LinearChoice, Prior;
  }

  lemma {:induction false} ChoiceIsEarlier(plan: seq<Task>, n: nat, best: Option<(string, nat)>, keyOf: KeyOf)
    requires n < |plan| && best.Some? && LinearChoice(best, Prior(plan, n), keyOf, plan[n].rel, plan[n].size)
    ensures exists i | 0 <= i < n :: plan[i].content && plan[i].rel == best.value.0
  {
    PriorHas(plan, n, StemEntry(best.value.1, best.value.0));
  }

  lemma AllPaired(plan: seq<Task>, refs: Refs, deps: Deps)
    requires DistinctPaths(plan) && PairedTo(plan, refs, deps, |plan|)
    ensures OneSender(refs)
    ensures forall jobs :: Paired(World(plan, refs, deps, jobs))
  {
    hide OneSender;
    forall jobs
      ensures Paired(World(plan, refs, deps, jobs))
    {
      var w := World(plan, refs, deps, jobs);
      forall j | 0 <= j < |plan| && plan[j].rel in deps
        ensures BasisBefore(w, j)
      {
        assert BasisBefore(World(plan, refs, deps, 0), j);
      }
    }
  }

  // ---- the loop ----

  lemma {:induction false} RunSnoc(w: World, s: State, run: seq<Step>, mid: State, step: Step)
    requires RunsTo(w, s, run, mid) && Enabled(w, mid, step)
    ensures RunsTo(w, s, run + [step], After(w, mid, step))
    decreases |run|
  {
    hide After, Enabled;
    if run == [] {
      assert (run + [step])[1..] == [];
    } else {
      RunSnoc(w, After(w, s, run[0]), run[1..], mid, step);
      assert (run + [step])[1..] == run[1..] + [step];
    }
  }

  class Sender {
    const plan: seq<Task>
    const jobs: nat
    ghost const refs: Refs
    ghost const deps: Deps
    var basisSenders: Refs
    var basisReceivers: Deps
    var next: nat
    var pending: seq<Job>
    var feeders: seq<Feeder>
    var chans: map<string, Chan>
    var wire: seq<Item>
    var batched: seq<string>
    var skipped: seq<string>
    var drained: seq<nat>
    /** The file at which the loop returned its error, if it did. */
    var aborted: Option<string>
    ghost var run: seq<Step>

    ghost function World(): World {
      SenderWindow.World(plan, refs, deps, jobs)
    }

    ghost function View(): State
      reads this
    {
      State(next, pending, feeders, chans, wire, batched, skipped, drained, aborted)
    }

    /** The state is one a run of the state machine reaches, and the maps still hold
        the entries of every task not visited yet. */
    ghost predicate Valid()
      reads this
    {
      && Paired(World()) && RunsTo(World(), Init(World()), run, View())
      && next <= |plan|
      && forall i | next <= i < |plan| ::
           && Dependents(basisSenders, plan[i].rel) == Dependents(refs, plan[i].rel)
           && Lookup(basisReceivers, plan[i].rel) == Lookup(deps, plan[i].rel)
    }

    constructor (plan: seq<Task>, jobs: nat, keyOf: KeyOf)
      requires DistinctPaths(plan)
      ensures Valid() && this.plan == plan && this.jobs == jobs && run == [] && aborted.None?
      ensures forall j | 0 <= j < |plan| :: ChosenByScan(plan, deps, keyOf, j)
    {
      var senders, receivers := PairFiles(plan, keyOf);
      this.plan, this.jobs := plan, jobs;
      refs, deps := senders, receivers;
      basisSenders, basisReceivers := senders, receivers;
      next, pending, feeders, wire, batched, skipped, drained := 0, [], [], [], [], [], [];
      chans := map d | d in receivers :: Open;
      aborted, run := None, [];
    }

    lemma Invariant()
      requires Valid()
      ensures Inv(World(), View())
    {
      hide Inv, Paired, RunsTo;
      InitHolds(World());
      RunKeeps(World(), Init(World()), run, View());
    }

    /** One turn of the plan loop for a file there is room for. */
    method VisitTask(v: Streamed)
      requires Valid() && Enabled(World(), View(), Visit(v))
      modifies this
      ensures Valid() && View() == Visited(World(), old(View()), v) && next == old(next) + 1
      ensures aborted == old(aborted)
    {
      hide Paired, RunsTo, Visited, After, Enabled;
      ghost var w, s := World(), View();
      RunSnoc(w, Init(w), run, s, Visit(v));
      Visiting(w, s, v);
      OthersLeft(basisSenders, basisReceivers, next);
      Turn(v);
      run := run + [Visit(v)];
    }

    /** The body of the turn: a file takes its channels out of the maps and goes to
        the batch, the window or the wire. */
    method Turn(v: Streamed)
      requires next < |plan|
      requires Dependents(basisSenders, plan[next].rel) == Dependents(refs, plan[next].rel)
      requires Lookup(basisReceivers, plan[next].rel) == Lookup(deps, plan[next].rel)
      modifies this
      ensures View() == Visited(World(), old(View()), v) && next == old(next) + 1 && run == old(run)
      ensures basisSenders == old(basisSenders) || basisSenders == old(basisSenders) - {plan[old(next)].rel}
      ensures basisReceivers == old(basisReceivers) || basisReceivers == old(basisReceivers) - {plan[old(next)].rel}
    {
      var at, t := next, plan[next];
      next := next + 1;
      if t.content {
        var txs := Dependents(basisSenders, t.rel);
        var basis := Lookup(basisReceivers, t.rel);
        basisSenders := basisSenders - {t.rel};
        basisReceivers := basisReceivers - {t.rel};
        Route(at, t, txs, basis, v);
      }
    }

    method Route(at: nat, t: Task, txs: seq<string>, basis: Option<string>, v: Streamed)
      requires at < |plan| && t == plan[at] && t.content
      requires txs == Dependents(refs, t.rel) && basis == Lookup(deps, t.rel)
      modifies this`batched, this`pending, this`feeders, this`wire, this`skipped
      ensures View() == Visited(World(), old(View()).(next := at), v).(next := next)
    {
      hide Dependents, IsDelta;
      if !IsDelta(t) && t.size <= SMALL_FILE_MAX && txs == [] && basis.None? {
        batched := batched + [t.rel];
      } else if basis.Some? {
        SpawnFeeder(at, txs);
        pending := pending + [Job(at, t.rel, basis, [])];
      } else if IsDelta(t) {
        pending := pending + [Job(at, t.rel, None, txs)];
      } else if t.size <= MEDIUM_FILE_MAX {
        SpawnFeeder(at, txs);
        pending := pending + [Job(at, t.rel, None, [])];
      } else {
        SpawnFeeder(at, txs);
        SendWhole(t.rel, v);
      }
    }

    /** Removing one task's entries leaves those of every later task. */
    lemma OthersLeft(senders: Refs, receivers: Deps, at: nat)
      requires Paired(World()) && at < |plan|
      ensures forall i | at < i < |plan| ::
        && Dependents(senders - {plan[at].rel}, plan[i].rel) == Dependents(senders, plan[i].rel)
        && Lookup(receivers - {plan[at].rel}, plan[i].rel) == Lookup(receivers, plan[i].rel)
    {
    }

    lemma Visiting(w: World, s: State, v: Streamed)
      requires Enabled(w, s, Visit(v))
      ensures s.next < |w.plan| && After(w, s, Visit(v)) == Visited(w, s, v)
      ensures Visited(w, s, v).aborted == s.aborted
    {
    }

    method SpawnFeeder(at: nat, txs: seq<string>)
      modifies this`feeders
      ensures feeders == if txs == [] then old(feeders) else old(feeders) + [Feeder(at, txs)]
    {
      if txs != [] {
        feeders := feeders + [Feeder(at, txs)];
      }
    }

    /** A whole-file stream, reported when the source changed, or could not be read after
        the start frame went out. */
    method SendWhole(rel: string, v: Streamed)
      modifies this`wire, this`skipped
      ensures View() == Streaming(old(View()), rel, v)
    {
      match v {
        case Whole(same) =>
          wire := wire + [Stream(rel)];
          if !same {
            skipped := skipped + [rel];
          }
        case Unreadable =>
          wire := wire + [Broken(rel)];
          skipped := skipped + [rel];
      }
    }

    /** Join the oldest job and send what it prepared. */
    method DrainDelta(o: Outcome)
      requires Valid() && Enabled(World(), View(), Drain(o))
      modifies this
      ensures Valid() && View() == Drained(World(), old(View()), o) && next == old(next)
    {
      hide Paired, RunsTo, Drained, Windowed;
      ghost var w, s := World(), View();
      RunSnoc(w, Init(w), run, s, Drain(o));
      SendOldest(o);
      run := run + [Drain(o)];
    }

    method SendOldest(o: Outcome)
      requires pending != []
      modifies this`pending, this`drained, this`chans, this`wire, this`skipped, this`aborted
      ensures View() == Drained(World(), old(View()), o)
    {
      hide Resolve, Streaming;
      var job := pending[0];
      pending := pending[1..];
      drained := drained + [job.at];
      var lost := job.basis.Some? && job.rel in chans && chans[job.rel] == Dropped;
      if lost || o.compute.Fallback? {
        FallBack(job, o);
      } else {
        SendComputed(job, o);
      }
    }

    /** No useful basis: read the size again and stream the file. */
    method FallBack(job: Job, o: Outcome)
      modifies this`chans, this`wire, this`skipped, this`aborted
      ensures var dropped := old(View()).(chans := old(Resolve(chans, job.txs, Dropped)));
        View() == if !o.stat then dropped.(aborted := Some(job.rel)) else Streaming(dropped, job.rel, o.stream)
    {
      hide Resolve, Streaming;
      chans := Resolve(chans, job.txs, Dropped);
      if !o.stat {
        aborted := Some(job.rel);
      } else {
        SendWhole(job.rel, o.stream);
      }
    }

    /** What the computation prepared, or its error. */
    method SendComputed(job: Job, o: Outcome)
      requires !o.compute.Fallback?
      modifies this`chans, this`wire, this`skipped
      ensures var dropped := old(View()).(chans := old(Resolve(chans, job.txs, Dropped)));
        match o.compute
        case Prepared(sig, same) => View() == old(View()).(
          wire := old(wire) + [Recipe(job.rel, job.basis)],
          skipped := old(skipped) + (if same then [] else [job.rel]),
          chans := old(Resolve(chans, job.txs, if sig && same then Sent else Dropped)))
        case Dissimilar => View() == Streaming(dropped, job.rel, o.stream)
        case Failed => View() == dropped.(skipped := old(skipped) + [job.rel])
    {
      hide Resolve, Streaming;
      match o.compute {
        case Dissimilar =>
          chans := Resolve(chans, job.txs, Dropped);
          SendWhole(job.rel, o.stream);
        case Prepared(sig, same) =>
          wire := wire + [Recipe(job.rel, job.basis)];
          chans := Resolve(chans, job.txs, if sig && same then Sent else Dropped);
          skipped := skipped + (if same then [] else [job.rel]);
        case Failed =>
          chans := Resolve(chans, job.txs, Dropped);
          skipped := skipped + [job.rel];
      }
    }

    /** A detached signature task ends: it sends its signature, or drops. */
    method FeedOne(k: nat, ok: bool)
      requires Valid() && k < |feeders|
      modifies this
      ensures Valid() && View() == Fed(old(View()), k, ok)
      ensures chans.Keys == old(chans).Keys
      ensures forall d | d in chans && d in old(feeders)[k].txs && old(chans)[d] == Open ::
        chans[d] == if ok then Sent else Dropped
      ensures forall d | d in chans && (d !in old(feeders)[k].txs || old(chans)[d] != Open) :: chans[d] == old(chans)[d]
    {
      hide Paired, RunsTo, WindowOrder;
      ghost var w, s := World(), View();
      RunSnoc(w, Init(w), run, s, Feed(k, ok));
      run := run + [Feed(k, ok)];
      chans := Resolve(chans, feeders[k].txs, if ok then Sent else Dropped);
      feeders := feeders[..k] + feeders[k + 1..];
    }

    /** A signature task ends, and nothing that was settled changes. */
    method FeedTracked(k: nat, ok: bool, ghost outcome: nat -> Outcome)
      requires Valid() && Tracked(outcome) && k < |feeders|
      modifies this
      ensures Valid() && Tracked(outcome) && View() == Fed(old(View()), k, ok)
    {
      hide Paired, RunsTo, AsComputed, StillWaiting, Fed, FeedersOk, QueueOk, ChannelsOk, AllPlaced, WireOrdered, SentOnce,
        RecipesFed, SentRight, Unreported, Routed;
      Invariant();
      FeedComputed(World(), View(), k, ok, outcome);
      FeedOne(k, ok);
    }

    /** Signature tasks that end while the loop does something else. */
    method Background(events: seq<(nat, bool)>, ghost outcome: nat -> Outcome)
      requires Valid() && Tracked(outcome)
      modifies this
      ensures Valid() && Tracked(outcome) && pending == old(pending) && next == old(next) && aborted == old(aborted)
      ensures Draining(World(), View()) == old(Draining(World(), View()))
    {
      hide Paired, RunsTo, Resolve, WindowOrder, Windowed, Tracked;
      for i := 0 to |events|
        invariant Valid() && Tracked(outcome) && pending == old(pending) && next == old(next) && aborted == old(aborted)
      {
        var (k, ok) := events[i];
        if k < |feeders| {
          FeedTracked(k, ok, outcome);
        }
      }
    }

    /** Wait for the oldest job. Whatever order the signature tasks end in, the wait
        ends: while the job is not ready one of them is still running. */
    method AwaitFront(pick: nat -> nat, ok: nat -> bool, ghost outcome: nat -> Outcome)
      requires Valid() && Tracked(outcome) && Draining(World(), View())
      modifies this
      ensures Valid() && Tracked(outcome) && Draining(World(), View()) && Ready(View(), pending[0])
      ensures pending == old(pending) && next == old(next) && aborted == old(aborted)
    {
      hide Paired, RunsTo, Inv, Resolve, WindowOrder, Windowed, Tracked;
      while pending[0].basis.Some? && pending[0].rel in chans && chans[pending[0].rel] == Open
        invariant Valid() && Tracked(outcome) && pending == old(pending) && next == old(next) && aborted == old(aborted)
        invariant pending != []
        decreases |feeders|
      {
        Invariant();
        FrontIsFed(World(), View());
        FeedTracked(pick(|feeders|) % |feeders|, ok(|feeders|), outcome);
      }
    }

    /** The window is full and the next task needs a place in it. */
    method Full() returns (full: bool)
      requires Valid() && next < |plan|
      ensures full == Draining(World(), View())
    {
      hide Paired, RunsTo;
      var t := plan[next];
      var txs := Dependents(basisSenders, t.rel);
      var basis := Lookup(basisReceivers, t.rel);
      var batchable := !IsDelta(t) && t.size <= SMALL_FILE_MAX && txs == [] && basis.None?;
      full := t.content && !batchable && (basis.Some? || IsDelta(t) || t.size <= MEDIUM_FILE_MAX)
        && |pending| >= jobs && |pending| > 0;
    }

    method DrainOne(outcome: nat -> Outcome, pick: nat -> nat, ok: nat -> bool)
      requires Valid() && Tracked(outcome) && aborted.None? && Draining(World(), View())
      modifies this
      ensures Valid() && Tracked(outcome) && next == old(next) && pending == old(pending)[1..]
      ensures next < |plan| ==> !Draining(World(), View())
      ensures (forall at :: outcome(at).stat) ==> aborted.None?
    {
      hide Paired, RunsTo, Windowed, Drained, QueueOk, ChannelsOk, AllPlaced, WireOrdered, SentOnce, FallsBack, AsComputed,
        StillWaiting, RecipesFed, SentRight, FeedersOk, Unreported, Routed;
      AwaitFront(pick, ok, outcome);
      Invariant();
      ghost var s := View();
      var o := outcome(pending[0].at);
      DrainEnabled(World(), s, o);
      DrainComputed(World(), s, outcome);
      DrainDelta(o);
      if s.next < |plan| {
        DrainMakesRoom(World(), s, o);
      }
    }

    /** One turn with the outcome of the file's own stream. */
    method VisitTracked(outcome: nat -> Outcome)
      requires Valid() && Tracked(outcome) && Enabled(World(), View(), Visit(outcome(next).stream))
      modifies this
      ensures Valid() && Tracked(outcome) && next == old(next) + 1 && aborted == old(aborted)
    {
      hide Paired, RunsTo, Visited, Windowed, QueueOk, ChannelsOk, AllPlaced, WireOrdered, SentOnce, AsComputed, StillWaiting,
        RecipesFed, SentRight, FeedersOk, Unreported, Routed;
      Invariant();
      VisitComputed(World(), View(), outcome);
      VisitTask(outcome(next).stream);
    }

    /** The whole loop: for every outcome of every job and every order in which the
        signature tasks end, before any step of the loop or while it waits, it terminates.
        It returns its error exactly when a file without a useful basis has lost its size,
        and otherwise the plan is done and the window empty. Either way every file ended as
        its outcome and its basis signature say. */
    method ApplyPlan(
      outcome: nat -> Outcome, background: nat -> seq<(nat, bool)>, pick: nat -> nat, ok: nat -> bool)
      requires Valid() && run == [] && aborted.None?
      modifies this
      ensures Valid() && (aborted.None? <==> Survives(World(), Init(World()), run))
      ensures (forall at :: outcome(at).stat) ==> aborted.None?
      ensures aborted.None? ==> Finished(World(), View()) && drained == WindowOrder(World(), |plan|)
      ensures Inv(World(), View()) && AsComputed(World(), View(), outcome)
    {
      hide Paired, Resolve, Windowed, WindowOrder, Draining, Visited, WireOrdered, SentOnce, AllPlaced, Survives;
      NothingYet(World(), outcome);
      assert View() == Init(World()) && Tracked(outcome);
      hide RunsTo, Tracked;
      var step: nat := 0;
      while next < |plan| && aborted.None?
        invariant Valid() && Tracked(outcome) && ((forall at :: outcome(at).stat) ==> aborted.None?)
        decreases |plan| - next, aborted.None?
      {
        Background(background(step), outcome);
        var full := Full();
        if full {
          DrainOne(outcome, pick, ok);
          if aborted.Some? {
            break;
          }
          Background(background(step + 1), outcome);
        }
        VisitTracked(outcome);
        step := step + 2;
      }
      while |pending| > 0 && aborted.None?
        invariant Valid() && Tracked(outcome) && (aborted.Some? || next >= |plan|)
        invariant (forall at :: outcome(at).stat) ==> aborted.None?
        decreases |pending|
      {
        Background(background(step), outcome);
        DrainsAtEnd(World(), View());
        DrainOne(outcome, pick, ok);
        step := step + 1;
      }
      FinishTracked(outcome);
    }

    lemma FinishTracked(outcome: nat -> Outcome)
      requires Valid() && Tracked(outcome) && (aborted.Some? || (next >= |plan| && pending == []))
      ensures Inv(World(), View()) && AsComputed(World(), View(), outcome)
      ensures aborted.None? <==> Survives(World(), Init(World()), run)
      ensures aborted.None? ==> drained == WindowOrder(World(), |plan|)
    {
      hide Paired, RunsTo, WindowOrder, AsComputed, StillWaiting, Survives, AllPlaced, WireOrdered, SentOnce, Windowed,
        RecipesFed, SentRight, FeedersOk, Unreported, Routed, ChannelsOk;
      Invariant();
      AbortedExactly(World(), Init(World()), run, View());
      assert drained + Ats(pending) == drained || pending != [];
    }

    /** Every file visited or drained so far ended as its outcome says. */
    ghost predicate Tracked(outcome: nat -> Outcome)
      reads this
    {
      AsComputed(World(), View(), outcome) && StillWaiting(World(), View())
    }
  }

  lemma NothingYet(w: World, outcome: nat -> Outcome)
    ensures AsComputed(w, Init(w), outcome) && StillWaiting(w, Init(w))
  {
    hide EndedBy, StreamedBy, FeedsItself;
  }

  // ---- every file's end, by its outcome ----

  /** The basis signature came, if the file waits for one. */
  predicate HasSignature(w: World, s: State, rel: string) {
    rel in w.deps ==> rel in s.chans && s.chans[rel] == Sent
  }

  ghost predicate Crossed(s: State, item: Item) {
    exists k | 0 <= k < |s.wire| :: s.wire[k] == item
  }

  function StreamItem(rel: string, v: Streamed): Item {
    if v.Unreadable? then Broken(rel) else Stream(rel)
  }

  /** A drained file with its outcome: with the signature it needs and a delta it went as a
      recipe; with an error it was reported and nothing crossed; otherwise it was streamed, or
      the run was given up for its lost size. It was reported when it changed or broke off,
      and its own dependents have its signature exactly from an unchanged delta. */
  ghost predicate EndedBy(w: World, s: State, at: nat, o: Outcome) {
    && at < |w.plan| && (w.plan[at].rel in w.deps ==> w.plan[at].rel in s.chans && s.chans[w.plan[at].rel] != Open)
    && var rel := w.plan[at].rel;
       if HasSignature(w, s, rel) && o.compute.Prepared? then
         && Crossed(s, Recipe(rel, Lookup(w.deps, rel))) && (!o.compute.same ==> rel in s.skipped)
         && (FeedsItself(w, w.plan[at]) && o.compute.sig && o.compute.same ==>
               forall d | d in w.deps && w.deps[d] == rel :: d in s.chans && s.chans[d] == Sent)
       else if HasSignature(w, s, rel) && o.compute.Failed? then
         rel in s.skipped && forall k | 0 <= k < |s.wire| :: s.wire[k].rel != rel
       else if !(HasSignature(w, s, rel) && o.compute.Dissimilar?) && !o.stat then s.aborted == Some(rel)
       else Crossed(s, StreamItem(rel, o.stream)) && (o.stream != Whole(true) ==> rel in s.skipped)
  }

  /** A visited file above 16 MiB without a basis was streamed at once. */
  ghost predicate StreamedBy(w: World, s: State, i: nat, v: Streamed)
    requires i < |w.plan|
  {
    Crossed(s, StreamItem(w.plan[i].rel, v)) && (v != Whole(true) ==> w.plan[i].rel in s.skipped)
  }

  ghost predicate AsComputed(w: World, s: State, outcome: nat -> Outcome) {
    && s.next <= |w.plan|
    && (forall at | at in s.drained :: EndedBy(w, s, at, outcome(at)))
    && (forall i | 0 <= i < s.next && Large(w, w.plan[i]) :: StreamedBy(w, s, i, outcome(i).stream))
  }

  /** While a reference that feeds its dependents itself is not drained, they all wait. */
  ghost predicate StillWaiting(w: World, s: State) {
    && s.chans.Keys == w.deps.Keys
    && forall d, i | d in w.deps && 0 <= i < |w.plan| && w.plan[i].rel == w.deps[d] && FeedsItself(w, w.plan[i])
         && i !in s.drained :: s.chans[d] == Open
  }

  /** Nothing that was settled changes. */
  ghost predicate Extends(s: State, s': State, other: string) {
    && s.wire <= s'.wire && s.skipped <= s'.skipped && s.chans.Keys == s'.chans.Keys
    && (forall c | c in s.chans && s.chans[c] != Open :: s'.chans[c] == s.chans[c])
    && (s.aborted.Some? ==> s'.aborted == s.aborted)
    && (forall k | |s.wire| <= k < |s'.wire| :: s'.wire[k].rel == other)
  }

  lemma CrossedStays(s: State, s': State, item: Item)
    requires Crossed(s, item) && s.wire <= s'.wire
    ensures Crossed(s', item)
  {
    var k :| 0 <= k < |s.wire| && s.wire[k] == item;
    assert s'.wire[k] == item;
  }

  lemma EndStays(w: World, s: State, s': State, at: nat, o: Outcome, other: string)
    requires EndedBy(w, s, at, o) && Extends(s, s', other) && (|s'.wire| > |s.wire| ==> w.plan[at].rel != other)
    ensures EndedBy(w, s', at, o)
  {
    hide FeedsItself, Crossed;
    var rel := w.plan[at].rel;
    assert HasSignature(w, s', rel) == HasSignature(w, s, rel);
    forall item | Crossed(s, item)
      ensures Crossed(s', item)
    {
      CrossedStays(s, s', item);
    }
  }

  lemma StreamStays(w: World, s: State, s': State, i: nat, v: Streamed, other: string)
    requires i < |w.plan| && StreamedBy(w, s, i, v) && Extends(s, s', other)
    ensures StreamedBy(w, s', i, v)
  {
    hide Crossed;
    CrossedStays(s, s', StreamItem(w.plan[i].rel, v));
  }

  lemma {:induction false} WindowBefore(w: World, n: nat)
    requires n <= |w.plan|
    ensures forall at | at in WindowOrder(w, n) :: at < n && Windowed(w, w.plan[at])
    ensures forall k, l | 0 <= k < l < |WindowOrder(w, n)| :: WindowOrder(w, n)[k] < WindowOrder(w, n)[l]
  {
    if n > 0 {
      hide Windowed;
      WindowBefore(w, n - 1);
      var before := WindowOrder(w, n - 1);
      assert forall k | 0 <= k < |before| :: before[k] in before;
    }
  }

  /** What was drained lies before the plan position, and not in the queue. */
  lemma DrainedBefore(w: World, s: State)
    requires QueueOk(w, s)
    ensures s.next <= |w.plan|
    ensures forall at | at in s.drained :: at < s.next && (s.pending != [] ==> at != s.pending[0].at)
  {
    WindowBefore(w, s.next);
    hide WindowOrder, Windowed, JobFor;
    var order := WindowOrder(w, s.next);
    assert s.drained + Ats(s.pending) == order;
    forall at | at in s.drained
      ensures at < s.next && (s.pending != [] ==> at != s.pending[0].at)
    {
      var k :| 0 <= k < |s.drained| && s.drained[k] == at;
      assert order[k] == at && at in order;
      if s.pending != [] {
        assert order[|s.drained|] == s.pending[0].at;
      }
    }
  }

  lemma VisitExtends(w: World, s: State, o: Streamed)
    requires s.next < |w.plan| && s.aborted.None?
    ensures var s' := Visited(w, s, o);
      Extends(s, s', w.plan[s.next].rel) && s'.drained == s.drained && s'.chans == s.chans && s'.next == s.next + 1
  {
    hide Batchable, Windowed, Feeding, JobFor;
  }

  lemma VisitLarge(w: World, s: State, o: Streamed)
    requires Paired(w) && s.next < |w.plan| && Large(w, w.plan[s.next])
    ensures StreamedBy(w, Visited(w, s, o), s.next, o)
  {
    var s', t := Visited(w, s, o), w.plan[s.next];
    RouteExactly(w, t);
    hide Paired, Batchable, Windowed, Feeding, JobFor;
    assert s'.wire[|s.wire|] == StreamItem(t.rel, o);
  }

  lemma {:induction false} VisitComputed(w: World, s: State, outcome: nat -> Outcome)
    requires Paired(w) && QueueOk(w, s) && AsComputed(w, s, outcome) && StillWaiting(w, s)
    requires s.next < |w.plan| && s.aborted.None?
    ensures var s' := Visited(w, s, outcome(s.next).stream); AsComputed(w, s', outcome) && StillWaiting(w, s')
  {
    var s', rel := Visited(w, s, outcome(s.next).stream), w.plan[s.next].rel;
    VisitExtends(w, s, outcome(s.next).stream);
    DrainedBefore(w, s);
    hide QueueOk, Visited, EndedBy, StreamedBy, Extends, Large, FeedsItself;
    forall at | at in s'.drained
      ensures EndedBy(w, s', at, outcome(at))
    {
      EndStays(w, s, s', at, outcome(at), rel);
    }
    forall i | 0 <= i < s'.next && Large(w, w.plan[i])
      ensures StreamedBy(w, s', i, outcome(i).stream)
    {
      if i < s.next {
        StreamStays(w, s, s', i, outcome(i).stream, rel);
      } else {
        VisitLarge(w, s, outcome(i).stream);
      }
    }
  }

  lemma DrainExtends(w: World, s: State, o: Outcome)
    requires s.pending != [] && s.aborted.None?
    ensures var s' := Drained(w, s, o);
      Extends(s, s', s.pending[0].rel) && s'.drained == s.drained + [s.pending[0].at] && s'.next == s.next
    ensures forall c | c in s.chans && c !in s.pending[0].txs :: Drained(w, s, o).chans[c] == s.chans[c]
  {
    hide FallsBack;
  }

  lemma DrainEnds(w: World, s: State, o: Outcome)
    requires Paired(w) && QueueOk(w, s) && SentOnce(w, s) && StillWaiting(w, s) && s.pending != [] && s.aborted.None?
    requires Ready(s, s.pending[0]) && s.pending[0].at !in s.drained
    ensures EndedBy(w, Drained(w, s, o), s.pending[0].at, o)
  {
    var s', j := Drained(w, s, o), s.pending[0];
    assert j == JobFor(w, j.at);
    DrainExtends(w, s, o);
    SignatureIs(w, s, s', j);
    DrainCrosses(w, s, o);
    hide QueueOk, Windowed, WindowOrder, Drained, Crossed, Lost, FallsBack;
    if HasSignature(w, s, j.rel) && o.compute.Prepared? {
      forall d | FeedsItself(w, w.plan[j.at]) && o.compute.sig && o.compute.same && d in w.deps && w.deps[d] == j.rel
        ensures d in s'.chans && s'.chans[d] == Sent
      {
        assert d in Dependents(w.refs, j.rel) && s.chans[d] == Open;
      }
    }
  }

  /** Whether the signature came is settled when the job is ready, and stays so. */
  lemma SignatureIs(w: World, s: State, s': State, j: Job)
    requires Extends(s, s', j.rel) && s.chans.Keys == w.deps.Keys && Ready(s, j)
    requires j.basis == if j.rel in w.deps then Some(w.deps[j.rel]) else None
    ensures j.rel in w.deps ==> j.rel in s'.chans && s'.chans[j.rel] != Open
    ensures HasSignature(w, s', j.rel) == HasSignature(w, s, j.rel) == !Lost(s, j)
  {
  }

  /** What a drain puts on the wire and reports, by the outcome. */
  lemma DrainCrosses(w: World, s: State, o: Outcome)
    requires s.pending != [] && SentOnce(w, s)
    ensures var s', j, lost := Drained(w, s, o), s.pending[0], Lost(s, s.pending[0]);
      && (!lost && o.compute.Prepared? ==>
            && Crossed(s', Recipe(j.rel, j.basis)) && (!o.compute.same ==> j.rel in s'.skipped)
            && (o.compute.sig && o.compute.same ==> forall d | d in s.chans && d in j.txs && s.chans[d] == Open ::
                  s'.chans[d] == Sent))
      && (!lost && o.compute.Failed? ==> j.rel in s'.skipped && forall k | 0 <= k < |s'.wire| :: s'.wire[k].rel != j.rel)
      && (lost || o.compute.Fallback? || o.compute.Dissimilar? ==>
            if (lost || !o.compute.Dissimilar?) && !o.stat then s'.aborted == Some(j.rel)
            else Crossed(s', StreamItem(j.rel, o.stream)) && (o.stream != Whole(true) ==> j.rel in s'.skipped))
  {
    var s', j := Drained(w, s, o), s.pending[0];
    hide Lost;
    if |s'.wire| > |s.wire| {
      assert Crossed(s', s'.wire[|s.wire|]);
    }
  }

  /** The dependents of references not drained yet keep waiting. */
  lemma DrainWaiting(w: World, s: State, o: Outcome)
    requires Paired(w) && QueueOk(w, s) && StillWaiting(w, s) && s.pending != [] && s.aborted.None?
    ensures StillWaiting(w, Drained(w, s, o))
  {
    var s', j := Drained(w, s, o), s.pending[0];
    DrainExtends(w, s, o);
    assert j == JobFor(w, j.at);
    hide QueueOk, Drained, FeedsItself;
    forall d, i | d in w.deps && 0 <= i < |w.plan| && w.plan[i].rel == w.deps[d] && FeedsItself(w, w.plan[i])
      && i !in s'.drained
      ensures s'.chans[d] == Open
    {
      assert i !in s.drained && i != j.at;
      assert w.deps[d] == j.rel || d !in j.txs;
    }
  }

  lemma {:induction false} DrainComputed(w: World, s: State, outcome: nat -> Outcome)
    requires Paired(w) && QueueOk(w, s) && SentOnce(w, s) && AsComputed(w, s, outcome) && StillWaiting(w, s)
    requires s.pending != [] && s.aborted.None? && Ready(s, s.pending[0])
    ensures var s' := Drained(w, s, outcome(s.pending[0].at)); AsComputed(w, s', outcome) && StillWaiting(w, s')
  {
    var j := s.pending[0];
    var s' := Drained(w, s, outcome(j.at));
    DrainExtends(w, s, outcome(j.at));
    DrainWaiting(w, s, outcome(j.at));
    DrainedBefore(w, s);
    DrainEnds(w, s, outcome(j.at));
    OtherNames(w, s);
    hide *;
    OneMore(w, s, s', outcome, j);
  }

  lemma OtherNames(w: World, s: State)
    requires Paired(w) && QueueOk(w, s) && s.pending != []
    ensures s.pending[0].at < |w.plan|
    ensures forall at | 0 <= at < |w.plan| && at != s.pending[0].at :: w.plan[at].rel != s.pending[0].rel
  {
    assert s.pending[0] == JobFor(w, s.pending[0].at);
  }

  /** One more file drained: the ends of the others stay. */
  lemma {:induction false} OneMore(w: World, s: State, s': State, outcome: nat -> Outcome, j: Job)
    requires AsComputed(w, s, outcome) && Extends(s, s', j.rel) && s'.drained == s.drained + [j.at] && s'.next == s.next
    requires EndedBy(w, s', j.at, outcome(j.at)) && forall at | at in s.drained :: at < |w.plan|
    requires forall at | 0 <= at < |w.plan| && at != j.at :: w.plan[at].rel != j.rel
    requires j.at !in s.drained
    ensures AsComputed(w, s', outcome)
  {
    hide EndedBy, StreamedBy, Large, Extends;
    forall at | at in s.drained
      ensures EndedBy(w, s', at, outcome(at))
    {
      EndStays(w, s, s', at, outcome(at), j.rel);
    }
    forall i | 0 <= i < s.next && Large(w, w.plan[i])
      ensures StreamedBy(w, s', i, outcome(i).stream)
    {
      StreamStays(w, s, s', i, outcome(i).stream, j.rel);
    }
  }

  lemma FeedExtends(w: World, s: State, k: nat, ok: bool)
    requires k < |s.feeders|
    ensures Extends(s, Fed(s, k, ok), "") && Fed(s, k, ok).drained == s.drained && Fed(s, k, ok).next == s.next
    ensures Fed(s, k, ok).wire == s.wire
    ensures forall c | c in s.chans && c !in s.feeders[k].txs :: Fed(s, k, ok).chans[c] == s.chans[c]
  {
  }

  /** The dependents of another reference keep waiting. */
  lemma FeedWaiting(w: World, s: State, k: nat, ok: bool)
    requires Paired(w) && FeedersOk(w, s) && StillWaiting(w, s) && k < |s.feeders|
    ensures StillWaiting(w, Fed(s, k, ok))
  {
    var s' := Fed(s, k, ok);
    FeedExtends(w, s, k, ok);
    assert FeederOk(w, s.feeders[k]);
    hide Fed, FeederOk, FeedsItself, Paired;
    forall d, i | d in w.deps && 0 <= i < |w.plan| && w.plan[i].rel == w.deps[d] && FeedsItself(w, w.plan[i])
      && i !in s.drained
      ensures s'.chans[d] == Open
    {
      FeederElsewhere(w, s.feeders[k], d, i);
    }
  }

  lemma {:induction false} FeedComputed(w: World, s: State, k: nat, ok: bool, outcome: nat -> Outcome)
    requires Paired(w) && FeedersOk(w, s) && AsComputed(w, s, outcome) && StillWaiting(w, s) && k < |s.feeders|
    ensures AsComputed(w, Fed(s, k, ok), outcome) && StillWaiting(w, Fed(s, k, ok))
  {
    FeedWaiting(w, s, k, ok);
    FeedExtends(w, s, k, ok);
    hide *;
    ComputedStays(w, s, Fed(s, k, ok), outcome);
  }

  /** With nothing new on the wire, every end stays. */
  lemma {:induction false} ComputedStays(w: World, s: State, s': State, outcome: nat -> Outcome)
    requires AsComputed(w, s, outcome) && Extends(s, s', "") && s'.wire == s.wire
    requires s'.drained == s.drained && s'.next == s.next
    ensures AsComputed(w, s', outcome)
  {
    hide EndedBy, StreamedBy, Large, Extends;
    forall at | at in s.drained
      ensures EndedBy(w, s', at, outcome(at))
    {
      EndStays(w, s, s', at, outcome(at), "");
    }
    forall i | 0 <= i < s.next && Large(w, w.plan[i])
      ensures StreamedBy(w, s', i, outcome(i).stream)
    {
      StreamStays(w, s, s', i, outcome(i).stream, "");
    }
  }

  lemma DrainsAtEnd(w: World, s: State)
    requires s.next >= |w.plan| && s.pending != []
    ensures Draining(w, s)
  {
  }

  lemma DrainEnabled(w: World, s: State, o: Outcome)
    requires Draining(w, s) && Ready(s, s.pending[0]) && s.aborted.None?
    ensures Enabled(w, s, Drain(o)) && Drained(w, s, o).pending == s.pending[1..]
    ensures o.stat ==> Drained(w, s, o).aborted.None?
  {
  }

  lemma DrainMakesRoom(w: World, s: State, o: Outcome)
    requires QueueOk(w, s) && s.pending != [] && s.next < |w.plan|
    ensures !Draining(w, Drained(w, s, o))
  {
  }
}
