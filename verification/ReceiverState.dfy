/** The receiver's frame handlers over its apply state. */
module ReceiverState {
  import opened Bytes
  import opened DeltaOps
  import opened FrameCodec
  import opened Sparse
  import opened ChunkedFile
  import opened Applies

  const BATCH_APPLY_SLOTS: nat := 2

  datatype Slot = Idle | Drains(fileId: u64) | Receiving(file: InFlight)

  /** Each task not joined yet is the per-file apply of its path, in some batch, or one
      whose handle was replaced because its path came again. */
  ghost predicate Held(tasks: map<nat, Task>, applied: map<Text, nat>, batches: seq<seq<nat>>, reused: set<Text>) {
    && (forall p | p in applied :: applied[p] in tasks && PathOf(tasks[applied[p]]) == p)
    && forall i | i in tasks :: OwnHandle(tasks, applied, i) || InBatch(i, batches) || PathOf(tasks[i]) in reused
  }

  predicate OwnHandle(tasks: map<nat, Task>, applied: map<Text, nat>, i: nat)
    requires i in tasks
  {
    PathOf(tasks[i]) in applied && applied[PathOf(tasks[i])] == i
  }

  ghost predicate InBatch(i: nat, batches: seq<seq<nat>>) {
    exists k | 0 <= k < |batches| :: i in batches[k]
  }

  /** The handles of these batches were given out before `n`. */
  ghost predicate Below(batches: seq<seq<nat>>, n: nat) {
    forall k, i | 0 <= k < |batches| && i in batches[k] :: i < n
  }

  /** The newest batch holds exactly one queued apply per job, in order, with handles given
      out from `start` on, the others only older ones. */
  ghost predicate Queues(
    tasks: map<nat, Task>, batches: seq<seq<nat>>, start: nat, jobs: seq<Job>, lucks: seq<Luck>)
  {
    && batches != [] && Below(batches[..|batches| - 1], start)
    && From(batches[|batches| - 1], start)
    && QueuedAs(tasks, batches[|batches| - 1], jobs, lucks)
  }

  predicate From(batch: seq<nat>, start: nat) {
    forall k | 0 <= k < |batch| :: start <= batch[k]
  }

  ghost predicate QueuedAs(tasks: map<nat, Task>, batch: seq<nat>, jobs: seq<Job>, lucks: seq<Luck>) {
    && |batch| == |jobs| == |lucks|
    && forall k | 0 <= k < |batch| :: batch[k] in tasks && tasks[batch[k]] == Queued(jobs[k], lucks[k])
  }

  class ApplyState {
    const sizes: Sizes
    const verify: bool
    const sparse: bool
    const h: Hash
    var dest: Files
    /** Spawned applies by handle; `applied` keeps the handle of each path's own apply,
        `batches` those of each batch, oldest first. */
    var tasks: map<nat, Task>
    var nextHandle: nat
    var applied: map<Text, nat>
    var batches: seq<seq<nat>>
    var slot: Slot
    var skipped: seq<Text>
    var hashes: map<Text, Digest>
    ghost var streams: Files
    ghost var written: set<Text>
    ghost var reused: set<Text>
    ghost var plain: set<Text>
    ghost var discarded: set<Text>
    ghost var due: map<Text, Due>

    ghost function View(): Books
      reads this, Flight()
    {
      Books(tasks, hashes, skipped, plain, discarded, if slot.Receiving? then Some(slot.file.path) else None,
        written, reused, dest, streams, due)
    }

    ghost function Flight(): set<object>
      reads this
    {
      if slot.Receiving? then {slot.file, slot.file.writer, slot.file.writer.inner} else {}
    }

    ghost predicate Valid()
      reads this, Flight()
    {
      && Consistent(View(), sizes, h, verify) && Fated(View(), sizes, h, verify)
      && Held(tasks, applied, batches, reused)
      && (forall i | i in tasks :: i < nextHandle) && Below(batches, nextHandle)
      && (slot.Receiving? ==> slot.file.Valid() && slot.file.hashing == verify)
    }

    constructor (sizes: Sizes, verify: bool, sparse: bool, h: Hash, dest: Files)
      ensures Valid() && View() == Books(map[], map[], [], {}, {}, None, {}, {}, dest, map[], map[]) && slot == Idle
      ensures this.sizes == sizes && this.verify == verify && this.sparse == sparse && this.h == h
    {
      this.sizes, this.verify, this.sparse, this.h, this.dest := sizes, verify, sparse, h, dest;
      tasks, nextHandle, applied, batches, slot, skipped, hashes := map[], 0, map[], [], Idle, [], map[];
      streams, written, reused, plain, discarded, due := map[], {}, {}, {}, {}, map[];
      new;
      EmptyBooks(dest, sizes, h, verify);
    }

    /** A spawned apply runs to its end; this may happen at any moment. */
    method RunTask(id: nat)
      requires Valid() && id in tasks
      modifies this`tasks, this`dest, this`streams
      ensures Valid() && tasks == old(tasks)[id := Done(EndOf(old(tasks)[id], old(dest), sizes, verify, h))]
      ensures dest == LeftBy(old(tasks)[id], old(dest), h) && tasks.Keys == old(tasks.Keys)
      ensures streams == ReceivedBy(old(tasks)[id], old(dest), old(streams), h)
      ensures PathOf(tasks[id]) == old(PathOf(tasks[id]))
    {
      hide Consistent, Fated, Held, Below, Wrote, OutcomeOf, Streamed;
      match tasks[id] {
        case Done(_) =>
        case Queued(job, luck) =>
          ghost var before := View();
          var dest', outcome := ApplyRecipe(dest, job, luck, sizes, verify, sparse, h, streams);
          ghost var streams' := Streamed(dest, streams, job, luck, h);
          OnlyOne(dest, streams, job, luck, h);
          Ran(before, dest', streams', sizes, h, verify, id, outcome);
          RanFate(before, sizes, h, verify, id, job, luck);
          SameHandles(tasks, id, Done(outcome), applied, batches, reused);
          dest, streams := dest', streams';
          tasks := tasks[id := Done(outcome)];
      }
    }

    /** Wait for one apply and fold its outcome into the reports. */
    method FoldTask(id: nat)
      requires Valid() && id in tasks
      modifies this`tasks, this`dest, this`streams, this`applied, this`skipped, this`hashes, this`plain
      ensures Valid() && tasks == old(tasks) - {id} && dest == LeftBy(old(tasks)[id], old(dest), h)
      ensures streams == ReceivedBy(old(tasks)[id], old(dest), old(streams), h)
      ensures applied == if OwnHandle(old(tasks), old(applied), id) then old(applied) - {PathOf(old(tasks)[id])} else old(applied)
      ensures match EndOf(old(tasks)[id], old(dest), sizes, verify, h)
        case Applied(p, _, Some(digest)) => hashes == old(hashes)[p := digest] && skipped == old(skipped)
        case Applied(_, _, None) => hashes == old(hashes) && skipped == old(skipped)
        case Skipped(p) => hashes == old(hashes) && skipped == old(skipped) + [p]
    {
      hide Consistent, Fated, Held, Below, LeftBy, ReceivedBy, EndOf, Report;
      RunTask(id);
      Folded(View(), sizes, h, verify, id);
      FoldedFate(View(), sizes, h, verify, id);
      Unlisted(tasks, id, applied, batches, reused);
      var outcome := tasks[id].outcome;
      Forget(id);
      Record(outcome);
    }

    /** A joined apply leaves the books. */
    method Forget(id: nat)
      requires id in tasks
      modifies this`tasks, this`applied
      ensures tasks == old(tasks) - {id}
      ensures applied == if OwnHandle(old(tasks), old(applied), id) then old(applied) - {PathOf(old(tasks)[id])} else old(applied)
    {
      hide PathOf;
      if OwnHandle(tasks, applied, id) {
        applied := applied - {PathOf(tasks[id])};
      }
      tasks := tasks - {id};
    }

    /** An outcome becomes a hash, a plain success or a skip. */
    method Record(outcome: Outcome)
      modifies this`skipped, this`hashes, this`plain
      ensures View() == Report(old(View()), outcome.path, outcome)
      ensures match outcome
        case Applied(p, _, Some(digest)) => hashes == old(hashes)[p := digest] && skipped == old(skipped)
        case Applied(_, _, None) => hashes == old(hashes) && skipped == old(skipped)
        case Skipped(p) => hashes == old(hashes) && skipped == old(skipped) + [p]
    {
      match outcome {
        case Applied(p, _, hash) =>
          if hash.Some? {
            hashes := hashes[p := hash.value];
          } else {
            plain := plain + {p};
          }
        case Skipped(p) =>
          skipped := skipped + [p];
      }
    }

    /** The run is asked to write a path. */
    ghost method Ask(path: Text, due': map<Text, Due>)
      modifies this`written, this`reused, this`due
      ensures View() == Asked(old(View()), path).(due := due')
      ensures due == due'
      ensures written == old(written) + {path}
      ensures reused == if path in old(written) then old(reused) + {path} else old(reused)
    {
      reused := Again(path);
      written, due := written + {path}, due';
    }

    /** A cross-file basis applied earlier in this run is waited for before it is read,
        and its outcome is dropped. */
    method AwaitBasis(b: Text)
      requires Valid() && b in applied
      modifies this`tasks, this`dest, this`streams, this`applied, this`discarded
      ensures Valid() && discarded == old(discarded) + {b} && applied == old(applied) - {b}
      ensures b !in reused ==> !HasTask(View(), b)
      ensures old(applied)[b] in old(tasks) && tasks == old(tasks) - {old(applied)[b]}
      ensures dest == LeftBy(old(tasks)[old(applied)[b]], old(dest), h)
      ensures streams == ReceivedBy(old(tasks)[old(applied)[b]], old(dest), old(streams), h)
    {
      hide Consistent, Fated, Held, Below, LeftBy, ReceivedBy, EndOf, HasTask;
      AppliedTask(tasks, applied, batches, reused, b);
      var id := applied[b];
      RunTask(id);
      Discarded(View(), sizes, h, verify, id);
      DiscardedFate(View(), sizes, h, verify, id);
      Unlisted(tasks, id, applied, batches, reused);
      Forget(id);
      discarded := discarded + {b};
    }

    /** The recipe's basis is a path whose own apply is still waited for. */
    predicate Joins(job: Job)
      reads this`applied
    {
      job.basisPath.Some? && job.basisPath.value in applied
    }

    /** What the recipe's apply will do is fixed now. */
    ghost predicate Fixed(job: Job)
      reads this, Flight()
    {
      BasisPath(job) == job.path || Settled(View(), BasisPath(job))
    }

    /** A delta recipe: its basis is joined first, and only that report is dropped; then
        the apply is spawned. With its own file as the basis, or one that nothing is going
        to write, what becomes of the path is fixed here. An apply of the same path still
        running is no longer waited for. */
    method HandleDeltaRecipe(job: Job, luck: Luck)
      requires Valid()
      modifies this`tasks, this`nextHandle, this`dest, this`streams, this`applied, this`written, this`reused,
        this`discarded, this`due
      ensures Valid() && written == old(written) + {job.path}
      ensures reused == if job.path in old(written) then old(reused) + {job.path} else old(reused)
      ensures job.path in applied && applied[job.path] in tasks && tasks[applied[job.path]] == Queued(job, luck)
      ensures discarded == old(discarded) + (if old(Joins(job)) then {job.basisPath.value} else {})
      ensures !old(Joins(job)) ==>
        dest == old(dest) && streams == old(streams) && tasks == old(tasks)[old(nextHandle) := Queued(job, luck)]
      ensures old(Joins(job)) ==>
        var b := old(applied)[job.basisPath.value];
        && b in old(tasks) && dest == LeftBy(old(tasks)[b], old(dest), h)
        && streams == ReceivedBy(old(tasks)[b], old(dest), old(streams), h)
      ensures old(Joins(job)) && job.basisPath.value != job.path && job.basisPath.value !in reused ==>
        !HasTask(View(), job.basisPath.value)
      ensures due == if Fixed(job) then old(due)[job.path := DueOf(job, luck, dest, streams, sizes, verify, h)]
        else old(due) - {job.path}
    {
      hide Consistent, Fated, Held, Below, LeftBy, ReceivedBy, HasTask, DueOf, Fixed;
      if Joins(job) {
        AwaitBasis(job.basisPath.value);
      }
      SpawnAlone(job, luck);
    }

    /** A recipe's own apply: its handle is kept by path. */
    method SpawnAlone(job: Job, luck: Luck)
      requires Valid()
      modifies this`tasks, this`nextHandle, this`applied, this`written, this`reused, this`due
      ensures Valid() && written == old(written) + {job.path} && tasks == old(tasks)[old(nextHandle) := Queued(job, luck)]
      ensures reused == if job.path in old(written) then old(reused) + {job.path} else old(reused)
      ensures job.path in applied && applied[job.path] in tasks && tasks[applied[job.path]] == Queued(job, luck)
      ensures forall p | p != job.path :: HasTask(View(), p) == old(HasTask(View(), p))
      ensures due == if Fixed(job) then old(due)[job.path := DueOf(job, luck, dest, streams, sizes, verify, h)]
        else old(due) - {job.path}
    {
      hide Consistent, Fated, Held, Below, HasTask, DueOf;
      ghost var before, id := View(), nextHandle;
      HandleKnown(before, sizes, h, verify);
      Listed(tasks, nextHandle, Queued(job, luck), applied, batches, reused, written);
      StillBelow(batches, nextHandle);
      applied := applied[job.path := nextHandle];
      Spawn(job, luck);
      forall p | p != job.path
        ensures HasTask(View(), p) == HasTask(before, p)
      {
        TaskAdded(before, id, Queued(job, luck), p);
        SameTasks(before.(tasks := before.tasks[id := Queued(job, luck)]), View(), p);
      }
    }

    /** A batch: one group of applies; the oldest group is folded once more than two
        are outstanding. */
    method HandleBatch(jobs: seq<Job>, lucks: seq<Luck>)
      requires Valid() && |lucks| == |jobs|
      modifies this`tasks, this`nextHandle, this`dest, this`streams, this`applied, this`batches, this`written,
        this`reused, this`skipped, this`hashes, this`plain, this`due
      ensures Valid() && |batches| <= 2 && written == old(written) + Paths(jobs)
      ensures forall p | p in reused :: p in old(reused) || p in old(written) || Repeated(jobs, p)
      ensures Queues(tasks, batches, old(nextHandle), jobs, lucks)
      ensures Owed(due, jobs, lucks, old(dest), old(streams), sizes, verify, h)
      ensures due - Paths(jobs) == old(due) - Paths(jobs)
    {
      hide Consistent, Fated, Held, Paths, Repeated, Below, Queues, Owed;
      NewBatch(tasks, applied, batches, reused, nextHandle);
      batches := batches + [[]];
      SpawnGroup(jobs, lucks);
      ghost var written0, reused0, due0 := written, reused, due;
      while |batches| > BATCH_APPLY_SLOTS
        invariant Valid() && written == written0 && reused == reused0 && due == due0
        invariant Queues(tasks, batches, old(nextHandle), jobs, lucks)
        decreases |batches|
      {
        ghost var tasks0, batches0 := tasks, batches;
        FoldOldest();
        QueuesKept(tasks0, tasks, batches0, old(nextHandle), jobs, lucks);
      }
    }

    /** The applies of one batch, none of them running yet. */
    method SpawnGroup(jobs: seq<Job>, lucks: seq<Luck>)
      requires Valid() && |lucks| == |jobs| && batches != [] && batches[|batches| - 1] == []
      requires Below(batches[..|batches| - 1], nextHandle)
      modifies this`tasks, this`nextHandle, this`batches, this`written, this`reused, this`due
      ensures Valid() && written == old(written) + Paths(jobs)
      ensures forall p | p in reused :: p in old(reused) || p in old(written) || Repeated(jobs, p)
      ensures Queues(tasks, batches, old(nextHandle), jobs, lucks)
      ensures Owed(due, jobs, lucks, dest, streams, sizes, verify, h)
      ensures due - Paths(jobs) == old(due) - Paths(jobs)
    {
      hide Consistent, Fated, Held, Paths, Repeated, Below, Queues, Owed, DueAfter;
      NoPaths(jobs);
      NoneQueued(tasks, batches, nextHandle);
      assert jobs[..0] == [] && lucks[..0] == [];
      NothingOwed(due, dest, streams, sizes, verify, h);
      for i := 0 to |jobs|
        invariant Valid() && batches != [] && written == old(written) + Paths(jobs[..i]) && old(nextHandle) <= nextHandle
        invariant forall p | p in reused :: p in old(reused) || p in old(written) || Repeated(jobs, p)
        invariant Queues(tasks, batches, old(nextHandle), jobs[..i], lucks[..i])
        invariant Owed(due, jobs[..i], lucks[..i], dest, streams, sizes, verify, h)
        invariant due - Paths(jobs[..i]) == old(due) - Paths(jobs[..i])
      {
        PathsSnoc(jobs, i);
        OwedSnoc(View(), old(due), jobs, lucks, i, sizes, verify, h);
        QueuesSnoc(tasks, batches, old(nextHandle), jobs, lucks, i, nextHandle);
        SpawnInBatch(jobs[i], lucks[i]);
      }
      assert jobs[..|jobs|] == jobs && lucks[..|jobs|] == lucks;
    }

    /** One apply of the newest batch. */
    method SpawnInBatch(job: Job, luck: Luck)
      requires Valid() && batches != []
      modifies this`tasks, this`nextHandle, this`batches, this`written, this`reused, this`due
      ensures Valid() && written == old(written) + {job.path} && nextHandle == old(nextHandle) + 1
      ensures due == old(DueAfter(View(), job, luck, sizes, h, verify))
      ensures tasks == old(tasks)[old(nextHandle) := Queued(job, luck)]
      ensures var last := |old(batches)| - 1; batches == old(batches)[last := old(batches)[last] + [old(nextHandle)]]
      ensures reused == if job.path in old(written) then old(reused) + {job.path} else old(reused)
    {
      hide Consistent, Fated, Held, Below, DueAfter;
      JoinedBatch(tasks, nextHandle, Queued(job, luck), applied, batches, reused);
      batches := batches[|batches| - 1 := batches[|batches| - 1] + [nextHandle]];
      MoreReused(tasks[nextHandle := Queued(job, luck)], applied, batches, reused, Again(job.path));
      Spawn(job, luck);
    }

    ghost function Again(path: Text): set<Text>
      reads this
    {
      if path in written then reused + {path} else reused
    }

    /** A task for the job under the next handle. */
    method Spawn(job: Job, luck: Luck)
      requires Consistent(View(), sizes, h, verify) && Fated(View(), sizes, h, verify)
      requires forall i | i in tasks :: i < nextHandle
      modifies this`tasks, this`nextHandle, this`written, this`reused, this`due
      ensures Consistent(View(), sizes, h, verify) && Fated(View(), sizes, h, verify)
      ensures tasks == old(tasks)[old(nextHandle) := Queued(job, luck)] && nextHandle == old(nextHandle) + 1
      ensures written == old(written) + {job.path} && reused == old(Again(job.path))
      ensures due == old(DueAfter(View(), job, luck, sizes, h, verify))
    {
      hide Consistent, Fated, Asked, DueAfter, SpawnedBooks;
      ghost var before, id := View(), nextHandle;
      Spawned(before, sizes, h, verify, nextHandle, job, luck);
      SpawnedFate(before, sizes, h, verify, nextHandle, job, luck);
      tasks := tasks[nextHandle := Queued(job, luck)];
      nextHandle := nextHandle + 1;
      assert View() == before.(tasks := before.tasks[id := Queued(job, luck)]);
      Ask(job.path, DueAfter(before, job, luck, sizes, h, verify));
      NowSpawned(before, id, job, luck, sizes, h, verify);
    }

    /** Join the oldest batch and fold all its outcomes; the other applies are untouched. */
    method FoldOldest()
      requires Valid() && |batches| > 0
      modifies this`tasks, this`dest, this`streams, this`applied, this`batches, this`skipped, this`hashes, this`plain
      ensures Valid() && batches == old(batches)[1..] && tasks.Keys <= old(tasks.Keys)
      ensures forall k | 0 <= k < |old(batches)[0]| :: old(batches)[0][k] !in tasks
      ensures Outside(old(tasks), tasks, old(batches)[0])
    {
      hide Consistent, Fated, Held, LeftBy, EndOf, Outside, Below;
      var batch := batches[0];
      SameOutside(tasks, batch);
      for i := 0 to |batch|
        invariant Valid() && batches == old(batches) && tasks.Keys <= old(tasks.Keys)
        invariant forall k | 0 <= k < i :: batch[k] !in tasks
        invariant Outside(old(tasks), tasks, batch)
      {
        if batch[i] in tasks {
          LessOutside(old(tasks), tasks, batch, i);
          FoldTask(batch[i]);
        }
      }
      OldestDone(tasks, applied, batches, reused, nextHandle);
      batches := batches[1..];
    }

    /** Join everything that is still waited for: every path touched once, with a basis
        touched once, is reported as it is due and holds what is due. */
    method DrainApplies()
      requires Valid()
      modifies this`tasks, this`dest, this`streams, this`applied, this`batches, this`skipped, this`hashes, this`plain
      ensures Valid() && applied == map[] && batches == []
      ensures forall p | HasTask(View(), p) :: p in reused
      ensures forall p | Steady(View(), p) :: Ends(View(), p)
    {
      hide Consistent, Fated, Held, Below, LeftBy, EndOf, Ends, Steady, HasTask;
      while |batches| > 0
        invariant Valid()
        decreases |batches|
      {
        FoldOldest();
      }
      while applied != map[]
        invariant Valid() && batches == []
        decreases applied.Keys
      {
        assert applied.Keys != {};
        var p :| p in applied;
        AppliedTask(tasks, applied, batches, reused, p);
        FoldTask(applied[p]);
      }
      OnlyReused(View(), applied, batches);
      AllEnd(View(), sizes, h, verify);
    }

    /** Remove destination paths, after joining every apply. */
    method HandleDeleteRequest(paths: set<Text>)
      requires Valid()
      modifies this`tasks, this`dest, this`streams, this`applied, this`batches, this`skipped, this`hashes, this`plain,
        this`reused
      ensures Valid() && paths !! dest.Keys && reused == old(reused) + paths * written
    {
      hide Consistent, Fated, Held, Below;
      DrainApplies();
      Deleted(View(), paths, sizes, h, verify);
      DeletedFate(View(), paths, sizes, h, verify);
      MoreReused(tasks, applied, batches, reused, reused + paths * written);
      dest := dest - paths;
      reused := reused + paths * written;
    }

    /** A chunked file is announced: one at a time; when staging fails its path is
        reported and its chunks will be drained. */
    method HandleFileStart(fileId: u64, path: Text, size: nat, staged: bool, preallocated: nat, most: nat)
      returns (r: Result<(), ApplyError>)
      requires Valid() && most > 0
      modifies this`slot, this`skipped, this`written, this`reused, this`due
      ensures Valid() && (r.Ok? <==> old(slot).Idle?)
      ensures r.Err? ==> slot == old(slot) && skipped == old(skipped) && written == old(written) && reused == old(reused)
      ensures r.Ok? ==> written == old(written) + {path}
      ensures r.Ok? ==> reused == if path in old(written) then old(reused) + {path} else old(reused)
      ensures r.Ok? && staged ==> slot.Receiving? && fresh(Flight()) && skipped == old(skipped)
      ensures r.Ok? && staged ==>
        && slot.file.received == [] && slot.file.path == path && slot.file.size == size && slot.file.fileId == fileId
      ensures r.Ok? && !staged ==> slot == Drains(fileId) && skipped == old(skipped) + [path]
      ensures due == if r.Err? then old(due) else if staged then old(due) - {path}
        else old(due)[path := Due(Skipped(path), ValueAt(dest, path), ValueAt(streams, path), path)]
    {
      hide Consistent, Fated, Held, Below;
      if !slot.Idle? {
        return Err(Busy);
      }
      if staged {
        Open(fileId, path, size, preallocated, most);
      } else {
        Refuse(fileId, path);
      }
      r := Ok(());
    }

    /** The staged file is in flight. */
    method Open(fileId: u64, path: Text, size: nat, preallocated: nat, most: nat)
      requires Valid() && most > 0 && slot.Idle?
      modifies this`slot, this`written, this`reused, this`due
      ensures Valid() && written == old(written) + {path} && due == old(due) - {path}
      ensures reused == if path in old(written) then old(reused) + {path} else old(reused)
      ensures slot.Receiving? && fresh(Flight()) && slot.file.received == []
      ensures slot.file.path == path && slot.file.size == size && slot.file.fileId == fileId
    {
      hide Consistent, Fated, Held, Below, StartedBooks, Asked;
      ghost var before := View();
      Started(before, sizes, h, verify, path);
      StartedFate(before, sizes, h, verify, path);
      MoreReused(tasks, applied, batches, reused, Again(path));
      var flight := NewFlight(fileId, path, size, preallocated, most);
      Ask(path, due - {path});
      slot := Receiving(flight);
      NowStarted(before, path);
    }

    method NewFlight(fileId: u64, path: Text, size: nat, preallocated: nat, most: nat) returns (flight: InFlight)
      requires most > 0
      ensures flight.Valid() && flight.hashing == verify && flight.received == []
      ensures flight.path == path && flight.size == size && flight.fileId == fileId
      ensures fresh(flight) && fresh(flight.writer) && fresh(flight.writer.inner)
    {
      hide Reads;
      var file := new File(preallocated, most);
      ZerosLength(preallocated);
      var writer := new SparseWriter(file, size, sparse);
      flight := new InFlight(fileId, path, size, verify, writer);
    }

    /** Staging failed. */
    method Refuse(fileId: u64, path: Text)
      requires Valid() && slot.Idle?
      modifies this`slot, this`skipped, this`written, this`reused, this`due
      ensures Valid() && written == old(written) + {path} && slot == Drains(fileId) && skipped == old(skipped) + [path]
      ensures reused == if path in old(written) then old(reused) + {path} else old(reused)
      ensures due == old(due)[path := Due(Skipped(path), ValueAt(dest, path), ValueAt(streams, path), path)]
    {
      hide Consistent, Fated, Held, Below, RefusedBooks, Asked;
      ghost var before := View();
      Started(before, sizes, h, verify, path);
      RefusedFate(before, sizes, h, verify, path);
      MoreReused(tasks, applied, batches, reused, Again(path));
      Ask(path, due[path := Due(Skipped(path), ValueAt(dest, path), ValueAt(streams, path), path)]);
      skipped, slot := skipped + [path], Drains(fileId);
      NowRefused(before, path);
    }

    /** A chunk for the file in flight. */
    method HandleFileChunk(fileId: u64, data: seq<byte>) returns (r: Result<(), ApplyError>)
      requires Valid()
      modifies Flight()
      ensures Valid()
      ensures old(slot).Idle? ==> r == Err(NoFile)
      ensures old(slot).Drains? ==> r == if slot.fileId == fileId then Ok(()) else Err(WrongFile)
      ensures old(slot).Receiving? ==>
        r == (if slot.file.fileId == fileId then Ok(()) else Err(WrongFile))
        && slot.file.received == old(slot.file.received) + (if r.Ok? then data else [])
    {
      hide Consistent, Fated, Held, Below, Concat;
      match slot {
        case Idle =>
          r := Err(NoFile);
        case Drains(id) =>
          r := if id == fileId then Ok(()) else Err(WrongFile);
        case Receiving(file) =>
          if file.fileId != fileId {
            return Err(WrongFile);
          }
          file.Accept(data);
          r := Ok(());
      }
    }

    /** Deferred chunk writes complete in the background. */
    method WritesProgress(n: nat)
      requires Valid()
      modifies Flight()
      ensures Valid() && (slot.Receiving? ==> slot.file.received == old(slot.file.received))
    {
      hide Consistent, Fated, Held, Below, Concat;
      if slot.Receiving? {
        slot.file.Progress(n);
      }
    }

    /** The end of the file in flight: the write chain is joined, the file finished and
        committed, and under verification checked again before its hash is recorded. A
        failed commit aborts the run. */
    method HandleFileEnd(luck: Luck) returns (r: Result<(), ApplyError>)
      requires Valid()
      modifies this`slot, this`dest, this`streams, this`skipped, this`hashes, this`plain, this`due, Flight()
      ensures slot == Idle && (old(slot).Idle? ==> r == Err(NoFile))
      ensures r.Ok? ==> Valid()
      ensures old(slot).Drains? ==> r.Ok? && dest == old(dest) && hashes == old(hashes) && skipped == old(skipped)
      ensures old(slot).Receiving? ==>
        var p, content := old(slot).file.path, Fit(old(slot.file.received), old(slot).file.size);
        && (r.Ok? <==> luck.committed && (p in sizes ==> luck.stamped))
        && (r.Ok? ==> dest == old(dest)[p := content] && streams == old(streams)[p := old(slot.file.received)])
        && (r.Ok? ==> due.Keys == old(due).Keys + {p} && due - {p} == old(due) - {p})
        && (r.Ok? ==> due[p].file == Some(content) && due[p].stream == Some(old(slot.file.received)) && due[p].basis == p)
        && (r.Ok? ==> (due[p].outcome.Skipped? <==> verify && p in sizes && !(luck.still && |content| == sizes[p])))
        && (r.Ok? && verify ==>
              if p in sizes ==> luck.still && |content| == sizes[p]
              then hashes == old(hashes)[p := h(old(slot.file.received))] && skipped == old(skipped)
              else hashes == old(hashes) && skipped == old(skipped) + [p])
    {
      hide Consistent, Fated, Held, Below, Concat, Fit, Settles;
      match slot {
        case Idle =>
          return Err(NoFile);
        case Drains(_) =>
          slot := Idle;
          return Ok(());
        case Receiving(file) =>
          r := FinishFile(file, luck);
      }
    }

    /** Join the write chain, commit, check again, report. */
    method FinishFile(file: InFlight, luck: Luck) returns (r: Result<(), ApplyError>)
      requires Valid() && slot == Receiving(file)
      modifies this`slot, this`dest, this`streams, this`skipped, this`hashes, this`plain, this`due, Flight()
      ensures slot == Idle && (r.Ok? ==> Valid())
      ensures var p, content := file.path, Fit(old(file.received), file.size);
        && (r.Ok? <==> luck.committed && (p in sizes ==> luck.stamped))
        && (r.Ok? ==> dest == old(dest)[p := content] && streams == old(streams)[p := old(file.received)])
        && (r.Ok? ==> due.Keys == old(due).Keys + {p} && due - {p} == old(due) - {p})
        && (r.Ok? ==> due[p].file == Some(content) && due[p].stream == Some(old(file.received)) && due[p].basis == p)
        && (r.Ok? ==> (due[p].outcome.Skipped? <==> verify && p in sizes && !(luck.still && |content| == sizes[p])))
        && (r.Ok? && verify ==>
              if p in sizes ==> luck.still && |content| == sizes[p]
              then hashes == old(hashes)[p := h(old(file.received))] && skipped == old(skipped)
              else hashes == old(hashes) && skipped == old(skipped) + [p])
    {
      hide Consistent, Fated, Held, Below, Concat, Fit;
      ghost var received := file.received;
      file.Join();
      slot := Idle;
      if !luck.committed || (file.path in sizes && !luck.stamped) {
        return Err(CommitFailed);
      }
      var content := file.writer.inner.content;
      var hash := if verify then Some(h(file.fed)) else None;
      var settled := Settles(content, file.path, sizes, luck, verify);
      var outcome := if settled then Applied(file.path, file.offset, hash) else Skipped(file.path);
      FitSame(received, file.size);
      FileBacked(dest, streams, content, received, sizes, luck, verify, h, outcome);
      Commit(content, received, outcome);
      r := Ok(());
    }

    /** The finished file takes its place and its outcome is reported. */
    method Commit(content: seq<byte>, ghost received: seq<byte>, outcome: Outcome)
      requires slot == Idle && Consistent(View().(flight := Some(outcome.path)), sizes, h, verify)
      requires Fated(View().(flight := Some(outcome.path)), sizes, h, verify)
      requires Held(tasks, applied, batches, reused) && Below(batches, nextHandle)
      requires forall i | i in tasks :: i < nextHandle
      requires outcome.Applied? && outcome.hash.Some? ==>
        Backed(dest[outcome.path := content], streams[outcome.path := received], sizes, h, outcome.path, outcome.hash.value)
      requires outcome.Applied? && verify ==> outcome.hash.Some?
      modifies this`dest, this`streams, this`skipped, this`hashes, this`plain, this`due
      ensures Valid() && dest == old(dest)[outcome.path := content] && streams == old(streams)[outcome.path := received]
      ensures due == old(due)[outcome.path := Due(outcome, Some(content), Some(received), outcome.path)]
      ensures match outcome
        case Applied(p, _, Some(digest)) => hashes == old(hashes)[p := digest] && skipped == old(skipped)
        case Applied(_, _, None) => hashes == old(hashes) && skipped == old(skipped)
        case Skipped(p) => hashes == old(hashes) && skipped == old(skipped) + [p]
    {
      hide Consistent, Fated, Held, Below, Report, Backed;
      Ended(View().(flight := Some(outcome.path)), content, received, sizes, h, verify, outcome);
      EndedFate(View().(flight := Some(outcome.path)), content, received, sizes, h, verify, outcome);
      due := due[outcome.path := Due(outcome, Some(content), Some(received), outcome.path)];
      dest := dest[outcome.path := content];
      streams := streams[outcome.path := received];
      Record(outcome);
    }

    /** Acknowledge. For every path the run touched once: its hash belongs to the committed
        file, and it is either hashed, applied without a hash (never under verification),
        reported as skipped, dropped as a joined basis, or a chunked file that never
        ended; never two of these. Where its end was fixed when its recipe was handled
        or its stream ended, and its basis too was touched once, it is the one that was
        due. */
    method HandleDone() returns (ack: Ack)
      requires Valid()
      modifies this`tasks, this`dest, this`streams, this`applied, this`batches, this`skipped, this`hashes, this`plain
      ensures Valid() && ack == Ack(skipped, hashes)
      ensures forall p | p in ack.hashes && p !in reused :: Backed(dest, streams, sizes, h, p, ack.hashes[p])
      ensures forall p | p in written && p !in reused :: Once(View(), p)
      ensures forall p | p in written && p !in reused ::
        p in ack.hashes || p in plain || p in ack.skipped || p in discarded || (slot.Receiving? && slot.file.path == p)
      ensures verify ==> plain == {}
      ensures forall p | Steady(View(), p) :: Ends(View(), p)
    {
      hide Held, Backed, Once, HasTask, Fated, Below, Ends, Steady;
      DrainApplies();
      ack := Ack(skipped, hashes);
    }
  }

  /** What is recorded for a chunked file is backed by it. */
  lemma FileBacked(
    dest: Files, streams: Files, content: seq<byte>, received: seq<byte>, sizes: Sizes, luck: Luck, verify: bool, h: Hash,
    o: Outcome)
    requires content == Fit(received, |content|)
    requires o.Applied? ==> Settles(content, o.path, sizes, luck, verify) && (o.hash.Some? ==> verify)
    requires o.Applied? && o.hash.Some? ==> o.hash.value == h(received)
    ensures o.Applied? && o.hash.Some? ==>
      Backed(dest[o.path := content], streams[o.path := received], sizes, h, o.path, o.hash.value)
  {
    hide Fit;
  }

  /** What is left of an apply's stream, run now if it has not. */
  ghost function ReceivedBy(t: Task, dest: Files, streams: Files, h: Hash): Files {
    match t
    case Done(_) => streams
    case Queued(job, luck) => Streamed(dest, streams, job, luck, h)
  }

  /** The path holds what was due, and unless it served as a joined basis the report is
      the one that was due. */
  ghost predicate Ends(b: Books, p: Text)
    requires p in b.due
  {
    var o := b.due[p].outcome;
    && AtRest(b.due[p], p, b.dest, b.streams)
    && (p !in b.discarded ==>
          && (p in b.skipped <==> o.Skipped?) && (p in b.plain <==> o.Applied? && o.hash.None?)
          && (p in b.hashes <==> o.Applied? && o.hash.Some?) && (p in b.hashes ==> b.hashes[p] == o.hash.value))
  }

  /** With every apply joined, every steady path has ended. */
  lemma AllEnd(b: Books, sizes: Sizes, h: Hash, verify: bool)
    requires Consistent(b, sizes, h, verify) && Fated(b, sizes, h, verify)
    requires forall p | HasTask(b, p) :: p in b.reused
    ensures forall p | Steady(b, p) :: Ends(b, p)
  {
    hide HasTask, OnCourse, ReportsBacked;
    forall p | Steady(b, p)
      ensures Ends(b, p)
    {
      assert FatedAt(b, p, sizes, h, verify);
      assert Placed(b, p) && Once(b, p);
    }
  }

  /** Each job of its own file, unless another names its path, has what its apply does now
      recorded as due. */
  ghost predicate Owed(
    due: map<Text, Due>, jobs: seq<Job>, lucks: seq<Luck>, dest: Files, streams: Files, sizes: Sizes, verify: bool, h: Hash)
  {
    && |lucks| == |jobs|
    && forall k | 0 <= k < |jobs| && BasisPath(jobs[k]) == jobs[k].path && !Repeated(jobs, jobs[k].path) ::
         jobs[k].path in due && due[jobs[k].path] == DueOf(jobs[k], lucks[k], dest, streams, sizes, verify, h)
  }

  lemma NothingOwed(due: map<Text, Due>, dest: Files, streams: Files, sizes: Sizes, verify: bool, h: Hash)
    ensures Owed(due, [], [], dest, streams, sizes, verify, h)
  {
  }

  lemma OwedSnoc(
    b: Books, start: map<Text, Due>, jobs: seq<Job>, lucks: seq<Luck>, i: nat, sizes: Sizes, verify: bool, h: Hash)
    requires i < |jobs| == |lucks| && Owed(b.due, jobs[..i], lucks[..i], b.dest, b.streams, sizes, verify, h)
    requires b.due - Paths(jobs[..i]) == start - Paths(jobs[..i])
    ensures var due := DueAfter(b, jobs[i], lucks[i], sizes, h, verify);
      && Owed(due, jobs[..i + 1], lucks[..i + 1], b.dest, b.streams, sizes, verify, h)
      && due - Paths(jobs[..i + 1]) == start - Paths(jobs[..i + 1])
  {
    hide DueOf, Settled, BasisPath, Repeated, Paths;
    var due, path := DueAfter(b, jobs[i], lucks[i], sizes, h, verify), jobs[i].path;
    forall k | 0 <= k < i
      ensures jobs[k].path == path || Repeated(jobs[..i], jobs[k].path) ==> Repeated(jobs[..i + 1], jobs[k].path)
    {
      RepeatedSnoc(jobs, i, k);
    }
    PathsSnoc(jobs, i);
    LessSame(b.due, start, due, Paths(jobs[..i]), path);
  }

  lemma RepeatedSnoc(jobs: seq<Job>, i: nat, k: nat)
    requires k < i < |jobs|
    ensures jobs[k].path == jobs[i].path || Repeated(jobs[..i], jobs[k].path) ==> Repeated(jobs[..i + 1], jobs[k].path)
  {
    var front, p := jobs[..i + 1], jobs[k].path;
    if p == jobs[i].path {
      assert front[k].path == p && front[i].path == p;
    } else if Repeated(jobs[..i], p) {
      var x, y :| 0 <= x < y < i && jobs[..i][x].path == p && jobs[..i][y].path == p;
      assert front[x].path == p && front[y].path == p;
    }
  }

  lemma LessSame(m: map<Text, Due>, start: map<Text, Due>, m': map<Text, Due>, ps: set<Text>, p: Text)
    requires m - ps == start - ps && m' - {p} == m - {p}
    ensures m' - (ps + {p}) == start - (ps + {p})
  {
    assert m' - (ps + {p}) == (m' - {p}) - ps;
    assert start - (ps + {p}) == (start - ps) - {p};
    assert (m - ps) - {p} == (m - {p}) - ps;
  }

  lemma NowSpawned(b: Books, id: nat, job: Job, luck: Luck, sizes: Sizes, h: Hash, verify: bool)
    ensures Asked(b.(tasks := b.tasks[id := Queued(job, luck)]), job.path).(due := DueAfter(b, job, luck, sizes, h, verify))
      == SpawnedBooks(b, id, job, luck, sizes, h, verify)
  {
    hide DueAfter;
  }

  lemma NowStarted(b: Books, path: Text)
    ensures Asked(b, path).(due := b.due - {path}, flight := Some(path)) == StartedBooks(b, path)
  {
  }

  lemma NowRefused(b: Books, path: Text)
    ensures Asked(b, path).(due := b.due[path := Due(Skipped(path), ValueAt(b.dest, path), ValueAt(b.streams, path), path)],
      skipped := b.skipped + [path]) == RefusedBooks(b, path)
  {
  }

  lemma StillBelow(batches: seq<seq<nat>>, n: nat)
    ensures Below(batches, n) ==> Below(batches, n + 1)
  {
  }

  lemma EmptyBooks(dest: Files, sizes: Sizes, h: Hash, verify: bool)
    ensures var b := Books(map[], map[], [], {}, {}, None, {}, {}, dest, map[], map[]);
      Consistent(b, sizes, h, verify) && Fated(b, sizes, h, verify)
    ensures Held(map[], map[], [], {})
  {
  }

  /** How an apply ends, and what it leaves in the destination, run now if it has not. */
  function EndOf(t: Task, dest: Files, sizes: Sizes, verify: bool, h: Hash): Outcome {
    match t
    case Done(o) => o
    case Queued(job, luck) => OutcomeOf(dest, job, luck, sizes, verify, h)
  }

  function LeftBy(t: Task, dest: Files, h: Hash): Files {
    match t
    case Done(_) => dest
    case Queued(job, luck) => Wrote(dest, job, luck, h)
  }

  ghost function Paths(jobs: seq<Job>): set<Text> {
    set i | 0 <= i < |jobs| :: jobs[i].path
  }

  /** Two jobs name the path. */
  ghost predicate Repeated(jobs: seq<Job>, p: Text) {
    exists i, j | 0 <= i < j < |jobs| :: jobs[i].path == p && jobs[j].path == p
  }

  lemma NoPaths(jobs: seq<Job>)
    ensures Paths(jobs[..0]) == {}
  {
  }

  lemma PathsSnoc(jobs: seq<Job>, i: nat)
    requires i < |jobs|
    ensures Paths(jobs[..i + 1]) == Paths(jobs[..i]) + {jobs[i].path}
    ensures jobs[i].path in Paths(jobs[..i]) ==> Repeated(jobs, jobs[i].path)
  {
    var front := jobs[..i + 1];
    assert forall p | p in Paths(jobs[..i]) :: p in Paths(front);
    assert front[i].path in Paths(front);
    if jobs[i].path in Paths(jobs[..i]) {
      var k :| 0 <= k < i && jobs[..i][k].path == jobs[i].path;
      assert jobs[k].path == jobs[i].path;
    }
  }

  lemma OnlyOne(dest: Files, streams: Files, job: Job, luck: Luck, h: Hash)
    ensures OnlyAt(dest, Wrote(dest, job, luck, h), job.path)
    ensures OnlyAt(streams, Streamed(dest, streams, job, luck, h), job.path)
  {
    hide Patched, Fit;
  }

  lemma SameHandles(
    tasks: map<nat, Task>, id: nat, t: Task, applied: map<Text, nat>, batches: seq<seq<nat>>, reused: set<Text>)
    requires Held(tasks, applied, batches, reused) && id in tasks && PathOf(t) == PathOf(tasks[id])
    ensures tasks[id := t].Keys == tasks.Keys && Held(tasks[id := t], applied, batches, reused)
  {
    var tasks' := tasks[id := t];
    assert forall i | i in tasks :: PathOf(tasks'[i]) == PathOf(tasks[i]);
  }

  lemma Unlisted(tasks: map<nat, Task>, id: nat, applied: map<Text, nat>, batches: seq<seq<nat>>, reused: set<Text>)
    requires Held(tasks, applied, batches, reused) && id in tasks
    ensures var p := PathOf(tasks[id]);
      Held(tasks - {id}, if OwnHandle(tasks, applied, id) then applied - {p} else applied, batches, reused)
  {
    var p := PathOf(tasks[id]);
    var tasks', applied' := tasks - {id}, if OwnHandle(tasks, applied, id) then applied - {p} else applied;
    forall i | i in tasks'
      ensures OwnHandle(tasks', applied', i) || InBatch(i, batches) || PathOf(tasks'[i]) in reused
    {
      assert OwnHandle(tasks, applied, i) ==> OwnHandle(tasks', applied', i);
    }
  }

  lemma Listed(
    tasks: map<nat, Task>, id: nat, t: Task, applied: map<Text, nat>, batches: seq<seq<nat>>, reused: set<Text>,
    written: set<Text>)
    requires Held(tasks, applied, batches, reused) && id !in tasks
    requires forall i | i in tasks :: PathOf(tasks[i]) in written
    ensures var reused' := if PathOf(t) in written then reused + {PathOf(t)} else reused;
      Held(tasks[id := t], applied[PathOf(t) := id], batches, reused')
  {
    var tasks', applied' := tasks[id := t], applied[PathOf(t) := id];
    forall i | i in tasks'
      ensures OwnHandle(tasks', applied', i) || InBatch(i, batches)
        || PathOf(tasks'[i]) in (if PathOf(t) in written then reused + {PathOf(t)} else reused)
    {
      if i != id {
        assert OwnHandle(tasks, applied, i) || InBatch(i, batches) || PathOf(tasks[i]) in reused;
      }
    }
  }

  lemma AppliedTask(
    tasks: map<nat, Task>, applied: map<Text, nat>, batches: seq<seq<nat>>, reused: set<Text>, p: Text)
    requires Held(tasks, applied, batches, reused) && p in applied
    ensures applied[p] in tasks && PathOf(tasks[applied[p]]) == p && OwnHandle(tasks, applied, applied[p])
  {
  }

  lemma HandleKnown(b: Books, sizes: Sizes, h: Hash, verify: bool)
    requires Consistent(b, sizes, h, verify)
    ensures forall i | i in b.tasks :: PathOf(b.tasks[i]) in b.written
  {
    forall i | i in b.tasks
      ensures PathOf(b.tasks[i]) in b.written
    {
      assert HasTask(b, PathOf(b.tasks[i])) && Placed(b, PathOf(b.tasks[i]));
    }
  }

  lemma MoreReused(
    tasks: map<nat, Task>, applied: map<Text, nat>, batches: seq<seq<nat>>, reused: set<Text>, reused': set<Text>)
    requires Held(tasks, applied, batches, reused) && reused <= reused'
    ensures Held(tasks, applied, batches, reused')
  {
    hide OwnHandle, InBatch;
  }

  lemma NewBatch(tasks: map<nat, Task>, applied: map<Text, nat>, batches: seq<seq<nat>>, reused: set<Text>, n: nat)
    requires Held(tasks, applied, batches, reused) && Below(batches, n)
    ensures Held(tasks, applied, batches + [[]], reused) && Below(batches + [[]], n)
    ensures Below((batches + [[]])[..|batches|], n)
  {
    forall i | i in tasks && InBatch(i, batches)
      ensures InBatch(i, batches + [[]])
    {
      var k :| 0 <= k < |batches| && i in batches[k];
      assert i in (batches + [[]])[k];
    }
  }

  lemma JoinedBatch(
    tasks: map<nat, Task>, id: nat, t: Task, applied: map<Text, nat>, batches: seq<seq<nat>>, reused: set<Text>)
    requires Held(tasks, applied, batches, reused) && batches != [] && id !in tasks
    ensures var batches' := batches[|batches| - 1 := batches[|batches| - 1] + [id]];
      Held(tasks[id := t], applied, batches', reused) && (Below(batches, id) ==> Below(batches', id + 1))
  {
    var last := |batches| - 1;
    var tasks', batches' := tasks[id := t], batches[last := batches[last] + [id]];
    assert id in batches'[last];
    forall i | i in tasks'
      ensures OwnHandle(tasks', applied, i) || InBatch(i, batches') || PathOf(tasks'[i]) in reused
    {
      if i != id && InBatch(i, batches) {
        var k :| 0 <= k < |batches| && i in batches[k];
        assert i in batches'[k];
      }
    }
  }

  lemma OldestDone(tasks: map<nat, Task>, applied: map<Text, nat>, batches: seq<seq<nat>>, reused: set<Text>, n: nat)
    requires Held(tasks, applied, batches, reused) && batches != [] && Below(batches, n)
    requires forall k | 0 <= k < |batches[0]| :: batches[0][k] !in tasks
    ensures Held(tasks, applied, batches[1..], reused) && Below(batches[1..], n)
  {
    forall i | i in tasks && InBatch(i, batches)
      ensures InBatch(i, batches[1..])
    {
      var k :| 0 <= k < |batches| && i in batches[k];
      assert k > 0 && i in batches[1..][k - 1];
    }
  }

  /** Tasks that are not of the batch are as they were. */
  ghost predicate Outside(tasks: map<nat, Task>, tasks': map<nat, Task>, batch: seq<nat>) {
    forall i | i in tasks && i !in batch :: i in tasks' && tasks'[i] == tasks[i]
  }

  lemma SameOutside(tasks: map<nat, Task>, batch: seq<nat>)
    ensures Outside(tasks, tasks, batch)
  {
  }

  lemma LessOutside(tasks: map<nat, Task>, tasks': map<nat, Task>, batch: seq<nat>, k: nat)
    requires Outside(tasks, tasks', batch) && k < |batch|
    ensures Outside(tasks, tasks' - {batch[k]}, batch)
  {
  }

  lemma NoneQueued(tasks: map<nat, Task>, batches: seq<seq<nat>>, start: nat)
    requires batches != [] && batches[|batches| - 1] == [] && Below(batches[..|batches| - 1], start)
    ensures Queues(tasks, batches, start, [], [])
  {
  }

  lemma QueuesSnoc(
    tasks: map<nat, Task>, batches: seq<seq<nat>>, start: nat, jobs: seq<Job>, lucks: seq<Luck>, i: nat, id: nat)
    requires i < |jobs| == |lucks| && Queues(tasks, batches, start, jobs[..i], lucks[..i])
    requires start <= id && id !in tasks
    ensures Queues(tasks[id := Queued(jobs[i], lucks[i])],
      batches[|batches| - 1 := batches[|batches| - 1] + [id]], start, jobs[..i + 1], lucks[..i + 1])
  {
    var batches' := batches[|batches| - 1 := batches[|batches| - 1] + [id]];
    assert batches'[..|batches'| - 1] == batches[..|batches| - 1];
  }

  lemma QueuesKept(
    tasks: map<nat, Task>, tasks': map<nat, Task>, batches: seq<seq<nat>>, start: nat, jobs: seq<Job>, lucks: seq<Luck>)
    requires Queues(tasks, batches, start, jobs, lucks) && |batches| > 1 && Outside(tasks, tasks', batches[0])
    ensures Queues(tasks', batches[1..], start, jobs, lucks)
  {
    var last, rest := batches[|batches| - 1], batches[1..];
    var others, others' := batches[..|batches| - 1], rest[..|rest| - 1];
    assert rest[|rest| - 1] == last && others[0] == batches[0];
    forall k, i | 0 <= k < |others'| && i in others'[k]
      ensures i < start
    {
      assert others'[k] == others[k + 1];
    }
    forall k | 0 <= k < |jobs|
      ensures last[k] in tasks' && tasks'[last[k]] == tasks[last[k]]
    {
      assert start <= last[k] && last[k] !in others[0];
    }
  }

  /** With nothing waited for, only applies of paths that came again are left. */
  lemma OnlyReused(b: Books, applied: map<Text, nat>, batches: seq<seq<nat>>)
    requires Held(b.tasks, applied, batches, b.reused) && applied == map[] && batches == []
    ensures forall p | HasTask(b, p) :: p in b.reused
  {
    forall p | HasTask(b, p)
      ensures p in b.reused
    {
      var i :| i in b.tasks && PathOf(b.tasks[i]) == p;
      assert !InBatch(i, batches);
    }
  }
}
