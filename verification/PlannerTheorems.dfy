/** What every plan satisfies: partition, hard-link soundness, convergence. */
module PlannerTheorems {
  import opened Bytes
  import opened Planner

  predicate UniquePaths(files: seq<Entry>) {
    forall i, j | 0 <= i < j < |files| :: files[i].path != files[j].path
  }

  function LinkAt(cfg: Config, files: seq<Entry>, dest: seq<Entry>, start: map<nat, string>, i: nat): Option<string>
    requires i < |files|
  {
    if Transferred(cfg, files[i], dest) then LinkTo(files[i], Reps(cfg, files[..i], dest, start)) else None
  }

  /** What the plan holds for entry i. */
  function TaskAt(cfg: Config, files: seq<Entry>, dest: seq<Entry>, start: map<nat, string>, i: nat): Task
    requires i < |files|
  {
    TaskFor(files[i], DecideAt(cfg, files[i], dest)).(linkTo := LinkAt(cfg, files, dest, start, i))
  }

  // ---- partition ----

  /** A list holds exactly the tasks of the entries decided that way. */
  lemma {:induction false} ListContents(
    cfg: Config, files: seq<Entry>, dest: seq<Entry>, start: map<nat, string>, action: Action)
    ensures forall t :: t in Tasks(cfg, files, dest, start, action) <==>
      exists i :: 0 <= i < |files| && DecideAt(cfg, files[i], dest) == action && t == TaskAt(cfg, files, dest, start, i)
  {
    if files != [] {
      hide DecideAt, TaskFor, LinkTo, Reps;
      var n := |files| - 1;
      var front := files[..n];
      ListContents(cfg, front, dest, start, action);
      assert forall i | 0 <= i < n ::
        TaskAt(cfg, front, dest, start, i) == TaskAt(cfg, files, dest, start, i) by {
        assert forall i | 0 <= i < n :: front[i] == files[i] && front[..i] == files[..i];
      }
      assert forall i | 0 <= i < n :: front[i] == files[i];
    }
  }

  lemma {:induction false} ListSizes(cfg: Config, files: seq<Entry>, dest: seq<Entry>, start: map<nat, string>)
    ensures |Tasks(cfg, files, dest, start, Create)| + |Tasks(cfg, files, dest, start, Update)|
          + |Tasks(cfg, files, dest, start, Skip)| + |Tasks(cfg, files, dest, start, MetaOnly)| == |files|
  {
    if files != [] {
      hide Reps, LinkTo, TaskFor;
      ListSizes(cfg, files[..|files| - 1], dest, start);
    }
  }

  lemma {:induction false} EntryAtFinds(files: seq<Entry>, path: string)
    ensures EntryAt(files, path).None? <==> forall i | 0 <= i < |files| :: files[i].path != path
    ensures EntryAt(files, path).Some? ==> EntryAt(files, path).value in files
    ensures EntryAt(files, path).Some? ==> EntryAt(files, path).value.path == path
  {
    if files != [] {
      EntryAtFinds(files[..|files| - 1], path);
    }
  }

  lemma {:induction false} DeleteContents(cfg: Config, files: seq<Entry>, dest: seq<Entry>)
    ensures forall t :: t in Deletes(cfg, files, dest) <==>
      exists j :: 0 <= j < |dest| && Deleted(cfg, files, dest[j])
        && t == Task(dest[j].path, Delete, 0, dest[j].isDir, None, None, None)
  {
    if dest != [] {
      hide Deleted;
      var front := dest[..|dest| - 1];
      DeleteContents(cfg, files, front);
      assert forall j | 0 <= j < |front| :: front[j] == dest[j];
    }
  }

  /** Every source entry is in exactly one of the four lists, decided by what the
      destination holds at its path; deletes never name a source path. */
  lemma PlanPartition(cfg: Config, files: seq<Entry>, dest: seq<Entry>, i: nat)
    requires UniquePaths(files) && i < |files|
    ensures var plan := PlanOf(cfg, files, dest);
      var t := TaskAt(cfg, files, dest, InSyncReps(cfg, files, dest), i);
      && (t in plan.creates <==> DecideAt(cfg, files[i], dest) == Create)
      && (t in plan.updates <==> DecideAt(cfg, files[i], dest) == Update)
      && (t in plan.skips <==> DecideAt(cfg, files[i], dest) == Skip)
      && (t in plan.meta <==> DecideAt(cfg, files[i], dest) == MetaOnly)
      && (forall u | u in plan.creates + plan.updates + plan.skips + plan.meta :: u.path == t.path ==> u == t)
      && (forall u | u in plan.deletes :: u.path != t.path)
      && |plan.creates| + |plan.updates| + |plan.skips| + |plan.meta| == |files|
  {
    hide DecideAt, Tasks, Reps, LinkTo, InSyncReps, Deletes;
    var start := InSyncReps(cfg, files, dest);
    ListContents(cfg, files, dest, start, Create);
    ListContents(cfg, files, dest, start, Update);
    ListContents(cfg, files, dest, start, Skip);
    ListContents(cfg, files, dest, start, MetaOnly);
    ListSizes(cfg, files, dest, start);
    DeleteContents(cfg, files, dest);
    EntryAtFinds(files, files[i].path);
    TaskNames(cfg, files, dest, start);
  }

  lemma TaskNames(cfg: Config, files: seq<Entry>, dest: seq<Entry>, start: map<nat, string>)
    ensures forall i | 0 <= i < |files| :: TaskAt(cfg, files, dest, start, i).path == files[i].path
    ensures forall i | 0 <= i < |files| :: TaskAt(cfg, files, dest, start, i).action == DecideAt(cfg, files[i], dest)
  {
  }

  // ---- hard links ----

  /** Entry j may stand for inode `ino` under `path` once the loop has passed n. */
  predicate Represents(
    cfg: Config, files: seq<Entry>, dest: seq<Entry>, start: map<nat, string>, ino: nat, path: string, n: nat, j: nat)
  {
    && j < |files| && files[j].path == path && files[j].inode == Some(ino) && files[j].kind.File?
    && (InSync(cfg, files[j], dest)
        || (j < n && Transferred(cfg, files[j], dest) && LinkAt(cfg, files, dest, start, j) == None))
  }

  predicate InSyncUnder(cfg: Config, e: Entry, dest: seq<Entry>, ino: nat, path: string) {
    InSync(cfg, e, dest) && e.inode == Some(ino) && e.path == path
  }

  lemma {:induction false} InSyncRepsSound(cfg: Config, files: seq<Entry>, dest: seq<Entry>, ino: nat) returns (j: nat)
    requires ino in InSyncReps(cfg, files, dest)
    ensures j < |files| && InSyncUnder(cfg, files[j], dest, ino, InSyncReps(cfg, files, dest)[ino])
  {
    var n := |files| - 1;
    var front := files[..n];
    if ino in InSyncReps(cfg, front, dest) {
      j := InSyncRepsSound(cfg, front, dest, ino);
      assert files[j] == front[j];
    } else {
      j := n;
    }
  }

  /** Every representative is an in-sync entry or an earlier transferred entry that
      is no link itself. */
  lemma {:induction false} RepsSound(cfg: Config, files: seq<Entry>, dest: seq<Entry>, n: nat, ino: nat)
    requires n <= |files|
    requires ino in Reps(cfg, files[..n], dest, InSyncReps(cfg, files, dest))
    ensures var start := InSyncReps(cfg, files, dest);
      exists j :: Represents(cfg, files, dest, start, ino, Reps(cfg, files[..n], dest, start)[ino], n, j)
    decreases n
  {
    hide InSyncReps, Transferred;
    var start := InSyncReps(cfg, files, dest);
    if n == 0 {
      assert files[..0] == [];
      var j := InSyncRepsSound(cfg, files, dest, ino);
      assert Represents(cfg, files, dest, start, ino, start[ino], n, j);
    } else {
      LoopStep(cfg, files, dest, start, n - 1);
      var reps := Reps(cfg, files[..n - 1], dest, start);
      if ino in reps {
        RepsSound(cfg, files, dest, n - 1, ino);
        var j :| Represents(cfg, files, dest, start, ino, reps[ino], n - 1, j);
        assert Represents(cfg, files, dest, start, ino, reps[ino], n, j);
      } else {
        assert Represents(cfg, files, dest, start, ino, files[n - 1].path, n, n - 1);
      }
    }
  }

  lemma InSyncStays(cfg: Config, src: Entry, dest: seq<Entry>)
    requires InSync(cfg, src, dest)
    ensures !Transferred(cfg, src, dest)
  {
  }

  /** Every hard-link task names another path of the same inode that is not a link
      itself: transferred this run, or in sync with checked content. */
  lemma HardlinkSound(cfg: Config, files: seq<Entry>, dest: seq<Entry>, i: nat) returns (j: nat)
    requires UniquePaths(files) && i < |files|
    requires LinkAt(cfg, files, dest, InSyncReps(cfg, files, dest), i).Some?
    ensures var start := InSyncReps(cfg, files, dest);
      && j < |files| && j != i && LinkAt(cfg, files, dest, start, i) == Some(files[j].path)
      && files[j].path != files[i].path
      && files[j].inode == files[i].inode && files[j].inode.Some? && files[j].kind.File? && files[i].kind.File?
      && LinkAt(cfg, files, dest, start, j) == None
      && (Transferred(cfg, files[j], dest) || InSync(cfg, files[j], dest))
  {
    hide InSyncReps, Transferred, InSync, Reps;
    var start := InSyncReps(cfg, files, dest);
    var ino := files[i].inode.value;
    RepsSound(cfg, files, dest, i, ino);
    j :| Represents(cfg, files, dest, start, ino, Reps(cfg, files[..i], dest, start)[ino], i, j);
    if InSync(cfg, files[j], dest) {
      InSyncStays(cfg, files[j], dest);
    }
    assert j != i;
  }
}
