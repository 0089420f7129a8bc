/** What the plan's lists hold, stated on the manifest entries and the flags themselves. */
module PlanMeaning {
  import opened Bytes
  import opened Planner
  import opened PlannerTheorems

  /** The destination entry that counts for a path: the last one listed. */
  predicate LastAt(dest: seq<Entry>, path: string, j: int) {
    0 <= j < |dest| && dest[j].path == path && forall k | j < k < |dest| :: dest[k].path != path
  }

  lemma {:induction false} LastIndex(dest: seq<Entry>, path: string) returns (j: int)
    ensures EntryAt(dest, path).Some? ==> LastAt(dest, path, j) && EntryAt(dest, path) == Some(dest[j])
    ensures EntryAt(dest, path).None? ==> forall k | 0 <= k < |dest| :: dest[k].path != path
  {
    j := |dest| - 1;
    if dest != [] && dest[j].path != path {
      var n := j;
      j := LastIndex(dest[..n], path);
    }
  }

  lemma LastFound(dest: seq<Entry>, path: string)
    ensures forall j | LastAt(dest, path, j) :: EntryAt(dest, path) == Some(dest[j])
    ensures EntryAt(dest, path).Some? ==> exists j :: LastAt(dest, path, j)
    ensures EntryAt(dest, path).None? <==> forall j | 0 <= j < |dest| :: dest[j].path != path
  {
    hide EntryAt;
    var j := LastIndex(dest, path);
  }

  predicate SameTimes(a: Entry, b: Entry) {
    a.mtimeSec == b.mtimeSec && a.mtimeNsec == b.mtimeNsec
  }

  predicate Special(e: Entry) {
    e.kind in {Fifo, Socket, BlockDevice, CharDevice}
  }

  predicate Link(e: Entry) {
    e.linkTarget.Some?
  }

  /** The content check passes: equal known hashes under `--checksum`, otherwise equal sizes,
      and equal times unless only sizes count. */
  predicate SameContent(cfg: Config, src: Entry, dst: Entry) {
    if cfg.checksum then src.hash.Some? && dst.hash.Some? && src.hash.value == dst.hash.value
    else src.size == dst.size && (cfg.sizeOnly || SameTimes(src, dst))
  }

  /** An existing entry is left alone on request. */
  predicate Ignored(cfg: Config, src: Entry, dst: Entry) {
    cfg.ignoreExisting && !src.isDir && !dst.isDir
  }

  predicate Newer(cfg: Config, src: Entry, dst: Entry) {
    cfg.updateOnly && dst.mtimeSec > src.mtimeSec
  }

  /** Two links agree in target, and in times unless contents or sizes alone count. */
  predicate SameLink(cfg: Config, src: Entry, dst: Entry) {
    && src.linkTarget.Some? && dst.linkTarget.Some? && src.linkTarget.value == dst.linkTarget.value
    && (cfg.checksum || cfg.sizeOnly || SameTimes(src, dst))
  }

  predicate SameSpecial(src: Entry, dst: Entry) {
    src.kind == dst.kind && src.rdev == dst.rdev && src.mtimeSec == dst.mtimeSec
  }

  /** The two entries stand for the same thing as far as the flags look. */
  predicate Alike(cfg: Config, src: Entry, dst: Entry) {
    if Link(src) || Link(dst) then SameLink(cfg, src, dst)
    else if Special(src) || Special(dst) then SameSpecial(src, dst)
    else Newer(cfg, src, dst) || (!cfg.ignoreTimes && SameContent(cfg, src, dst))
  }

  /** Nothing needs to be transferred. */
  predicate Current(cfg: Config, src: Entry, dst: Entry) {
    || (src.isDir && dst.isDir)
    || (!src.isDir && !dst.isDir && (cfg.ignoreExisting || Alike(cfg, src, dst)))
  }

  /** Permission bits or times have drifted where they are preserved. */
  predicate Drifted(cfg: Config, src: Entry, dst: Entry) {
    || (cfg.preservePerms && src.mode % 0x1000 != dst.mode % 0x1000)
    || (cfg.preserveTimes && !SameTimes(src, dst))
  }

  /** A current regular file whose attributes are to be applied again: not one that a flag
      keeps out of the run. */
  predicate Retouched(cfg: Config, src: Entry, dst: Entry) {
    && !src.isDir && !Link(src) && !Special(src) && Current(cfg, src, dst)
    && !cfg.ignoreExisting && !Newer(cfg, src, dst) && Drifted(cfg, src, dst)
  }

  /** One entry, exactly. */
  lemma DecisionExactly(cfg: Config, src: Entry, dst: Entry)
    ensures Decide(cfg, src, Some(dst)) == Update <==> !Current(cfg, src, dst)
    ensures Decide(cfg, src, Some(dst)) == MetaOnly <==> Retouched(cfg, src, dst)
    ensures Decide(cfg, src, Some(dst)) == Skip <==> Current(cfg, src, dst) && !Retouched(cfg, src, dst)
  {
  }

  // ---- the lists ----

  predicate Named(tasks: seq<Task>, path: string) {
    exists k | 0 <= k < |tasks| :: tasks[k].path == path
  }

  /** A task carries what the receiver needs of its entry. */
  predicate Describes(t: Task, src: Entry) {
    && t.path == src.path && t.sourceSize == src.size && t.isDir == src.isDir && t.linkTarget == src.linkTarget
    && t.special == if Special(src) then Some((src.kind, src.rdev)) else None
  }

  /** Which list holds a source entry's task: creates exactly when nothing is there and it may
      be created, updates exactly when what is there is not current, the metadata list
      exactly when it is to be retouched, and otherwise the skips. */
  lemma {:induction false} ListsExactly(cfg: Config, files: seq<Entry>, dest: seq<Entry>, i: nat)
    requires UniquePaths(files) && i < |files|
    ensures var plan, src := PlanOf(cfg, files, dest), files[i];
      var there := exists j | 0 <= j < |dest| :: dest[j].path == src.path;
      && (Named(plan.creates, src.path) <==> !there && (src.isDir || !cfg.existing))
      && (!there ==> !Named(plan.updates, src.path) && !Named(plan.meta, src.path))
      && (!there ==> (Named(plan.skips, src.path) <==> !src.isDir && cfg.existing))
    ensures var plan, src := PlanOf(cfg, files, dest), files[i];
      forall j | LastAt(dest, src.path, j) ::
        && (Named(plan.updates, src.path) <==> !Current(cfg, src, dest[j]))
        && (Named(plan.meta, src.path) <==> Retouched(cfg, src, dest[j]))
        && (Named(plan.skips, src.path) <==> Current(cfg, src, dest[j]) && !Retouched(cfg, src, dest[j]))
  {
    var plan, src := PlanOf(cfg, files, dest), files[i];
    LastFound(dest, src.path);
    NamedExactly(cfg, files, dest, i);
    hide PlanOf, Named, EntryAt, Decide, Current, Retouched;
    forall j | LastAt(dest, src.path, j)
      ensures EntryAt(dest, src.path) == Some(dest[j])
      ensures Decide(cfg, src, Some(dest[j])) == Update <==> !Current(cfg, src, dest[j])
      ensures Decide(cfg, src, Some(dest[j])) == MetaOnly <==> Retouched(cfg, src, dest[j])
      ensures Decide(cfg, src, Some(dest[j])) == Skip <==> Current(cfg, src, dest[j]) && !Retouched(cfg, src, dest[j])
    {
      DecisionExactly(cfg, src, dest[j]);
    }
    NotThere(cfg, src);
    Presence(cfg, src, EntryAt(dest, src.path));
  }

  lemma NotThere(cfg: Config, src: Entry)
    ensures Decide(cfg, src, None) == if src.isDir || !cfg.existing then Create else Skip
  {
  }

  lemma Presence(cfg: Config, src: Entry, dst: Option<Entry>)
    ensures Decide(cfg, src, dst) == Create ==> dst.None?
  {
  }

  lemma {:induction false} NamedExactly(cfg: Config, files: seq<Entry>, dest: seq<Entry>, i: nat)
    requires UniquePaths(files) && i < |files|
    ensures var plan, src := PlanOf(cfg, files, dest), files[i];
      && (Named(plan.creates, src.path) <==> DecideAt(cfg, src, dest) == Create)
      && (Named(plan.updates, src.path) <==> DecideAt(cfg, src, dest) == Update)
      && (Named(plan.skips, src.path) <==> DecideAt(cfg, src, dest) == Skip)
      && (Named(plan.meta, src.path) <==> DecideAt(cfg, src, dest) == MetaOnly)
  {
    var plan, start := PlanOf(cfg, files, dest), InSyncReps(cfg, files, dest);
    var t := TaskAt(cfg, files, dest, start, i);
    PlanPartition(cfg, files, dest, i);
    TaskNames(cfg, files, dest, start);
    hide PlanOf, TaskAt, DecideAt, InSyncReps;
    OneNamed(plan.creates, t);
    OneNamed(plan.updates, t);
    OneNamed(plan.skips, t);
    OneNamed(plan.meta, t);
  }

  lemma OneNamed(tasks: seq<Task>, t: Task)
    requires forall u | u in tasks :: u.path == t.path ==> u == t
    ensures Named(tasks, t.path) <==> t in tasks
  {
    if Named(tasks, t.path) {
      var k :| 0 <= k < |tasks| && tasks[k].path == t.path;
      assert tasks[k] in tasks;
    }
  }

  /** Every listed task describes its source entry and carries its list's action. */
  lemma {:induction false} TasksDescribe(cfg: Config, files: seq<Entry>, dest: seq<Entry>)
    ensures var plan := PlanOf(cfg, files, dest);
      && (forall t | t in plan.creates :: t.action == Create && exists i | 0 <= i < |files| :: Describes(t, files[i]))
      && (forall t | t in plan.updates :: t.action == Update && exists i | 0 <= i < |files| :: Describes(t, files[i]))
      && (forall t | t in plan.meta :: t.action == MetaOnly && exists i | 0 <= i < |files| :: Describes(t, files[i]))
      && (forall t | t in plan.skips :: t.action == Skip && exists i | 0 <= i < |files| :: Describes(t, files[i]))
  {
    var start := InSyncReps(cfg, files, dest);
    hide InSyncReps, Tasks, DecideAt, Reps;
    forall action, t | t in Tasks(cfg, files, dest, start, action)
      ensures t.action == action && exists i | 0 <= i < |files| :: Describes(t, files[i])
    {
      ListContents(cfg, files, dest, start, action);
      var i :| 0 <= i < |files| && DecideAt(cfg, files[i], dest) == action && t == TaskAt(cfg, files, dest, start, i);
      assert Describes(t, files[i]);
    }
  }

  // ---- deletes ----

  /** Path characters compare with both separators as one. */
  predicate SameChar(a: char, b: char) {
    a == b || (a in {'/', '\\'} && b in {'/', '\\'})
  }

  /** The path is the root, or lies below it. */
  predicate Below(rel: string, root: string) {
    && |root| <= |rel| && (forall k | 0 <= k < |root| :: SameChar(rel[k], root[k]))
    && (|root| == |rel| || SameChar(rel[|root|], '/'))
  }

  lemma ScopeExactly(rel: string, root: string)
    ensures UnderRoot(Normalize(rel), Normalize(root)) <==> Below(rel, root)
  {
    var a, b := Normalize(rel), Normalize(root);
    if Below(rel, root) {
      if |root| == |rel| {
        assert a == b;
      } else {
        assert b + "/" == a[..|b| + 1];
      }
    }
    if a == b {
      forall k | 0 <= k < |root|
        ensures SameChar(rel[k], root[k])
      {
        assert a[k] == b[k];
      }
    } else if b + "/" <= a {
      forall k | 0 <= k < |root|
        ensures SameChar(rel[k], root[k])
      {
        assert a[k] == (b + "/")[k];
      }
      assert a[|root|] == (b + "/")[|root|];
    }
  }

  /** The deletes are exactly the destination entries without a source entry, under
      `--delete` and within the scope. */
  lemma {:induction false} DeletesExactly(cfg: Config, files: seq<Entry>, dest: seq<Entry>, t: Task)
    ensures t in PlanOf(cfg, files, dest).deletes <==>
      exists j | 0 <= j < |dest| ::
        && cfg.delete && (forall i | 0 <= i < |files| :: files[i].path != dest[j].path)
        && (cfg.deleteScope.None?
            || exists k | 0 <= k < |cfg.deleteScope.value| :: Below(dest[j].path, cfg.deleteScope.value[k]))
        && t == Task(dest[j].path, Delete, 0, dest[j].isDir, None, None, None)
  {
    DeleteContents(cfg, files, dest);
    hide UnderRoot, Normalize, Below, EntryAt;
    forall j | 0 <= j < |dest|
      ensures Deleted(cfg, files, dest[j]) <==>
        && cfg.delete && (forall i | 0 <= i < |files| :: files[i].path != dest[j].path)
        && (cfg.deleteScope.None?
            || exists k | 0 <= k < |cfg.deleteScope.value| :: Below(dest[j].path, cfg.deleteScope.value[k]))
    {
      LastFound(files, dest[j].path);
      if cfg.deleteScope.Some? {
        forall k | 0 <= k < |cfg.deleteScope.value|
          ensures UnderRoot(Normalize(dest[j].path), Normalize(cfg.deleteScope.value[k])) <==>
            Below(dest[j].path, cfg.deleteScope.value[k])
        {
          ScopeExactly(dest[j].path, cfg.deleteScope.value[k]);
        }
      }
    }
  }

  // ---- hard links ----

  /** A member of an inode's group that is current with checked content: nothing is
      transferred for it, and the others may link to it. */
  ghost predicate Holds(cfg: Config, files: seq<Entry>, dest: seq<Entry>, ino: nat, i: int) {
    && 0 <= i < |files| && files[i].kind == File && files[i].inode == Some(ino)
    && exists j :: LastAt(dest, files[i].path, j) && HoldsAt(cfg, files[i], dest[j])
  }

  predicate HoldsAt(cfg: Config, src: Entry, dst: Entry) {
    && dst.linkTarget.None? && SameContent(cfg, src, dst)
    && (if src.isDir && dst.isDir then Alike(cfg, src, dst) else Current(cfg, src, dst))
  }

  ghost predicate FirstHolds(cfg: Config, files: seq<Entry>, dest: seq<Entry>, ino: nat, r: int) {
    Holds(cfg, files, dest, ino, r) && forall k | 0 <= k < r :: !Holds(cfg, files, dest, ino, k)
  }

  /** A member that the plan transfers. */
  predicate Moves(plan: Plan, files: seq<Entry>, ino: nat, i: int) {
    && 0 <= i < |files| && files[i].kind == File && files[i].inode == Some(ino)
    && (Named(plan.creates, files[i].path) || Named(plan.updates, files[i].path))
  }

  predicate FirstMoves(plan: Plan, files: seq<Entry>, ino: nat, r: int) {
    Moves(plan, files, ino, r) && forall k | 0 <= k < r :: !Moves(plan, files, ino, k)
  }

  lemma HoldsExactly(cfg: Config, files: seq<Entry>, dest: seq<Entry>, i: nat)
    requires i < |files| && files[i].inode.Some?
    ensures InSync(cfg, files[i], dest) <==> Holds(cfg, files, dest, files[i].inode.value, i)
  {
    LastFound(dest, files[i].path);
    if EntryAt(dest, files[i].path).Some? {
      var j :| LastAt(dest, files[i].path, j);
      HoldsOne(cfg, files[i], dest[j]);
    }
  }

  lemma HoldsOne(cfg: Config, src: Entry, dst: Entry)
    ensures dst.linkTarget.None? && Compare(cfg, src, dst) == Skip && ContentMatches(cfg, src, dst) <==>
      HoldsAt(cfg, src, dst)
  {
  }

  /** The pre-pass registers the first such member of each inode. */
  lemma {:induction false} RegisteredFirst(cfg: Config, files: seq<Entry>, dest: seq<Entry>, ino: nat)
    ensures forall r | FirstHolds(cfg, files, dest, ino, r) ::
      ino in InSyncReps(cfg, files, dest) && InSyncReps(cfg, files, dest)[ino] == files[r].path
    ensures ino in InSyncReps(cfg, files, dest) ==> exists r :: FirstHolds(cfg, files, dest, ino, r)
    ensures ino !in InSyncReps(cfg, files, dest) ==> forall k | 0 <= k < |files| :: !Holds(cfg, files, dest, ino, k)
  {
    if files != [] {
      var n := |files| - 1;
      var front, before := files[..n], InSyncReps(cfg, files[..n], dest);
      RegisteredFirst(cfg, front, dest, ino);
      HoldsLast(cfg, files, dest, ino, n);
      HoldsFront(cfg, files, dest, ino, n);
      hide InSync, Holds;
      if ino in before {
        var r :| FirstHolds(cfg, front, dest, ino, r);
        OneFirst(cfg, files, dest, ino, r);
      } else if Holds(cfg, files, dest, ino, n) {
        assert FirstHolds(cfg, files, dest, ino, n);
        OneFirst(cfg, files, dest, ino, n);
      }
    }
  }

  lemma OneFirst(cfg: Config, files: seq<Entry>, dest: seq<Entry>, ino: nat, r: int)
    requires FirstHolds(cfg, files, dest, ino, r)
    ensures 0 <= r < |files| && forall k | FirstHolds(cfg, files, dest, ino, k) :: k == r
  {
  }

  lemma HoldsLast(cfg: Config, files: seq<Entry>, dest: seq<Entry>, ino: nat, n: nat)
    requires n < |files|
    ensures Holds(cfg, files, dest, ino, n) <==> files[n].inode == Some(ino) && InSync(cfg, files[n], dest)
  {
    hide HoldsAt;
    if files[n].inode == Some(ino) {
      HoldsExactly(cfg, files, dest, n);
    }
  }

  lemma HoldsFront(cfg: Config, files: seq<Entry>, dest: seq<Entry>, ino: nat, n: nat)
    requires n <= |files|
    ensures forall r | 0 <= r < n :: Holds(cfg, files[..n], dest, ino, r) == Holds(cfg, files, dest, ino, r)
    ensures forall r | 0 <= r < n :: FirstHolds(cfg, files[..n], dest, ino, r) == FirstHolds(cfg, files, dest, ino, r)
  {
    hide HoldsAt;
  }

  /** While the main loop runs, an inode without a current member is represented by its
      first transferred one. */
  lemma {:induction false} LoopFirst(
    cfg: Config, files: seq<Entry>, dest: seq<Entry>, start: map<nat, string>, ino: nat, n: nat)
    requires UniquePaths(files) && n <= |files| && ino !in start
    ensures var reps, plan := Reps(cfg, files[..n], dest, start), PlanOf(cfg, files, dest);
      && (ino in reps ==> exists r :: r < n && FirstMoves(plan, files, ino, r) && reps[ino] == files[r].path)
      && (ino !in reps ==> forall k | 0 <= k < n :: !Moves(plan, files, ino, k))
    decreases n
  {
    if n > 0 {
      var m, plan := n - 1, PlanOf(cfg, files, dest);
      LoopFirst(cfg, files, dest, start, ino, m);
      LoopStep(cfg, files, dest, start, m);
      NamedExactly(cfg, files, dest, m);
      hide PlanOf, Named, DecideAt, TaskFor, LinkTo, Reps, Tasks, InSyncReps;
      if ino !in Reps(cfg, files[..m], dest, start) && ino in Reps(cfg, files[..n], dest, start) {
        assert FirstMoves(plan, files, ino, m);
      }
    }
  }

  /** The link target of a transferred file, exactly: the first member of its inode that is
      current with checked content; without one, the first transferred member, which itself is
      no link; and nothing but a regular file with an inode is a link. */
  lemma {:induction false} LinksExactly(cfg: Config, files: seq<Entry>, dest: seq<Entry>, i: nat, t: Task)
    requires UniquePaths(files) && i < |files| && t.path == files[i].path
    requires var plan := PlanOf(cfg, files, dest); t in plan.creates + plan.updates
    ensures files[i].kind != File || files[i].inode.None? ==> t.linkTo.None?
    ensures files[i].kind == File && files[i].inode.Some? ==>
      var ino, plan := files[i].inode.value, PlanOf(cfg, files, dest);
      && (forall r | FirstHolds(cfg, files, dest, ino, r) :: t.linkTo == Some(files[r].path))
      && ((forall k | 0 <= k < |files| :: !Holds(cfg, files, dest, ino, k)) ==>
            forall r | FirstMoves(plan, files, ino, r) :: t.linkTo == if r == i then None else Some(files[r].path))
  {
    var start := InSyncReps(cfg, files, dest);
    LinkIs(cfg, files, dest, i, t);
    hide PlanOf, InSyncReps, FirstHolds, Holds, FirstMoves, Moves;
    if files[i].kind == File && files[i].inode.Some? {
      var ino := files[i].inode.value;
      RegisteredFirst(cfg, files, dest, ino);
      if ino in start {
        RepsKeep(cfg, files[..i], dest, start, ino);
      } else {
        LoopFirst(cfg, files, dest, start, ino, i);
        FirstIs(PlanOf(cfg, files, dest), files, ino, i);
      }
    }
  }

  lemma FirstIs(plan: Plan, files: seq<Entry>, ino: nat, i: nat)
    requires Moves(plan, files, ino, i)
    ensures forall r, k | FirstMoves(plan, files, ino, r) && FirstMoves(plan, files, ino, k) :: r == k
    ensures (forall k | 0 <= k < i :: !Moves(plan, files, ino, k)) ==> FirstMoves(plan, files, ino, i)
    ensures forall r | FirstMoves(plan, files, ino, r) :: 0 <= r <= i
  {
    hide Named;
  }

  lemma LinkIs(cfg: Config, files: seq<Entry>, dest: seq<Entry>, i: nat, t: Task)
    requires UniquePaths(files) && i < |files| && t.path == files[i].path
    requires var plan := PlanOf(cfg, files, dest); t in plan.creates + plan.updates
    ensures t.linkTo == LinkTo(files[i], Reps(cfg, files[..i], dest, InSyncReps(cfg, files, dest)))
    ensures files[i].kind == File && files[i].inode.Some? ==>
      Moves(PlanOf(cfg, files, dest), files, files[i].inode.value, i)
  {
    var plan, start := PlanOf(cfg, files, dest), InSyncReps(cfg, files, dest);
    PlanPartition(cfg, files, dest, i);
    TaskNames(cfg, files, dest, start);
    assert t == TaskAt(cfg, files, dest, start, i);
    hide PlanOf, InSyncReps, Reps, LinkTo, Named, Decide;
    NamedExactly(cfg, files, dest, i);
    InNamed(plan.creates, TaskAt(cfg, files, dest, start, i));
    InNamed(plan.updates, TaskAt(cfg, files, dest, start, i));
  }

  lemma InNamed(tasks: seq<Task>, t: Task)
    ensures t in tasks ==> Named(tasks, t.path)
  {
  }

  lemma {:induction false} RepsKeep(
    cfg: Config, files: seq<Entry>, dest: seq<Entry>, start: map<nat, string>, ino: nat)
    requires ino in start
    ensures ino in Reps(cfg, files, dest, start) && Reps(cfg, files, dest, start)[ino] == start[ino]
  {
    if files != [] {
      hide Transferred;
      RepsKeep(cfg, files[..|files| - 1], dest, start, ino);
    }
  }
}
