/** Planning again after a plan was applied: nothing is left to do. */
module Convergence {
  import opened Bytes
  import opened Planner
  import opened PlannerTheorems

  /** Whatever mtime the receiver's clock left on a file written without `-t`. */
  datatype Clock = Clock(sec: int, nsec: nat)

  /** One clock reading per written path. */
  type Clocks = string -> Clock

  // ---- what applying one task leaves at the destination ----

  /** A created or updated entry: the source's, with its mtime only under `-t`. */
  function Copied(cfg: Config, src: Entry, now: Clock): Entry {
    if cfg.preserveTimes then src else src.(mtimeSec := now.sec, mtimeNsec := now.nsec)
  }

  /** A metadata pass overwrites the mode, and the mtime under `-t`. */
  function MetaApplied(cfg: Config, src: Entry, dst: Entry): Entry {
    if cfg.preserveTimes then dst.(mode := src.mode, mtimeSec := src.mtimeSec, mtimeNsec := src.mtimeNsec)
    else dst.(mode := src.mode)
  }

  /** The destination entry after an entry's own (non-link) task. */
  function After(cfg: Config, src: Entry, dst: Option<Entry>, now: Clock): Option<Entry> {
    match Decide(cfg, src, dst)
    case Create => Some(Copied(cfg, src, now))
    case Update => Some(Copied(cfg, src, now))
    case MetaOnly => if dst.Some? then Some(MetaApplied(cfg, src, dst.value)) else None
    case _ => dst
  }

  /** What planning again sees of a written entry agrees with the source: its content
      check has something to compare, and its times are preserved where they are
      compared. Directories and ignored existing files are never written twice. */
  predicate Settles(cfg: Config, src: Entry) {
    || src.isDir || cfg.ignoreExisting
    || (if src.linkTarget.Some? then cfg.preserveTimes || cfg.checksum || cfg.sizeOnly
        else if IsSpecial(src.kind) then cfg.preserveTimes
        else !cfg.ignoreTimes && if cfg.checksum then src.hash.Some? else cfg.sizeOnly || cfg.preserveTimes)
  }

  /** Whatever was there and whatever the clock reads, an entry is skipped after its own
      task. */
  ghost predicate AlwaysSettles(cfg: Config, src: Entry) {
    forall dst, now :: Decide(cfg, src, After(cfg, src, dst, now)) == Skip
  }

  lemma SettledSkips(cfg: Config, src: Entry, dst: Option<Entry>, now: Clock)
    requires Settles(cfg, src)
    ensures Decide(cfg, src, After(cfg, src, dst, now)) == Skip
  {
  }

  /** A clock that agrees with no source time. */
  function Late(src: Entry): Clock {
    Clock(src.mtimeSec - 1, src.mtimeNsec)
  }

  /** An entry that does not settle is planned again whenever it is transferred, if the
      clock reads otherwise than the source's time. */
  lemma UnsettledAgain(cfg: Config, src: Entry, dst: Option<Entry>)
    requires !Settles(cfg, src) && (Decide(cfg, src, dst) == Create || Decide(cfg, src, dst) == Update)
    ensures Decide(cfg, src, Some(Copied(cfg, src, Late(src)))) != Skip
  {
  }

  /** A directory in its place always has an unsettled entry transferred. */
  function Blocking(src: Entry): Entry {
    src.(isDir := true)
  }

  lemma BlockedUpdates(cfg: Config, src: Entry)
    requires !Settles(cfg, src)
    ensures Decide(cfg, src, Some(Blocking(src))) == Update && Compare(cfg, src, Blocking(src)) == Update
  {
  }

  /** One entry, exactly. */
  lemma EntrySettles(cfg: Config, src: Entry)
    ensures AlwaysSettles(cfg, src) <==> Settles(cfg, src)
  {
    hide Decide, Settles, Copied;
    if Settles(cfg, src) {
      forall dst, now
        ensures Decide(cfg, src, After(cfg, src, dst, now)) == Skip
      {
        SettledSkips(cfg, src, dst, now);
      }
    } else {
      BlockedUpdates(cfg, src);
      UnsettledAgain(cfg, src, Some(Blocking(src)));
      assert Decide(cfg, src, After(cfg, src, Some(Blocking(src)), Late(src))) != Skip;
    }
  }

  // ---- the whole destination ----

  /** Members of one hard-link group carry the same attributes. */
  predicate SameInodeSameFile(files: seq<Entry>) {
    forall i, j | 0 <= i < |files| && 0 <= j < |files| && Linkable(files[i]) && Linkable(files[j])
      && files[i].inode == files[j].inode :: files[i].(path := files[j].path) == files[j]
  }

  /** The entry left at path of files[i]: its own task's, or its representative's
      under the member's name. */
  function FinalAt(cfg: Config, files: seq<Entry>, dest: seq<Entry>, i: nat, clock: Clocks): Option<Entry>
    requires i < |files|
  {
    var link := LinkAt(cfg, files, dest, InSyncReps(cfg, files, dest), i);
    if link.None? then After(cfg, files[i], EntryAt(dest, files[i].path), clock(files[i].path))
    else
      var rep := EntryAt(files, link.value);
      if rep.None? then None
      else
        var e := After(cfg, rep.value, EntryAt(dest, rep.value.path), clock(rep.value.path));
        if e.None? then None else Some(e.value.(path := files[i].path))
  }

  /** Deciding and settling look at attributes, never at the path. */
  lemma PathBlind(cfg: Config, src: Entry, src': Entry, dst: Entry, path: string)
    requires src.(path := src'.path) == src'
    ensures Decide(cfg, src', Some(dst.(path := path))) == Decide(cfg, src, Some(dst))
    ensures Settles(cfg, src') == Settles(cfg, src)
  {
  }

  lemma {:induction false} UniqueEntryAt(files: seq<Entry>, j: nat)
    requires UniquePaths(files) && j < |files|
    ensures EntryAt(files, files[j].path) == Some(files[j])
  {
    var n := |files| - 1;
    if j < n {
      UniqueEntryAt(files[..n], j);
    }
  }

  lemma FinalSettles(cfg: Config, files: seq<Entry>, dest: seq<Entry>, i: nat, clock: Clocks)
    requires UniquePaths(files) && SameInodeSameFile(files) && i < |files|
    requires forall k | 0 <= k < |files| :: Settles(cfg, files[k])
    ensures Decide(cfg, files[i], FinalAt(cfg, files, dest, i, clock)) == Skip
  {
    hide Decide, After, Settles, InSyncReps, Transferred, InSync, Reps;
    var link := LinkAt(cfg, files, dest, InSyncReps(cfg, files, dest), i);
    if link.None? {
      SettledSkips(cfg, files[i], EntryAt(dest, files[i].path), clock(files[i].path));
    } else {
      var j := HardlinkSound(cfg, files, dest, i);
      UniqueEntryAt(files, j);
      var now := clock(files[j].path);
      SettledSkips(cfg, files[j], EntryAt(dest, files[j].path), now);
      var e := After(cfg, files[j], EntryAt(dest, files[j].path), now);
      RepPresent(cfg, files[j], dest, now);
      PathBlind(cfg, files[j], files[i], e.value, files[i].path);
    }
  }

  lemma RepPresent(cfg: Config, src: Entry, dest: seq<Entry>, now: Clock)
    requires Transferred(cfg, src, dest) || InSync(cfg, src, dest)
    ensures After(cfg, src, EntryAt(dest, src.path), now).Some?
  {
  }

  // ---- applying a plan to a destination manifest ----

  function Without(dest: seq<Entry>, path: string): seq<Entry> {
    if dest == [] then []
    else
      var front, last := Without(dest[..|dest| - 1], path), dest[|dest| - 1];
      if last.path == path then front else front + [last]
  }

  function Put(dest: seq<Entry>, e: Entry): seq<Entry> {
    Without(dest, e.path) + [e]
  }

  /** Content tasks: the destination gets the source's entry; links wait. */
  function Copies(cfg: Config, tasks: seq<Task>, files: seq<Entry>, dest: seq<Entry>, clock: Clocks): seq<Entry> {
    if tasks == [] then dest
    else
      var before, t := Copies(cfg, tasks[..|tasks| - 1], files, dest, clock), tasks[|tasks| - 1];
      var src := EntryAt(files, t.path);
      if t.linkTo.Some? || src.None? then before else Put(before, Copied(cfg, src.value, clock(t.path)))
  }

  function Removals(tasks: seq<Task>, dest: seq<Entry>): seq<Entry> {
    if tasks == [] then dest else Without(Removals(tasks[..|tasks| - 1], dest), tasks[|tasks| - 1].path)
  }

  function Metas(cfg: Config, tasks: seq<Task>, files: seq<Entry>, dest: seq<Entry>): seq<Entry> {
    if tasks == [] then dest
    else
      var before, t := Metas(cfg, tasks[..|tasks| - 1], files, dest), tasks[|tasks| - 1];
      var src, dst := EntryAt(files, t.path), EntryAt(before, t.path);
      if src.None? || dst.None? then before else Put(before, MetaApplied(cfg, src.value, dst.value))
  }

  /** A hard link shares its target's inode: it shows what the run leaves there. */
  function Links(tasks: seq<Task>, base: seq<Entry>, dest: seq<Entry>): seq<Entry> {
    if tasks == [] then dest
    else
      var before, t := Links(tasks[..|tasks| - 1], base, dest), tasks[|tasks| - 1];
      if t.linkTo.None? || EntryAt(base, t.linkTo.value).None? then before
      else Put(before, EntryAt(base, t.linkTo.value).value.(path := t.path))
  }

  /** The destination manifest after a plan: contents, deletes, metadata, links. */
  function ApplyPlan(cfg: Config, plan: Plan, files: seq<Entry>, dest: seq<Entry>, clock: Clocks): seq<Entry> {
    var stamped := Unlinked(cfg, plan, files, dest, clock);
    Links(plan.creates + plan.updates, stamped, stamped)
  }

  function Unlinked(cfg: Config, plan: Plan, files: seq<Entry>, dest: seq<Entry>, clock: Clocks): seq<Entry> {
    Metas(cfg, plan.meta, files, Removals(plan.deletes, Copies(cfg, plan.creates + plan.updates, files, dest, clock)))
  }

  // ---- what each step leaves at a path ----

  lemma EntrySnoc(dest: seq<Entry>, e: Entry, q: string)
    ensures EntryAt(dest + [e], q) == if e.path == q then Some(e) else EntryAt(dest, q)
  {
    assert (dest + [e])[..|dest|] == dest;
  }

  lemma {:induction false} WithoutAt(dest: seq<Entry>, path: string, q: string)
    ensures EntryAt(Without(dest, path), q) == if q == path then None else EntryAt(dest, q)
  {
    if dest != [] {
      var front, last := dest[..|dest| - 1], dest[|dest| - 1];
      WithoutAt(front, path, q);
      EntrySnoc(Without(front, path), last, q);
    }
  }

  lemma PutAt(dest: seq<Entry>, e: Entry, q: string)
    ensures EntryAt(Put(dest, e), q) == if q == e.path then Some(e) else EntryAt(dest, q)
  {
    WithoutAt(dest, e.path, q);
    EntrySnoc(Without(dest, e.path), e, q);
  }

  ghost predicate Names(tasks: seq<Task>, q: string) {
    exists i | 0 <= i < |tasks| :: tasks[i].path == q
  }

  ghost predicate Writes(tasks: seq<Task>, q: string) {
    exists i | 0 <= i < |tasks| :: tasks[i].path == q && tasks[i].linkTo.None?
  }

  lemma NamesSnoc(tasks: seq<Task>, q: string)
    requires tasks != []
    ensures var front, t := tasks[..|tasks| - 1], tasks[|tasks| - 1];
      && (Names(tasks, q) <==> Names(front, q) || t.path == q)
      && (Writes(tasks, q) <==> Writes(front, q) || (t.path == q && t.linkTo.None?))
  {
    var front := tasks[..|tasks| - 1];
    assert forall i | 0 <= i < |front| :: front[i] == tasks[i];
  }

  lemma {:induction false} CopiesAt(cfg: Config, tasks: seq<Task>, files: seq<Entry>, dest: seq<Entry>, clock: Clocks, q: string)
    ensures EntryAt(Copies(cfg, tasks, files, dest, clock), q)
         == if Writes(tasks, q) && EntryAt(files, q).Some? then Some(Copied(cfg, EntryAt(files, q).value, clock(q)))
            else EntryAt(dest, q)
  {
    if tasks != [] {
      hide EntryAt, Put, Writes, Names;
      var front, t := tasks[..|tasks| - 1], tasks[|tasks| - 1];
      CopiesAt(cfg, front, files, dest, clock, q);
      NamesSnoc(tasks, q);
      var src := EntryAt(files, t.path);
      EntryAtFinds(files, t.path);
      if src.Some? {
        PutAt(Copies(cfg, front, files, dest, clock), Copied(cfg, src.value, clock(t.path)), q);
      }
    } else {
      assert !Writes(tasks, q);
    }
  }

  lemma {:induction false} RemovalsAt(tasks: seq<Task>, dest: seq<Entry>, q: string)
    ensures EntryAt(Removals(tasks, dest), q) == if Names(tasks, q) then None else EntryAt(dest, q)
  {
    if tasks != [] {
      hide EntryAt, Without, Names;
      var front, t := tasks[..|tasks| - 1], tasks[|tasks| - 1];
      RemovalsAt(front, dest, q);
      NamesSnoc(tasks, q);
      WithoutAt(Removals(front, dest), t.path, q);
    } else {
      assert !Names(tasks, q);
    }
  }

  lemma {:induction false} MetasAt(cfg: Config, tasks: seq<Task>, files: seq<Entry>, dest: seq<Entry>, q: string)
    ensures EntryAt(Metas(cfg, tasks, files, dest), q)
         == if Names(tasks, q) && EntryAt(files, q).Some? && EntryAt(dest, q).Some?
            then Some(MetaApplied(cfg, EntryAt(files, q).value, EntryAt(dest, q).value)) else EntryAt(dest, q)
  {
    if tasks != [] {
      hide EntryAt, Put, Names;
      var front, t := tasks[..|tasks| - 1], tasks[|tasks| - 1];
      MetasAt(cfg, front, files, dest, q);
      NamesSnoc(tasks, q);
      var before := Metas(cfg, front, files, dest);
      var src, dst := EntryAt(files, t.path), EntryAt(before, t.path);
      EntryAtFinds(before, t.path);
      if src.Some? && dst.Some? {
        PutAt(before, MetaApplied(cfg, src.value, dst.value), q);
      }
    } else {
      assert !Names(tasks, q);
    }
  }

  /** `u` is the only task for its path. */
  ghost predicate Only(tasks: seq<Task>, u: Task) {
    forall i | 0 <= i < |tasks| :: tasks[i].path == u.path ==> tasks[i] == u
  }

  lemma {:induction false} LinksAt(tasks: seq<Task>, base: seq<Entry>, dest: seq<Entry>, u: Task)
    requires Only(tasks, u)
    ensures EntryAt(Links(tasks, base, dest), u.path)
         == if Names(tasks, u.path) && u.linkTo.Some? && EntryAt(base, u.linkTo.value).Some?
            then Some(EntryAt(base, u.linkTo.value).value.(path := u.path)) else EntryAt(dest, u.path)
  {
    if tasks != [] {
      var front, t := tasks[..|tasks| - 1], tasks[|tasks| - 1];
      assert Only(front, u) && (t.path == u.path ==> t == u);
      hide EntryAt, Put, Names, Only;
      LinksAt(front, base, dest, u);
      NamesSnoc(tasks, u.path);
      if t.linkTo.Some? && EntryAt(base, t.linkTo.value).Some? {
        PutAt(Links(front, base, dest), EntryAt(base, t.linkTo.value).value.(path := t.path), u.path);
      }
    } else {
      assert !Names(tasks, u.path);
    }
  }

  // ---- what the whole plan leaves ----

  lemma NamesIn(tasks: seq<Task>, u: Task)
    requires forall t | t in tasks :: t.path == u.path ==> t == u
    ensures Names(tasks, u.path) <==> u in tasks
    ensures Writes(tasks, u.path) <==> u in tasks && u.linkTo.None?
    ensures Only(tasks, u)
  {
    assert forall i | 0 <= i < |tasks| :: tasks[i] in tasks;
  }

  /** Before the links are made, a source path whose task is no link holds what its own
      task left. */
  lemma {:induction false} UnlinkedAt(cfg: Config, files: seq<Entry>, dest: seq<Entry>, clock: Clocks, i: nat)
    requires UniquePaths(files) && i < |files| && LinkAt(cfg, files, dest, InSyncReps(cfg, files, dest), i).None?
    ensures EntryAt(Unlinked(cfg, PlanOf(cfg, files, dest), files, dest, clock), files[i].path)
         == After(cfg, files[i], EntryAt(dest, files[i].path), clock(files[i].path))
  {
    var plan := PlanOf(cfg, files, dest);
    var u := TaskAt(cfg, files, dest, InSyncReps(cfg, files, dest), i);
    var q := files[i].path;
    PlanPartition(cfg, files, dest, i);
    UniqueEntryAt(files, i);
    DecidedAt(cfg, files[i], dest);
    hide PlanOf, TaskAt, DecideAt, Copied, MetaApplied, EntryAt, InSyncReps, UniquePaths;
    var contents := plan.creates + plan.updates;
    assert u.path == q && u.linkTo.None? by {
      TaskShape(cfg, files, dest, i);
    }
    NamesIn(contents, u);
    NamesIn(plan.meta, u);
    NotNamed(plan.deletes, q);
    var copied := Copies(cfg, contents, files, dest, clock);
    CopiesAt(cfg, contents, files, dest, clock, q);
    RemovalsAt(plan.deletes, copied, q);
    MetasAt(cfg, plan.meta, files, Removals(plan.deletes, copied), q);
  }

  lemma NotNamed(tasks: seq<Task>, q: string)
    requires forall t | t in tasks :: t.path != q
    ensures !Names(tasks, q) && !Writes(tasks, q)
  {
    assert forall i | 0 <= i < |tasks| :: tasks[i] in tasks;
  }

  lemma TaskShape(cfg: Config, files: seq<Entry>, dest: seq<Entry>, i: nat)
    requires i < |files|
    ensures var start := InSyncReps(cfg, files, dest); var u := TaskAt(cfg, files, dest, start, i);
      u.path == files[i].path && u.linkTo == LinkAt(cfg, files, dest, start, i)
  {
    hide InSyncReps;
  }

  /** The decision, and what its task leaves, by case. */
  lemma DecidedAt(cfg: Config, src: Entry, dest: seq<Entry>)
    ensures DecideAt(cfg, src, dest) == Decide(cfg, src, EntryAt(dest, src.path))
    ensures DecideAt(cfg, src, dest) != Delete
    ensures DecideAt(cfg, src, dest) == MetaOnly ==> EntryAt(dest, src.path).Some?
  {
    hide Compare, AttrsDiffer, FlagForcedSkip;
  }

  /** Every source path ends with its own task's entry, or its representative's. */
  lemma {:induction false} AppliedAt(cfg: Config, files: seq<Entry>, dest: seq<Entry>, clock: Clocks, i: nat)
    requires UniquePaths(files) && i < |files|
    ensures EntryAt(ApplyPlan(cfg, PlanOf(cfg, files, dest), files, dest, clock), files[i].path)
         == FinalAt(cfg, files, dest, i, clock)
  {
    var plan, start := PlanOf(cfg, files, dest), InSyncReps(cfg, files, dest);
    var u := TaskAt(cfg, files, dest, start, i);
    var base := Unlinked(cfg, plan, files, dest, clock);
    PlanPartition(cfg, files, dest, i);
    TaskShape(cfg, files, dest, i);
    LinkedTransferred(cfg, files, dest, start, i);
    var link := LinkAt(cfg, files, dest, start, i);
    hide PlanOf, TaskAt, DecideAt, EntryAt, InSyncReps, LinkAt, Unlinked, After, Names, Writes;
    NamesIn(plan.creates + plan.updates, u);
    LinksAt(plan.creates + plan.updates, base, base, u);
    if link.None? {
      UnlinkedAt(cfg, files, dest, clock, i);
    } else {
      var j := HardlinkSound(cfg, files, dest, i);
      UniqueEntryAt(files, j);
      UnlinkedAt(cfg, files, dest, clock, j);
      RepPresent(cfg, files[j], dest, clock(files[j].path));
    }
  }

  lemma LinkedTransferred(cfg: Config, files: seq<Entry>, dest: seq<Entry>, start: map<nat, string>, i: nat)
    requires i < |files|
    ensures LinkAt(cfg, files, dest, start, i).Some? ==>
      DecideAt(cfg, files[i], dest) == Create || DecideAt(cfg, files[i], dest) == Update
  {
    hide DecideAt, LinkTo, Reps;
  }

  /** A path the source does not have survives exactly when the plan does not delete it. */
  lemma {:induction false} ForeignAt(cfg: Config, files: seq<Entry>, dest: seq<Entry>, clock: Clocks, q: string)
    requires EntryAt(files, q).None?
    ensures EntryAt(ApplyPlan(cfg, PlanOf(cfg, files, dest), files, dest, clock), q)
         == if Names(Deletes(cfg, files, dest), q) then None else EntryAt(dest, q)
  {
    var plan, start := PlanOf(cfg, files, dest), InSyncReps(cfg, files, dest);
    var contents := plan.creates + plan.updates;
    ForeignNames(cfg, files, dest, start, q);
    hide EntryAt, InSyncReps, Tasks, Deletes, Names, Writes;
    NotNamed(contents, q);
    NotNamed(plan.meta, q);
    var copied := Copies(cfg, contents, files, dest, clock);
    var base := Unlinked(cfg, plan, files, dest, clock);
    CopiesAt(cfg, contents, files, dest, clock, q);
    RemovalsAt(plan.deletes, copied, q);
    MetasAt(cfg, plan.meta, files, Removals(plan.deletes, copied), q);
    var u := Task(q, Create, 0, false, None, None, None);
    NamesIn(contents, u);
    LinksAt(contents, base, base, u);
  }

  lemma ForeignNames(cfg: Config, files: seq<Entry>, dest: seq<Entry>, start: map<nat, string>, q: string)
    requires EntryAt(files, q).None?
    ensures forall action, t | t in Tasks(cfg, files, dest, start, action) :: t.path != q
  {
    EntryAtFinds(files, q);
    TaskNames(cfg, files, dest, start);
    hide EntryAt, Tasks, TaskAt, DecideAt;
    forall action, t | t in Tasks(cfg, files, dest, start, action)
      ensures t.path != q
    {
      ListContents(cfg, files, dest, start, action);
    }
  }

  /** Nothing deletable is left. */
  lemma {:induction false} NothingLeft(cfg: Config, files: seq<Entry>, dest: seq<Entry>, clock: Clocks, e: Entry)
    requires e in ApplyPlan(cfg, PlanOf(cfg, files, dest), files, dest, clock) && EntryAt(files, e.path).None?
    ensures !Deleted(cfg, files, e)
  {
    var dest' := ApplyPlan(cfg, PlanOf(cfg, files, dest), files, dest, clock);
    hide ApplyPlan, PlanOf, Names;
    ForeignAt(cfg, files, dest, clock, e.path);
    EntryAtFinds(dest', e.path);
    EntryAtFinds(dest, e.path);
    DeleteContents(cfg, files, dest);
    var was := EntryAt(dest, e.path).value;
    var k :| 0 <= k < |dest| && dest[k] == was;
    var t := Task(was.path, Delete, 0, was.isDir, None, None, None);
    if Deleted(cfg, files, was) {
      assert t in Deletes(cfg, files, dest);
      InNames(Deletes(cfg, files, dest), t);
    }
  }

  lemma InNames(tasks: seq<Task>, t: Task)
    requires t in tasks
    ensures Names(tasks, t.path)
  {
  }

  /** A plan with nothing to do. */
  predicate Idle(plan: Plan) {
    plan.creates == [] && plan.updates == [] && plan.meta == [] && plan.deletes == []
  }

  /** Carrying out the plan for one destination and planning again. */
  function Again(cfg: Config, files: seq<Entry>, dest: seq<Entry>, clock: Clocks): Plan {
    PlanOf(cfg, files, ApplyPlan(cfg, PlanOf(cfg, files, dest), files, dest, clock))
  }

  /** Convergence: with unique paths and consistent hard-link groups, applying a plan and
      planning again creates, updates, re-applies and deletes nothing, whatever the
      other flags and whatever the clock read at each write. */
  lemma {:induction false} Converges(cfg: Config, files: seq<Entry>, dest: seq<Entry>, clock: Clocks)
    requires UniquePaths(files) && SameInodeSameFile(files)
    requires forall k | 0 <= k < |files| :: Settles(cfg, files[k])
    ensures var again := Again(cfg, files, dest, clock);
      && again.creates == [] && again.updates == [] && again.meta == [] && again.deletes == []
      && |again.skips| == |files|
  {
    var dest' := ApplyPlan(cfg, PlanOf(cfg, files, dest), files, dest, clock);
    hide Decide, FinalAt, Settles, InSyncReps, Tasks, Deletes, Deleted, ApplyPlan;
    forall i | 0 <= i < |files|
      ensures DecideAt(cfg, files[i], dest') == Skip
    {
      AppliedAt(cfg, files, dest, clock, i);
      FinalSettles(cfg, files, dest, i, clock);
    }
    forall j | 0 <= j < |dest'| && EntryAt(files, dest'[j].path).None?
      ensures !Deleted(cfg, files, dest'[j])
    {
      NothingLeft(cfg, files, dest, clock, dest'[j]);
    }
    var start := InSyncReps(cfg, files, dest');
    AllSkipped(cfg, files, dest', start);
    NothingDeleted(cfg, files, dest');
  }

  /** A transferred entry that does not settle leaves work behind, as a link too. */
  lemma FinalAgain(cfg: Config, files: seq<Entry>, dest: seq<Entry>, i: nat, clock: Clocks)
    requires UniquePaths(files) && SameInodeSameFile(files) && i < |files|
    requires !Settles(cfg, files[i]) && Transferred(cfg, files[i], dest) && clock == (_ => Late(files[i]))
    requires forall j | 0 <= j < |files| :: !InSync(cfg, files[j], dest)
    ensures Decide(cfg, files[i], FinalAt(cfg, files, dest, i, clock)) != Skip
  {
    hide Decide, Settles, InSyncReps, InSync, Reps;
    var link := LinkAt(cfg, files, dest, InSyncReps(cfg, files, dest), i);
    if link.None? {
      UnsettledAgain(cfg, files[i], EntryAt(dest, files[i].path));
    } else {
      var j := HardlinkSound(cfg, files, dest, i);
      UniqueEntryAt(files, j);
      var e := Copied(cfg, files[j], Late(files[i]));
      PathBlind(cfg, files[j], files[i], e, files[i].path);
      UnsettledAgain(cfg, files[j], EntryAt(dest, files[j].path));
    }
  }

  /** Nothing is in sync where only a blocking directory exists. */
  lemma NothingInSync(cfg: Config, files: seq<Entry>, i: nat, j: nat)
    requires UniquePaths(files) && i < |files| && j < |files| && !Settles(cfg, files[i])
    ensures !InSync(cfg, files[j], [Blocking(files[i])])
  {
    hide Settles;
    BlockedUpdates(cfg, files[i]);
    EntryAtFinds([Blocking(files[i])], files[j].path);
  }

  /** An entry that does not settle shows in the second plan for some destination. */
  lemma {:induction false} NotIdle(cfg: Config, files: seq<Entry>, i: nat)
    requires UniquePaths(files) && SameInodeSameFile(files) && i < |files| && !Settles(cfg, files[i])
    ensures !Idle(Again(cfg, files, [Blocking(files[i])], _ => Late(files[i])))
  {
    hide Decide, Settles, FinalAt, InSyncReps, TaskAt, ApplyPlan, PlanOf, InSync;
    var dest, clock: Clocks := [Blocking(files[i])], _ => Late(files[i]);
    forall j | 0 <= j < |files|
      ensures !InSync(cfg, files[j], dest)
    {
      NothingInSync(cfg, files, i, j);
    }
    BlockedUpdates(cfg, files[i]);
    assert EntryAt(dest, files[i].path) == Some(Blocking(files[i]));
    FinalAgain(cfg, files, dest, i, clock);
    AppliedAt(cfg, files, dest, clock, i);
    var dest' := ApplyPlan(cfg, PlanOf(cfg, files, dest), files, dest, clock);
    PlanPartition(cfg, files, dest', i);
    NeverDelete(cfg, files[i], dest');
  }

  lemma NeverDelete(cfg: Config, src: Entry, dest: seq<Entry>)
    ensures DecideAt(cfg, src, dest) != Delete
  {
  }

  /** Convergence, exactly: for every destination and every clock the second plan has
      nothing to do if and only if every source entry settles. */
  lemma {:induction false} ConvergesExactly(cfg: Config, files: seq<Entry>)
    requires UniquePaths(files) && SameInodeSameFile(files)
    ensures (forall dest, clock :: Idle(Again(cfg, files, dest, clock))) <==>
      forall k | 0 <= k < |files| :: Settles(cfg, files[k])
  {
    hide Settles, Again;
    if forall k | 0 <= k < |files| :: Settles(cfg, files[k]) {
      forall dest, clock
        ensures Idle(Again(cfg, files, dest, clock))
      {
        Converges(cfg, files, dest, clock);
      }
    } else {
      var i :| 0 <= i < |files| && !Settles(cfg, files[i]);
      NotIdle(cfg, files, i);
    }
  }

  lemma {:induction false} AllSkipped(cfg: Config, files: seq<Entry>, dest: seq<Entry>, start: map<nat, string>)
    requires forall i | 0 <= i < |files| :: DecideAt(cfg, files[i], dest) == Skip
    ensures forall action | action != Skip :: Tasks(cfg, files, dest, start, action) == []
    ensures |Tasks(cfg, files, dest, start, Skip)| == |files|
  {
    if files != [] {
      hide DecideAt, Reps, LinkTo, TaskFor, Transferred;
      AllSkipped(cfg, files[..|files| - 1], dest, start);
    }
  }

  lemma {:induction false} NothingDeleted(cfg: Config, files: seq<Entry>, dest: seq<Entry>)
    requires forall j | 0 <= j < |dest| && EntryAt(files, dest[j].path).None? :: !Deleted(cfg, files, dest[j])
    ensures Deletes(cfg, files, dest) == []
  {
    if dest != [] {
      NothingDeleted(cfg, files, dest[..|dest| - 1]);
    }
  }
}
