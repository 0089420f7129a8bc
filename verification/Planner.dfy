/** The sync planner: two manifests in, a plan out. */
module Planner {
  import opened Bytes

  datatype Kind = File | Dir | Symlink | Fifo | Socket | BlockDevice | CharDevice

  datatype Entry = Entry(
    path: string, size: nat, mode: nat, mtimeSec: int, mtimeNsec: nat, hash: Option<Digest>, isDir: bool,
    linkTarget: Option<string>, inode: Option<nat>, kind: Kind, rdev: Option<nat>)

  datatype Action = Skip | Create | Update | Delete | MetaOnly

  datatype Task = Task(
    path: string, action: Action, sourceSize: nat, isDir: bool, linkTarget: Option<string>,
    linkTo: Option<string>, special: Option<(Kind, Option<nat>)>)

  datatype Plan = Plan(
    creates: seq<Task>, updates: seq<Task>, deletes: seq<Task>, skips: seq<Task>, meta: seq<Task>)

  datatype Config = Config(
    checksum: bool, sizeOnly: bool, updateOnly: bool, ignoreExisting: bool, existing: bool, ignoreTimes: bool,
    delete: bool, deleteScope: Option<seq<string>>, preservePerms: bool, preserveTimes: bool)

  // ---- the pure decisions ----

  function IsSpecial(k: Kind): bool {
    k.Fifo? || k.Socket? || k.BlockDevice? || k.CharDevice?
  }

  function TimesMatch(src: Entry, dst: Entry): bool {
    src.mtimeSec == dst.mtimeSec && src.mtimeNsec == dst.mtimeNsec
  }

  function AttrsDiffer(cfg: Config, src: Entry, dst: Entry): bool {
    (cfg.preservePerms && src.mode % 0x1000 != dst.mode % 0x1000) || (cfg.preserveTimes && !TimesMatch(src, dst))
  }

  function FlagForcedSkip(cfg: Config, src: Entry, dst: Entry): bool {
    (cfg.updateOnly && dst.mtimeSec > src.mtimeSec) || (cfg.ignoreExisting && !src.isDir && !dst.isDir)
  }

  function ContentMatches(cfg: Config, src: Entry, dst: Entry): bool {
    if cfg.checksum then src.hash.Some? && src.hash == dst.hash
    else if cfg.sizeOnly then src.size == dst.size
    else src.size == dst.size && TimesMatch(src, dst)
  }

  /** The action for an entry present on both sides: Skip or Update. */
  function Compare(cfg: Config, src: Entry, dst: Entry): Action {
    if cfg.ignoreExisting && !src.isDir && !dst.isDir then Skip
    else if src.isDir != dst.isDir then Update
    else if src.linkTarget.Some? || dst.linkTarget.Some? then
      if src.linkTarget == dst.linkTarget && (cfg.checksum || cfg.sizeOnly || TimesMatch(src, dst)) then Skip
      else Update
    else if IsSpecial(src.kind) || IsSpecial(dst.kind) then
      if src.kind == dst.kind && src.rdev == dst.rdev && src.mtimeSec == dst.mtimeSec then Skip else Update
    else if cfg.updateOnly && dst.mtimeSec > src.mtimeSec then Skip
    else if cfg.ignoreTimes then Update
    else if cfg.checksum then if src.hash.Some? && src.hash == dst.hash then Skip else Update
    else if cfg.sizeOnly then if src.size == dst.size then Skip else Update
    else if src.size != dst.size || !TimesMatch(src, dst) then Update
    else Skip
  }

  /** Which list a source entry lands in. */
  function Decide(cfg: Config, src: Entry, dst: Option<Entry>): Action {
    match dst
    case None => if cfg.existing && !src.isDir then Skip else Create
    case Some(d) =>
      if src.isDir && d.isDir then Skip
      else if Compare(cfg, src, d) == Update then Update
      else if !src.isDir && src.linkTarget.None? && !IsSpecial(src.kind) && !FlagForcedSkip(cfg, src, d)
              && AttrsDiffer(cfg, src, d) then MetaOnly
      else Skip
  }

  function Normalize(s: string): string {
    seq(|s|, i requires 0 <= i < |s| => if s[i] == '\\' then '/' else s[i])
  }

  predicate DeleteInScope(cfg: Config, rel: string) {
    cfg.deleteScope.Some? ==>
      exists i | 0 <= i < |cfg.deleteScope.value| :: UnderRoot(Normalize(rel), Normalize(cfg.deleteScope.value[i]))
  }

  predicate UnderRoot(rel: string, root: string) {
    rel == root || root + "/" <= rel
  }

  function TaskFor(src: Entry, action: Action): Task {
    Task(src.path, action, src.size, src.isDir, src.linkTarget, None,
         if IsSpecial(src.kind) then Some((src.kind, src.rdev)) else None)
  }

  // ---- specification of the plan ----

  /** The manifest entry a path map holds: the last one wins. */
  function EntryAt(files: seq<Entry>, path: string): Option<Entry> {
    if files == [] then None
    else if files[|files| - 1].path == path then Some(files[|files| - 1])
    else EntryAt(files[..|files| - 1], path)
  }

  function DecideAt(cfg: Config, src: Entry, dest: seq<Entry>): Action {
    Decide(cfg, src, EntryAt(dest, src.path))
  }

  predicate Transferred(cfg: Config, src: Entry, dest: seq<Entry>) {
    var a := DecideAt(cfg, src, dest);
    a == Create || a == Update
  }

  /** In sync with content the planner itself checked: a valid link target. */
  predicate InSync(cfg: Config, src: Entry, dest: seq<Entry>) {
    var dst := EntryAt(dest, src.path);
    && src.kind.File? && src.inode.Some? && dst.Some?
    && dst.value.linkTarget.None?
    && Compare(cfg, src, dst.value) == Skip
    && ContentMatches(cfg, src, dst.value)
  }

  /** Representatives after the pre-pass over `files`. */
  function InSyncReps(cfg: Config, files: seq<Entry>, dest: seq<Entry>): map<nat, string> {
    if files == [] then map[]
    else
      var reps, src := InSyncReps(cfg, files[..|files| - 1], dest), files[|files| - 1];
      if InSync(cfg, src, dest) && src.inode.value !in reps then reps[src.inode.value := src.path] else reps
  }

  /** A regular file with an inode: the only kind that forms hard-link groups. */
  predicate Linkable(src: Entry) {
    src.inode.Some? && src.kind.File?
  }

  /** Representatives once the main loop has passed `files`. */
  function Reps(cfg: Config, files: seq<Entry>, dest: seq<Entry>, start: map<nat, string>): map<nat, string> {
    if files == [] then start
    else
      var reps, src := Reps(cfg, files[..|files| - 1], dest, start), files[|files| - 1];
      if Transferred(cfg, src, dest) && Linkable(src) && src.inode.value !in reps
      then reps[src.inode.value := src.path] else reps
  }

  /** The hard-link target of a transferred entry, given the representatives. */
  function LinkTo(src: Entry, reps: map<nat, string>): Option<string> {
    if Linkable(src) && src.inode.value in reps then Some(reps[src.inode.value]) else None
  }

  /** The tasks the main loop pushes to the list of `action`, in manifest order. */
  function Tasks(cfg: Config, files: seq<Entry>, dest: seq<Entry>, start: map<nat, string>, action: Action): seq<Task> {
    if files == [] then []
    else
      var front, src := files[..|files| - 1], files[|files| - 1];
      var before := Tasks(cfg, front, dest, start, action);
      if DecideAt(cfg, src, dest) != action then before
      else
        var link := if Transferred(cfg, src, dest) then LinkTo(src, Reps(cfg, front, dest, start)) else None;
        before + [TaskFor(src, action).(linkTo := link)]
  }

  predicate Deleted(cfg: Config, files: seq<Entry>, dst: Entry) {
    cfg.delete && EntryAt(files, dst.path).None? && DeleteInScope(cfg, dst.path)
  }

  function Deletes(cfg: Config, files: seq<Entry>, dest: seq<Entry>): seq<Task> {
    if dest == [] then []
    else
      var before, dst := Deletes(cfg, files, dest[..|dest| - 1]), dest[|dest| - 1];
      if Deleted(cfg, files, dst) then before + [Task(dst.path, Delete, 0, dst.isDir, None, None, None)] else before
  }

  function PlanOf(cfg: Config, files: seq<Entry>, dest: seq<Entry>): Plan {
    var start := InSyncReps(cfg, files, dest);
    Plan(Tasks(cfg, files, dest, start, Create), Tasks(cfg, files, dest, start, Update), Deletes(cfg, files, dest),
         Tasks(cfg, files, dest, start, Skip), Tasks(cfg, files, dest, start, MetaOnly))
  }

  // ---- the code ----

  ghost predicate MapOf(m: map<string, Entry>, files: seq<Entry>) {
    forall path :: EntryAt(files, path) == if path in m then Some(m[path]) else None
  }

  method PathMap(files: seq<Entry>) returns (m: map<string, Entry>)
    ensures MapOf(m, files)
  {
    m := map[];
    for i := 0 to |files|
      invariant MapOf(m, files[..i])
    {
      assert files[..i + 1][..i] == files[..i];
      m := m[files[i].path := files[i]];
    }
    assert files[..|files|] == files;
  }

  /** Register every content-matched in-sync entry before any task is formed. */
  method PrePass(cfg: Config, files: seq<Entry>, dstMap: map<string, Entry>, ghost dest: seq<Entry>)
    returns (reps: map<nat, string>)
    requires MapOf(dstMap, dest)
    ensures reps == InSyncReps(cfg, files, dest)
  {
    reps := map[];
    for i := 0 to |files|
      invariant reps == InSyncReps(cfg, files[..i], dest)
    {
      var src := files[i];
      assert files[..i + 1][..i] == files[..i];
      if src.kind.File? && src.inode.Some? && src.path in dstMap {
        var dst := dstMap[src.path];
        if dst.linkTarget.None? && Compare(cfg, src, dst) == Skip && ContentMatches(cfg, src, dst) {
          if src.inode.value !in reps {
            reps := reps[src.inode.value := src.path];
          }
        }
      }
    }
    assert files[..|files|] == files;
  }

  /** Mark a task as a hard link when its inode has a representative, else
      register it as one. */
  method AssignHardlink(src: Entry, task: Task, reps: map<nat, string>)
    returns (task': Task, reps': map<nat, string>)
    requires task.linkTo.None?
    ensures task' == task.(linkTo := LinkTo(src, reps))
    ensures reps' == if Linkable(src) && src.inode.value !in reps then reps[src.inode.value := src.path] else reps
  {
    task', reps' := task, reps;
    if src.inode.Some? && src.kind.File? {
      if src.inode.value in reps {
        task' := task.(linkTo := Some(reps[src.inode.value]));
      } else {
        reps' := reps[src.inode.value := src.path];
      }
    }
  }

  lemma LoopStep(cfg: Config, files: seq<Entry>, dest: seq<Entry>, start: map<nat, string>, i: nat)
    requires i < |files|
    ensures var front, src := files[..i], files[i];
      var reps := Reps(cfg, front, dest, start);
      && Reps(cfg, files[..i + 1], dest, start)
           == (if Transferred(cfg, src, dest) && Linkable(src) && src.inode.value !in reps
               then reps[src.inode.value := src.path] else reps)
      && forall action :: Tasks(cfg, files[..i + 1], dest, start, action)
           == Tasks(cfg, front, dest, start, action)
              + if DecideAt(cfg, src, dest) != action then []
                else [TaskFor(src, action).(linkTo := if Transferred(cfg, src, dest) then LinkTo(src, reps) else None)]
  {
    assert files[..i + 1][..i] == files[..i];
  }

  /** The planner's loops compute the specified plan. */
  method MakePlan(cfg: Config, source: seq<Entry>, dest: seq<Entry>) returns (plan: Plan)
    ensures plan == PlanOf(cfg, source, dest)
  {
    hide InSyncReps, Reps, Tasks, TaskFor, LinkTo, Compare, AttrsDiffer, FlagForcedSkip;
    var srcMap := PathMap(source);
    var dstMap := PathMap(dest);
    var linkReps := PrePass(cfg, source, dstMap, dest);
    ghost var start := linkReps;
    var creates: seq<Task>, updates: seq<Task>, skips: seq<Task>, meta: seq<Task> := [], [], [], [];
    NoTasks(cfg, dest, start);
    assert source[..0] == [];
    for i := 0 to |source|
      invariant linkReps == Reps(cfg, source[..i], dest, start)
      invariant creates == Tasks(cfg, source[..i], dest, start, Create)
      invariant updates == Tasks(cfg, source[..i], dest, start, Update)
      invariant skips == Tasks(cfg, source[..i], dest, start, Skip)
      invariant meta == Tasks(cfg, source[..i], dest, start, MetaOnly)
    {
      var src := source[i];
      LoopStep(cfg, source, dest, start, i);
      Plain(src);
      if src.path !in dstMap {
        if cfg.existing && !src.isDir {
          skips := skips + [TaskFor(src, Skip)];
        } else {
          var task;
          task, linkReps := AssignHardlink(src, TaskFor(src, Create), linkReps);
          creates := creates + [task];
        }
      } else {
        var dst := dstMap[src.path];
        if src.isDir && dst.isDir {
          skips := skips + [TaskFor(src, Skip)];
        } else if Compare(cfg, src, dst) == Update {
          var task;
          task, linkReps := AssignHardlink(src, TaskFor(src, Update), linkReps);
          updates := updates + [task];
        } else if !src.isDir && src.linkTarget.None? && !IsSpecial(src.kind) && !FlagForcedSkip(cfg, src, dst)
                  && AttrsDiffer(cfg, src, dst) {
          meta := meta + [TaskFor(src, MetaOnly)];
        } else {
          skips := skips + [TaskFor(src, Skip)];
        }
      }
    }
    assert source[..|source|] == source;
    var deletes := PlanDeletes(cfg, srcMap, source, dest);
    plan := Plan(creates, updates, deletes, skips, meta);
  }

  method PlanDeletes(cfg: Config, srcMap: map<string, Entry>, ghost source: seq<Entry>, dest: seq<Entry>)
    returns (deletes: seq<Task>)
    requires MapOf(srcMap, source)
    ensures deletes == Deletes(cfg, source, dest)
  {
    deletes := [];
    if cfg.delete {
      for j := 0 to |dest|
        invariant deletes == Deletes(cfg, source, dest[..j])
      {
        assert dest[..j + 1][..j] == dest[..j];
        if dest[j].path !in srcMap && DeleteInScope(cfg, dest[j].path) {
          deletes := deletes + [Task(dest[j].path, Delete, 0, dest[j].isDir, None, None, None)];
        }
      }
      assert dest[..|dest|] == dest;
    } else {
      NoDeletes(cfg, source, dest);
    }
  }

  lemma {:induction false} NoDeletes(cfg: Config, source: seq<Entry>, dest: seq<Entry>)
    requires !cfg.delete
    ensures Deletes(cfg, source, dest) == []
  {
    if dest != [] {
      NoDeletes(cfg, source, dest[..|dest| - 1]);
    }
  }

  lemma NoTasks(cfg: Config, dest: seq<Entry>, start: map<nat, string>)
    ensures Reps(cfg, [], dest, start) == start
    ensures forall action :: Tasks(cfg, [], dest, start, action) == []
  {
  }

  lemma Plain(src: Entry)
    ensures forall action :: TaskFor(src, action).linkTo == None
    ensures forall action :: TaskFor(src, action).(linkTo := None) == TaskFor(src, action)
  {
  }
}
