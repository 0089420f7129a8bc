/** `--remove-source-files`: the verification pass after the Ack, and why no source
    goes before its bytes are committed at the destination. */
module MoveOff {
  import opened Bytes
  import opened FrameCodec
  import opened Sparse
  import opened Applies
  import opened ReceiverState

  datatype ScanEntry = ScanEntry(path: Text, size: nat, mtime: int, nsec: nat, dereferenced: bool)

  datatype Stat = Found(size: nat, mtime: int, nsec: nat) | Gone | StatFailed

  datatype Removal = Removed | AlreadyGone | RemoveFailed

  /** The source tree as the pass sees it. */
  datatype Tree = Tree(stat: Text -> Stat, remove: Text -> Removal)

  function EntryFor(manifest: seq<ScanEntry>, path: Text): Option<ScanEntry> {
    if manifest == [] then None
    else if manifest[0].path == path then Some(manifest[0])
    else EntryFor(manifest[1..], path)
  }

  // ---- specification ----

  /** The receiver vouches for the bytes the sender hashed. */
  predicate Vouched(ack: Ack, t: (Text, Digest)) {
    t.0 !in ack.skipped && t.0 in ack.hashes && ack.hashes[t.0] == t.1
  }

  /** The source is ours to remove and is still what was scanned. */
  predicate Stable(manifest: seq<ScanEntry>, tree: Tree, path: Text) {
    && tree.stat(path).Found?
    && match EntryFor(manifest, path)
       case None => true
       case Some(e) =>
         !e.dereferenced && tree.stat(path) == Found(e.size, e.mtime, e.nsec)
  }

  predicate Removable(ack: Ack, manifest: seq<ScanEntry>, tree: Tree, remove: bool, t: (Text, Digest)) {
    remove && Vouched(ack, t) && Stable(manifest, tree, t.0) && tree.remove(t.0) != RemoveFailed
  }

  /** Worth telling the user: not vouched for, changed or unreadable since the scan, or
      not removable. Files the receiver reported, external ones and vanished ones are not. */
  predicate Reportable(ack: Ack, manifest: seq<ScanEntry>, tree: Tree, remove: bool, t: (Text, Digest)) {
    && t.0 !in ack.skipped
    && (!Vouched(ack, t)
        || (remove && if Stable(manifest, tree, t.0) then tree.remove(t.0) == RemoveFailed else Changed(manifest, tree, t.0)))
  }

  predicate Changed(manifest: seq<ScanEntry>, tree: Tree, path: Text) {
    && !tree.stat(path).Gone? && !Stable(manifest, tree, path)
    && (EntryFor(manifest, path).Some? ==> !EntryFor(manifest, path).value.dereferenced)
  }

  // ---- what that means on the manifest ----

  /** The entry a search from the front finds for the path. */
  predicate FirstEntry(manifest: seq<ScanEntry>, path: Text, i: int) {
    0 <= i < |manifest| && manifest[i].path == path && forall j | 0 <= j < i :: manifest[j].path != path
  }

  lemma {:induction false} EntryForFirst(manifest: seq<ScanEntry>, path: Text)
    ensures EntryFor(manifest, path).None? <==> forall i | 0 <= i < |manifest| :: manifest[i].path != path
    ensures forall i | FirstEntry(manifest, path, i) :: EntryFor(manifest, path) == Some(manifest[i])
    ensures EntryFor(manifest, path).Some? ==> exists i :: FirstEntry(manifest, path, i)
  {
    if manifest != [] && manifest[0].path != path {
      var rest := manifest[1..];
      EntryForFirst(rest, path);
      assert forall i | 0 <= i < |rest| :: rest[i] == manifest[i + 1];
      forall i | FirstEntry(manifest, path, i)
        ensures EntryFor(manifest, path) == Some(manifest[i])
      {
        assert FirstEntry(rest, path, i - 1);
      }
      if EntryFor(manifest, path).Some? {
        var i :| FirstEntry(rest, path, i);
        assert FirstEntry(manifest, path, i + 1);
      }
    } else if manifest != [] {
      assert FirstEntry(manifest, path, 0);
    }
  }

  /** The source is there, and every entry found for it was scanned inside the tree with
      this size and these times. */
  ghost predicate AsScanned(manifest: seq<ScanEntry>, tree: Tree, path: Text) {
    && tree.stat(path).Found?
    && forall i | FirstEntry(manifest, path, i) ::
         !manifest[i].dereferenced && tree.stat(path) == Found(manifest[i].size, manifest[i].mtime, manifest[i].nsec)
  }

  /** The entry found for the path lies outside the tree. */
  ghost predicate External(manifest: seq<ScanEntry>, path: Text) {
    exists i :: FirstEntry(manifest, path, i) && manifest[i].dereferenced
  }

  /** When a file is removed and when it is reported, on the manifest, the tree and the Ack
      themselves. */
  lemma PassExactly(ack: Ack, manifest: seq<ScanEntry>, tree: Tree, remove: bool, t: (Text, Digest))
    ensures var agree := t.0 in ack.hashes && ack.hashes[t.0] == t.1;
      Removable(ack, manifest, tree, remove, t) <==>
        remove && t.0 !in ack.skipped && agree && AsScanned(manifest, tree, t.0) && tree.remove(t.0) != RemoveFailed
    ensures var agree := t.0 in ack.hashes && ack.hashes[t.0] == t.1;
      Reportable(ack, manifest, tree, remove, t) <==>
        t.0 !in ack.skipped
        && (!agree || (remove && !External(manifest, t.0) && !tree.stat(t.0).Gone?
            && (AsScanned(manifest, tree, t.0) ==> tree.remove(t.0) == RemoveFailed)))
  {
    EntryForFirst(manifest, t.0);
    if EntryFor(manifest, t.0).Some? {
      var i :| FirstEntry(manifest, t.0, i);
      assert EntryFor(manifest, t.0) == Some(manifest[i]);
    }
  }

  /** Nothing is kept in silence: under `--remove-source-files` a transferred file is
      removed, reported here, reported by the receiver, outside the tree or gone. */
  lemma NothingSilent(ack: Ack, manifest: seq<ScanEntry>, tree: Tree, t: (Text, Digest))
    ensures Removable(ack, manifest, tree, true, t) || Reportable(ack, manifest, tree, true, t)
      || t.0 in ack.skipped || External(manifest, t.0) || tree.stat(t.0).Gone?
    ensures !(Removable(ack, manifest, tree, true, t) && Reportable(ack, manifest, tree, true, t))
  {
    PassExactly(ack, manifest, tree, true, t);
  }

  // ---- the pass ----

  /** Removes exactly the vouched, stable files, and only under
      `--remove-source-files`; reports exactly the reportable ones. */
  method VerificationPass(
    transferred: seq<(Text, Digest)>, ack: Ack, manifest: seq<ScanEntry>, tree: Tree, remove: bool)
    returns (removed: seq<Text>, reported: seq<Text>)
    ensures forall p :: p in removed <==> exists i | 0 <= i < |transferred| ::
      transferred[i].0 == p && Removable(ack, manifest, tree, remove, transferred[i])
    ensures forall p :: p in reported <==> exists i | 0 <= i < |transferred| ::
      transferred[i].0 == p && Reportable(ack, manifest, tree, remove, transferred[i])
  {
    hide Stable, Changed;
    removed, reported := [], [];
    for i := 0 to |transferred|
      invariant forall p :: p in removed <==> exists k | 0 <= k < i ::
        transferred[k].0 == p && Removable(ack, manifest, tree, remove, transferred[k])
      invariant forall p :: p in reported <==> exists k | 0 <= k < i ::
        transferred[k].0 == p && Reportable(ack, manifest, tree, remove, transferred[k])
    {
      var (rel, sourceHash) := transferred[i];
      if rel in ack.skipped {
        continue;
      }
      if rel !in ack.hashes || ack.hashes[rel] != sourceHash {
        reported := reported + [rel];
        continue;
      }
      if !remove {
        continue;
      }
      var stable, changed := CheckSource(manifest, tree, rel);
      if changed {
        reported := reported + [rel];
      }
      if stable {
        if tree.remove(rel) == RemoveFailed {
          reported := reported + [rel];
        } else {
          removed := removed + [rel];
        }
      }
    }
  }

  /** Whether the source may go, and whether to report it. */
  method CheckSource(manifest: seq<ScanEntry>, tree: Tree, rel: Text) returns (stable: bool, changed: bool)
    ensures stable == Stable(manifest, tree, rel) && changed == Changed(manifest, tree, rel) && !(stable && changed)
  {
    var entry := EntryFor(manifest, rel);
    if entry.Some? && entry.value.dereferenced {
      return false, false;
    }
    match tree.stat(rel) {
      case Found(size, mtime, nsec) =>
        stable := entry.None? || (size == entry.value.size && mtime == entry.value.mtime && nsec == entry.value.nsec);
        changed := !stable;
      case Gone =>
        stable, changed := false, false;
      case StatFailed =>
        stable, changed := false, true;
    }
  }

  // ---- safety ----

  /** The sender's list is honest: each hash is that of the bytes it read for the path,
      and their number is the scanned size. */
  ghost predicate Honest(transferred: seq<(Text, Digest)>, read: map<Text, seq<byte>>, sizes: Sizes, h: Hash) {
    forall i | 0 <= i < |transferred| ::
      var p := transferred[i].0;
      p in read && p in sizes && transferred[i].1 == h(read[p]) && |read[p]| == sizes[p]
  }

  /** A vouched path with an honest sender: what the hash says, and, if the bytes received
      and the bytes read do not collide, that they are the file. */
  lemma VouchedContent(
    dest: Files, streams: Files, sizes: Sizes, h: Hash, read: map<Text, seq<byte>>, p: Text, digest: Digest)
    requires Backed(dest, streams, sizes, h, p, digest)
    requires p in read && p in sizes && |read[p]| == sizes[p] && digest == h(read[p])
    ensures p in dest && p in streams && |dest[p]| == |read[p]| && h(streams[p]) == h(read[p])
    ensures dest[p] == Fit(streams[p], |read[p]|)
    ensures dest[p] == read[p] || !NoCollision(h, streams[p], read[p])
  {
    FitSame(streams[p], |dest[p]|);
  }

  /** What a removal rests on: the destination holds the bytes received for the path, cut
      or padded to the scanned size, and these have the digest of the bytes read; so it
      holds the bytes read, unless the two collide. */
  ghost predicate Arrived(dest: Files, streams: Files, sizes: Sizes, h: Hash, read: map<Text, seq<byte>>, p: Text) {
    && p in read && Backed(dest, streams, sizes, h, p, h(read[p]))
    && |dest[p]| == |read[p]| && (NoCollision(h, streams[p], read[p]) ==> dest[p] == read[p])
  }

  lemma RemovedArrived(
    ack: Ack, dest: Files, streams: Files, sizes: Sizes, h: Hash, read: map<Text, seq<byte>>,
    transferred: seq<(Text, Digest)>, i: nat)
    requires Honest(transferred, read, sizes, h) && i < |transferred| && Vouched(ack, transferred[i])
    requires Backed(dest, streams, sizes, h, transferred[i].0, ack.hashes[transferred[i].0])
    ensures Arrived(dest, streams, sizes, h, read, transferred[i].0)
  {
    hide Backed;
    VouchedContent(dest, streams, sizes, h, read, transferred[i].0, transferred[i].1);
  }

  /** Move-off safety over a whole run: whatever the receiver's handlers did before, in
      any order, with any failures, a source that the run touched once is removed only if
      its bytes arrived, the receiver did not report the path, and the source still has
      the scanned size and times. The bytes received and the file are those that became due
      when its recipe was handled or its stream ended, and its report was due as applied.
      A basis whose apply was joined is never removed. */
  method FinishRun(
    state: ApplyState, transferred: seq<(Text, Digest)>, manifest: seq<ScanEntry>, tree: Tree, remove: bool,
    ghost read: map<Text, seq<byte>>)
    returns (removed: seq<Text>, reported: seq<Text>)
    requires state.Valid() && state.verify && Honest(transferred, read, state.sizes, state.h)
    modifies state
    ensures forall p | p in removed :: p !in state.skipped && remove && Stable(manifest, tree, p)
    ensures forall p | p in removed :: tree.stat(p).Found? && forall i | FirstEntry(manifest, p, i) ::
      !manifest[i].dereferenced && tree.stat(p) == Found(manifest[i].size, manifest[i].mtime, manifest[i].nsec)
    ensures forall p | p in removed && p !in state.reused ::
      Arrived(state.dest, state.streams, state.sizes, state.h, read, p) && p !in state.discarded
    ensures forall p | p in removed && Steady(state.View(), p) ::
      AtRest(state.due[p], p, state.dest, state.streams) && state.due[p].outcome.Applied?
    ensures forall i | 0 <= i < |transferred| && transferred[i].0 in state.discarded && transferred[i].0 !in state.reused ::
      transferred[i].0 in reported
  {
    hide Consistent, Fated, Held, Below, Backed, Stable, Honest, Arrived, Changed, HasTask, AtRest;
    var ack := state.HandleDone();
    removed, reported := VerificationPass(transferred, ack, manifest, tree, remove);
    DroppedApart(state.View(), state.sizes, state.h, state.verify);
    forall p | p in removed
      ensures p !in state.skipped && remove && Stable(manifest, tree, p)
      ensures p !in state.reused ==>
        Arrived(state.dest, state.streams, state.sizes, state.h, read, p) && p !in state.discarded
      ensures tree.stat(p).Found? && forall i | FirstEntry(manifest, p, i) ::
        !manifest[i].dereferenced && tree.stat(p) == Found(manifest[i].size, manifest[i].mtime, manifest[i].nsec)
    {
      var i :| 0 <= i < |transferred| && transferred[i].0 == p && Removable(ack, manifest, tree, remove, transferred[i]);
      PassExactly(ack, manifest, tree, remove, transferred[i]);
      if p !in state.reused {
        RemovedArrived(ack, state.dest, state.streams, state.sizes, state.h, read, transferred, i);
      }
    }
  }

  lemma DroppedApart(b: Books, sizes: Sizes, h: Hash, verify: bool)
    requires Consistent(b, sizes, h, verify)
    ensures forall p | p in b.discarded && p !in b.reused :: p !in b.hashes && p !in b.skipped
  {
    hide HasTask;
    forall p | p in b.discarded && p !in b.reused
      ensures p !in b.hashes && p !in b.skipped
    {
      assert Placed(b, p) && Once(b, p);
    }
  }
}
