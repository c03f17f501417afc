/** The revision store: files addressed by content, shared between revisions as hard links to one
    inode. A digest is taken to be collision-free, so it is modelled by the bytes themselves. */
module ArtifactStore {
  type Bytes = seq<int>

  // An inode; its mode belongs to it, not to any of its links.
  datatype Node = Node(bytes: Bytes, readOnly: bool)

  // A revision's tree links paths to inodes; its manifest names the object of each path.
  datatype Revision = Revision(files: map<string, nat>, manifest: map<string, Bytes>)

  datatype Store = Store(nodes: map<nat, Node>, next: nat, objects: map<Bytes, nat>, revisions: map<string, Revision>)

  // A file to copy, with the mode it has in the source.
  datatype File = File(path: string, bytes: Bytes, readOnly: bool)

  type Tree = map<string, nat>

  predicate DistinctPaths(files: seq<File>)
  {
    forall i, j :: 0 <= i < j < |files| ==> files[i].path != files[j].path
  }

  // ---- the steps of a creation ----

  /** Each file copied to an inode of its own. */
  function Copied(s: Store, files: seq<File>): (copied: (Store, Tree))
  {
    if files == [] then (s, map[])
    else
      var last := |files| - 1;
      var (t, tree) := Copied(s, files[..last]);
      (t.(nodes := t.nodes[t.next := Node(files[last].bytes, files[last].readOnly)], next := t.next + 1),
       tree[files[last].path := t.next])
  }

  /** One path interned: new bytes become the object, known bytes are replaced by a link to it. */
  function InternOne(s: Store, tree: Tree, path: string): (interned: (Store, Tree))
    requires path in tree && tree[path] in s.nodes
  {
    var digest := s.nodes[tree[path]].bytes;
    if digest in s.objects then (s, tree[path := s.objects[digest]])
    else (s.(objects := s.objects[digest := tree[path]]), tree)
  }

  /** What holds while a tree is being interned: every object's bytes are its name, and the tree holds
      the files' bytes. */
  ghost predicate Building(s: Store, tree: Tree, files: seq<File>)
  {
    && (forall d :: d in s.objects ==> s.objects[d] in s.nodes && s.nodes[s.objects[d]].bytes == d)
    && tree.Keys == (set f | f in files :: f.path)
    && (forall f :: f in files ==> tree[f.path] in s.nodes && s.nodes[tree[f.path]].bytes == f.bytes)
  }

  function Interned(s: Store, tree: Tree, files: seq<File>, k: nat): (interned: (Store, Tree))
    requires k <= |files| && Building(s, tree, files)
    ensures Building(interned.0, interned.1, files)
  {
    if k == 0 then (s, tree)
    else
      var (t, built) := Interned(s, tree, files, k - 1);
      assert files[k - 1] in files;
      InternKeepsBuilding(t, built, files, k - 1);
      InternOne(t, built, files[k - 1].path)
  }

  lemma InternKeepsBuilding(s: Store, tree: Tree, files: seq<File>, k: nat)
    requires k < |files| && Building(s, tree, files)
    ensures files[k].path in tree && tree[files[k].path] in s.nodes
    ensures var (t, built) := InternOne(s, tree, files[k].path); Building(t, built, files)
  {
    assert files[k] in files;
    var (t, built) := InternOne(s, tree, files[k].path);
    forall f | f in files
      ensures built[f.path] in t.nodes && t.nodes[built[f.path]].bytes == f.bytes
    {
      if f.path == files[k].path {
        assert s.nodes[tree[f.path]].bytes == f.bytes;
      }
    }
  }

  /** chmod of every file of a tree to read-only. The mode goes to the inode, however many links it has;
      where a chmod fails the file is skipped, silently. */
  function Locked(s: Store, tree: Tree, skipped: set<nat>): (locked: Store)
  {
    s.(nodes := map n | n in s.nodes ::
                  if n in tree.Values && n !in skipped then s.nodes[n].(readOnly := true) else s.nodes[n])
  }

  function ManifestOf(files: seq<File>): (manifest: map<string, Bytes>)
  {
    if files == [] then map[]
    else ManifestOf(files[..|files| - 1])[files[|files| - 1].path := files[|files| - 1].bytes]
  }

  // Where a creation fails, if it does: after so many files copied, or interned, or at the manifest.
  datatype Stage = Copying(done: nat) | Interning(done: nat) | Complete

  datatype Result = Created | AlreadyExists | Failed

  /** How many files a creation has interned when it ends. */
  function InternedBy(files: seq<File>, stage: Stage): (k: nat)
    ensures k <= |files|
  {
    match stage
    case Copying(_) => 0
    case Interning(done) => if done <= |files| then done else |files|
    case Complete => |files|
  }

  /** A creation: on failure what was built is locked read-only and removed; objects it linked stay.
      `skipped` are the inodes its chmod fails on; a creation that skipped some succeeds all the same. */
  ghost function Create(s: Store, id: string, files: seq<File>, stage: Stage,
                        skipped: set<nat>): (outcome: (Store, Result))
    requires Valid(s) && DistinctPaths(files)
  {
    if id in s.revisions then (s, AlreadyExists)
    else if stage.Copying? then
      var (t, tree) := Copied(s, if stage.done <= |files| then files[..stage.done] else files);
      (Locked(t, tree, skipped), Failed)
    else
      var (t, tree) := Copied(s, files);
      CopiedIsBuilding(s, files);
      var (u, built) := Interned(t, tree, files, InternedBy(files, stage));
      var locked := Locked(u, built, skipped);
      if stage.Interning? then (locked, Failed)
      else (locked.(revisions := locked.revisions[id := Revision(built, ManifestOf(files))]), Created)
  }

  /** Removing a revision: its directories are unlocked, its files only re-locked, then unlinked. */
  function Discard(s: Store, id: string, skipped: set<nat>): (t: Store)
  {
    if id !in s.revisions then s
    else Locked(s, s.revisions[id].files, skipped).(revisions := s.revisions - {id})
  }

  // ---- the invariant ----

  /** Each object's bytes hash to its name; each revision file is the very inode of the object its
      manifest names. */
  ghost predicate Valid(s: Store)
  {
    && (forall n :: n in s.nodes ==> n < s.next)
    && (forall d :: d in s.objects ==> s.objects[d] in s.nodes && s.nodes[s.objects[d]].bytes == d)
    && (forall id :: id in s.revisions ==> SoundRevision(s, s.revisions[id]))
  }

  ghost predicate SoundRevision(s: Store, r: Revision)
  {
    r.files.Keys == r.manifest.Keys
    && forall p :: p in r.files ==> r.manifest[p] in s.objects && r.files[p] == s.objects[r.manifest[p]]
  }

  /** What a reader of a revision sees. */
  ghost function Contents(s: Store, id: string): (contents: map<string, Node>)
    requires Valid(s) && id in s.revisions
  {
    map p | p in s.revisions[id].files :: s.nodes[s.revisions[id].files[p]]
  }

  /** A revision's paths and bytes stay; its modes only ever become read-only. */
  ghost predicate KeepsBytes(s: Store, t: Store, id: string)
    requires Valid(s) && Valid(t) && id in s.revisions && id in t.revisions
  {
    var before, after := Contents(s, id), Contents(t, id);
    && after.Keys == before.Keys
    && forall p :: p in before ==> after[p].bytes == before[p].bytes && (before[p].readOnly ==> after[p].readOnly)
  }

  ghost predicate ObjectsLocked(s: Store)
    requires Valid(s)
  {
    forall d :: d in s.objects ==> s.nodes[s.objects[d]].readOnly
  }

  /** What any step may do to what was there: add inodes and objects, and make inodes read-only. */
  ghost predicate OnlyAdds(s: Store, t: Store)
  {
    && s.next <= t.next
    && (forall n :: n in s.nodes ==>
          n in t.nodes && t.nodes[n].bytes == s.nodes[n].bytes && (s.nodes[n].readOnly ==> t.nodes[n].readOnly))
    && (forall d :: d in s.objects ==> d in t.objects && t.objects[d] == s.objects[d])
    && t.revisions == s.revisions
  }

  lemma {:induction false} CopyingOnlyAdds(s: Store, files: seq<File>)
    requires forall n :: n in s.nodes ==> n < s.next
    ensures var (t, tree) := Copied(s, files);
            && OnlyAdds(s, t) && t.objects == s.objects
            && (forall n :: n in s.nodes ==> t.nodes[n] == s.nodes[n])
            && (forall n :: n in t.nodes ==> n < t.next)
            && tree.Keys == (set f | f in files :: f.path)
            && (forall p :: p in tree ==> tree[p] in t.nodes && tree[p] >= s.next)
  {
    if files == [] {
    } else {
      var last := |files| - 1;
      CopyingOnlyAdds(s, files[..last]);
      assert files == files[..last] + [files[last]];
    }
  }

  lemma {:induction false} CopiedHoldsTheFiles(s: Store, files: seq<File>, i: nat)
    requires DistinctPaths(files) && i < |files| && forall n :: n in s.nodes ==> n < s.next
    ensures var (t, tree) := Copied(s, files);
            && files[i].path in tree && tree[files[i].path] in t.nodes
            && t.nodes[tree[files[i].path]] == Node(files[i].bytes, files[i].readOnly)
    decreases |files|
  {
    var last := |files| - 1;
    CopyingOnlyAdds(s, files[..last]);
    if i < last {
      CopiedHoldsTheFiles(s, files[..last], i);
      assert files[..last][i] == files[i];
    }
  }

  lemma CopiedIsBuilding(s: Store, files: seq<File>)
    requires Valid(s) && DistinctPaths(files)
    ensures var (t, tree) := Copied(s, files); Building(t, tree, files)
  {
    CopyingOnlyAdds(s, files);
    forall i | 0 <= i < |files|
      ensures var (t, tree) := Copied(s, files); t.nodes[tree[files[i].path]].bytes == files[i].bytes
    {
      CopiedHoldsTheFiles(s, files, i);
    }
  }

  /** One turn of interning, as the rest of the proof sees it. */
  lemma InternStep(s: Store, tree: Tree, files: seq<File>, k: nat)
    requires k < |files| && Building(s, tree, files)
    ensures files[k].path in tree && tree[files[k].path] in s.nodes
    ensures var (t, built), bytes := InternOne(s, tree, files[k].path), files[k].bytes;
            && t.nodes == s.nodes && t.next == s.next && t.revisions == s.revisions
            && t.objects.Keys == s.objects.Keys + {bytes}
            && (forall d :: d in s.objects ==> t.objects[d] == s.objects[d])
            && built.Keys == tree.Keys && built[files[k].path] == t.objects[bytes]
            && (bytes !in s.objects ==> built == tree)
            && (forall p :: p in tree && p != files[k].path ==> built[p] == tree[p])
  {
    assert files[k] in files;
    assert s.nodes[tree[files[k].path]].bytes == files[k].bytes;
  }

  /** Interning adds exactly the digests of the files so far, and touches no inode. */
  lemma {:induction false} InterningOnlyAdds(s: Store, tree: Tree, files: seq<File>, k: nat)
    requires k <= |files| && Building(s, tree, files)
    ensures var (t, built) := Interned(s, tree, files, k);
            && t.nodes == s.nodes && t.next == s.next && t.revisions == s.revisions
            && (forall d :: d in s.objects ==> d in t.objects && t.objects[d] == s.objects[d])
            && t.objects.Keys == s.objects.Keys + (set i | 0 <= i < k :: files[i].bytes)
            && built.Keys == tree.Keys
  {
    hide InternOne;
    hide Building;
    if k == 0 {
    } else {
      InterningOnlyAdds(s, tree, files, k - 1);
      var (t, built) := Interned(s, tree, files, k - 1);
      InternStep(t, built, files, k - 1);
    }
  }

  /** Interning links each path so far to the object of its bytes. */
  lemma {:induction false} InterningLinksToObjects(s: Store, tree: Tree, files: seq<File>, k: nat, i: nat)
    requires i < k <= |files| && Building(s, tree, files) && DistinctPaths(files)
    ensures var (t, built) := Interned(s, tree, files, k);
            files[i].bytes in t.objects && files[i].path in built && built[files[i].path] == t.objects[files[i].bytes]
    decreases k
  {
    hide InternOne;
    hide Building;
    var (t, built) := Interned(s, tree, files, k - 1);
    InternStep(t, built, files, k - 1);
    if i < k - 1 {
      InterningLinksToObjects(s, tree, files, k - 1, i);
      assert files[i].path != files[k - 1].path;
    }
  }

  /** The files not interned yet keep the inodes they were copied to. */
  lemma {:induction false} InterningLeavesTheRest(s: Store, tree: Tree, files: seq<File>, k: nat, i: nat)
    requires k <= i < |files| && Building(s, tree, files) && DistinctPaths(files)
    ensures var (_, built) := Interned(s, tree, files, k);
            files[i].path in tree && files[i].path in built && built[files[i].path] == tree[files[i].path]
    decreases k
  {
    hide InternOne;
    hide Building;
    BuildingHasThePath(s, tree, files, i);
    if k == 0 {
    } else {
      var (t, built) := Interned(s, tree, files, k - 1);
      InternStep(t, built, files, k - 1);
      InterningLeavesTheRest(s, tree, files, k - 1, i);
      assert files[i].path != files[k - 1].path;
    }
  }

  lemma BuildingHasThePath(s: Store, tree: Tree, files: seq<File>, i: nat)
    requires i < |files| && Building(s, tree, files)
    ensures files[i].path in tree
  {
    assert files[i] in files;
  }

  /** What interning adds to the objects are inodes of the tree. */
  lemma {:induction false} NewObjectsAreOfTheTree(s: Store, tree: Tree, files: seq<File>, k: nat)
    requires k <= |files| && Building(s, tree, files) && DistinctPaths(files)
    ensures var (t, _) := Interned(s, tree, files, k);
            forall d :: d in t.objects && d !in s.objects ==> t.objects[d] in tree.Values
  {
    hide InternOne;
    hide Building;
    if k == 0 {
    } else {
      NewObjectsAreOfTheTree(s, tree, files, k - 1);
      InterningLeavesTheRest(s, tree, files, k - 1, k - 1);
      var (t, built) := Interned(s, tree, files, k - 1);
      InternStep(t, built, files, k - 1);
      assert tree[files[k - 1].path] in tree.Values;
    }
  }

  // ---- what creating and discarding keep ----

  /** Where a step only adds, and each object's bytes are its name, the invariant carries over and so does
      every revision's content, modes apart. */
  lemma AddingKeepsRevisions(s: Store, t: Store)
    requires Valid(s) && OnlyAdds(s, t)
    requires forall n :: n in t.nodes ==> n < t.next
    requires forall d :: d in t.objects ==> t.objects[d] in t.nodes && t.nodes[t.objects[d]].bytes == d
    ensures Valid(t)
    ensures forall id :: id in s.revisions ==> KeepsBytes(s, t, id)
  {
    forall id | id in s.revisions
      ensures SoundRevision(t, t.revisions[id])
      ensures forall p :: p in s.revisions[id].files ==> s.revisions[id].files[p] in s.nodes
    {
      assert SoundRevision(s, s.revisions[id]);
    }
  }

  /** An inode some revision links to. */
  ghost predicate Linked(s: Store, n: nat)
  {
    exists id, p :: id in s.revisions && p in s.revisions[id].files && s.revisions[id].files[p] == n
  }

  /** Of the inodes a chmod is asked to lock, those it reaches and a revision links to were locked before. */
  ghost predicate LocksOnlyLocked(s: Store, touched: set<nat>, skipped: set<nat>)
  {
    forall n :: n in touched && n !in skipped && Linked(s, n) && n in s.nodes ==> s.nodes[n].readOnly
  }

  /** What a step that locks `touched`, but for those skipped, makes of the old inodes. */
  ghost predicate Locks(s: Store, t: Store, touched: set<nat>, skipped: set<nat>)
  {
    forall n :: n in s.nodes ==>
      n in t.nodes && t.nodes[n] == if n in touched && n !in skipped then Node(s.nodes[n].bytes, true) else s.nodes[n]
  }

  /** A lock shows in a revision exactly where it reaches an inode the revision shares and finds it unlocked. */
  lemma ModesStayExactlyWhen(s: Store, t: Store, touched: set<nat>, skipped: set<nat>)
    requires Valid(s) && Valid(t) && Locks(s, t, touched, skipped)
    requires forall id :: id in s.revisions ==> id in t.revisions && t.revisions[id] == s.revisions[id]
    ensures (forall id :: id in s.revisions ==> Contents(t, id) == Contents(s, id)) <==>
            LocksOnlyLocked(s, touched, skipped)
  {
    hide Valid;
    hide Contents;
    hide Locks;
    if LocksOnlyLocked(s, touched, skipped) {
      hide LocksOnlyLocked;
      forall id | id in s.revisions
        ensures Contents(t, id) == Contents(s, id)
      {
        LockedModesStay(s, t, touched, skipped, id);
      }
    }
    if forall id :: id in s.revisions ==> Contents(t, id) == Contents(s, id) {
      forall n | n in touched && n !in skipped && Linked(s, n) && n in s.nodes
        ensures s.nodes[n].readOnly
      {
        var id, p :| id in s.revisions && p in s.revisions[id].files && s.revisions[id].files[p] == n;
        LockedInodeWasLocked(s, t, touched, skipped, id, p);
      }
    }
  }

  lemma LockedModesStay(s: Store, t: Store, touched: set<nat>, skipped: set<nat>, id: string)
    requires Valid(s) && Valid(t) && Locks(s, t, touched, skipped) && LocksOnlyLocked(s, touched, skipped)
    requires id in s.revisions && id in t.revisions && t.revisions[id] == s.revisions[id]
    ensures Contents(t, id) == Contents(s, id)
  {
    var r := s.revisions[id];
    assert SoundRevision(s, r);
    forall p | p in r.files
      ensures r.files[p] in s.nodes && t.nodes[r.files[p]] == s.nodes[r.files[p]]
    {
      assert Linked(s, r.files[p]);
    }
  }

  lemma LockedInodeWasLocked(s: Store, t: Store, touched: set<nat>, skipped: set<nat>, id: string, p: string)
    requires Valid(s) && Valid(t) && Locks(s, t, touched, skipped)
    requires id in s.revisions && id in t.revisions && t.revisions[id] == s.revisions[id]
    requires Contents(t, id) == Contents(s, id) && p in s.revisions[id].files
    requires var n := s.revisions[id].files[p]; n in touched && n !in skipped && n in s.nodes
    ensures s.nodes[s.revisions[id].files[p]].readOnly
  {
    assert Contents(t, id)[p] == Contents(s, id)[p];
  }

  lemma {:induction false} ManifestHasEveryFile(files: seq<File>, i: nat)
    requires DistinctPaths(files) && i < |files|
    ensures files[i].path in ManifestOf(files) && ManifestOf(files)[files[i].path] == files[i].bytes
    decreases |files|
  {
    var last := |files| - 1;
    if i < last {
      ManifestHasEveryFile(files[..last], i);
      assert files[..last][i] == files[i];
    }
  }

  lemma {:induction false} ManifestHasOnlyFiles(files: seq<File>)
    ensures ManifestOf(files).Keys == set f | f in files :: f.path
  {
    if files == [] {
    } else {
      ManifestHasOnlyFiles(files[..|files| - 1]);
      assert files == files[..|files| - 1] + [files[|files| - 1]];
    }
  }

  /** After copying all files, interning the first k and locking the tree. */
  lemma BuiltAndLocked(s: Store, files: seq<File>, k: nat, skipped: set<nat>)
    requires Valid(s) && DistinctPaths(files) && k <= |files|
    requires Building(Copied(s, files).0, Copied(s, files).1, files)
    ensures var (t, tree) := Copied(s, files);
            var (u, built) := Interned(t, tree, files, k);
            var locked := Locked(u, built, skipped);
            && Valid(locked) && locked.revisions == s.revisions
            && (forall id :: id in s.revisions ==> KeepsBytes(s, locked, id))
            && locked.objects.Keys == s.objects.Keys + (set i | 0 <= i < k :: files[i].bytes)
            && (forall d :: d in s.objects ==> locked.objects[d] == s.objects[d])
  {
    hide Building;
    hide Interned;
    hide Copied;
    hide KeepsBytes;
    var (t, tree) := Copied(s, files);
    var (u, built) := Interned(t, tree, files, k);
    CopyingOnlyAdds(s, files);
    InterningOnlyAdds(t, tree, files, k);
    BuildingNamesItsObjects(u, built, files);
    AddingKeepsRevisions(s, Locked(u, built, skipped));
  }

  lemma BuildingNamesItsObjects(s: Store, tree: Tree, files: seq<File>)
    requires Building(s, tree, files)
    ensures forall d :: d in s.objects ==> s.objects[d] in s.nodes && s.nodes[s.objects[d]].bytes == d
  {}

  /** The stored inodes the first k files share. */
  function Shared(s: Store, files: seq<File>, k: nat): (shared: set<nat>)
    requires k <= |files|
  {
    set i | 0 <= i < k && files[i].bytes in s.objects :: s.objects[files[i].bytes]
  }

  /** Of the inodes that were there before, the built tree links to the shared ones and no other. */
  lemma BuiltTouchesTheShared(s: Store, files: seq<File>, k: nat, n: nat)
    requires Valid(s) && DistinctPaths(files) && k <= |files| && n in s.nodes
    requires Building(Copied(s, files).0, Copied(s, files).1, files)
    ensures var (t, tree) := Copied(s, files);
            n in Interned(t, tree, files, k).1.Values <==> n in Shared(s, files, k)
  {
    hide Building;
    hide Interned;
    hide Copied;
    var (t, tree) := Copied(s, files);
    var (u, built) := Interned(t, tree, files, k);
    CopyingOnlyAdds(s, files);
    InterningOnlyAdds(t, tree, files, k);
    NewObjectsAreOfTheTree(t, tree, files, k);
    if n in built.Values {
      var p :| p in built && built[p] == n;
      var f :| f in files && f.path == p;
      var i :| 0 <= i < |files| && files[i] == f;
      if i < k {
        InterningLinksToObjects(t, tree, files, k, i);
      } else {
        InterningLeavesTheRest(t, tree, files, k, i);
      }
      assert n in Shared(s, files, k);
    }
    if n in Shared(s, files, k) {
      var i :| 0 <= i < k && files[i].bytes in s.objects && s.objects[files[i].bytes] == n;
      InterningLinksToObjects(t, tree, files, k, i);
      assert built[files[i].path] in built.Values;
    }
  }

  /** The inodes of the old store after all that: exactly the shared ones are locked, if the chmod reached them. */
  lemma OldInodesAfterwards(s: Store, files: seq<File>, k: nat, skipped: set<nat>)
    requires Valid(s) && DistinctPaths(files) && k <= |files|
    requires Building(Copied(s, files).0, Copied(s, files).1, files)
    ensures var (t, tree) := Copied(s, files);
            var (u, built) := Interned(t, tree, files, k);
            Locks(s, Locked(u, built, skipped), Shared(s, files, k), skipped)
  {
    hide Building;
    hide Interned;
    hide Copied;
    hide Shared;
    var (t, tree) := Copied(s, files);
    CopyingOnlyAdds(s, files);
    InterningOnlyAdds(t, tree, files, k);
    forall n | n in s.nodes
      ensures n in Interned(t, tree, files, k).1.Values <==> n in Shared(s, files, k)
    {
      BuiltTouchesTheShared(s, files, k, n);
    }
  }

  lemma CopyFailingIsSafe(s: Store, files: seq<File>, skipped: set<nat>)
    requires Valid(s)
    ensures var (t, tree) := Copied(s, files);
            var locked := Locked(t, tree, skipped);
            && Valid(locked) && locked.revisions == s.revisions
            && (forall id :: id in s.revisions ==> KeepsBytes(s, locked, id) && Contents(locked, id) == Contents(s, id))
  {
    hide Copied;
    CopyingOnlyAdds(s, files);
    var (t, tree) := Copied(s, files);
    var locked := Locked(t, tree, skipped);
    AddingKeepsRevisions(s, locked);
    forall n | n in s.nodes
      ensures n !in tree.Values
    {}
    ModesStayExactlyWhen(s, locked, {}, skipped);
  }

  /** A creation, whether it completes, fails at any point or is refused, and whatever its chmod skips,
      keeps the store valid and every other revision's bytes, whose modes only ever become read-only;
      one that completes holds exactly the given files. */
  lemma CreateIsSafe(s: Store, id: string, files: seq<File>, stage: Stage, skipped: set<nat>)
    requires Valid(s) && DistinctPaths(files)
    ensures var (t, result) := Create(s, id, files, stage, skipped);
            && Valid(t)
            && (forall other :: other in s.revisions ==> other in t.revisions && KeepsBytes(s, t, other))
            && (result != Created ==> t.revisions == s.revisions)
            && (result == Created <==> id !in s.revisions && stage == Complete)
            && (result == Created ==> t.revisions.Keys == s.revisions.Keys + {id} && HoldsExactly(t, id, files)
                                      && t.objects.Keys == s.objects.Keys
                                          + (set i | 0 <= i < |files| :: files[i].bytes))
  {
    hide Interned;
    hide Copied;
    hide Locked;
    hide KeepsBytes;
    if id in s.revisions {
      RevisionsKeepThemselves(s);
    } else {
      match stage
      case Copying(done) => CopyFailingIsSafe(s, if done <= |files| then files[..done] else files, skipped);
      case Interning(done) =>
        CopiedIsBuilding(s, files);
        BuiltAndLocked(s, files, InternedBy(files, stage), skipped);
      case Complete =>
        CopiedIsBuilding(s, files);
        BuiltAndLocked(s, files, |files|, skipped);
        CompleteIsSafe(s, id, files, skipped);
    }
  }

  /** What a creation leaves among the objects, failed or not: those there were, and one for the bytes of each file it
      came to intern. */
  lemma CreationsKeepTheirObjects(s: Store, id: string, files: seq<File>, stage: Stage, skipped: set<nat>)
    requires Valid(s) && DistinctPaths(files) && id !in s.revisions
    ensures var t := Create(s, id, files, stage, skipped).0;
            && (forall d :: d in s.objects ==> d in t.objects && t.objects[d] == s.objects[d])
            && forall d :: d in t.objects <==>
                 d in s.objects ||
                 exists i :: 0 <= i < |files| && files[i].bytes == d
                             && (stage.Complete? || (stage.Interning? && i < stage.done))
  {
    hide Interned;
    hide Copied;
    hide DistinctPaths;
    CopyingOnlyAddsTo(s, files);
    if stage.Copying? {
      CopyingOnlyAddsTo(s, if stage.done <= |files| then files[..stage.done] else files);
    } else {
      CopiedIsBuilding(s, files);
      var (t, tree) := Copied(s, files);
      InterningOnlyAdds(t, tree, files, InternedBy(files, stage));
    }
  }

  lemma RevisionsKeepThemselves(s: Store)
    requires Valid(s)
    ensures forall id :: id in s.revisions ==> KeepsBytes(s, s, id)
  {}

  /** A creation changes no other revision's modes exactly when the stored inodes it shares and whose chmod
      goes through were read-only already. */
  lemma CreatingKeepsModesExactlyWhen(s: Store, id: string, files: seq<File>, stage: Stage, skipped: set<nat>)
    requires Valid(s) && DistinctPaths(files) && id !in s.revisions
    ensures var t := Create(s, id, files, stage, skipped).0;
            && Valid(t)
            && (forall other :: other in s.revisions ==> other in t.revisions)
            && ((forall other :: other in s.revisions ==> Contents(t, other) == Contents(s, other))
                <==> LocksOnlyLocked(s, Shared(s, files, InternedBy(files, stage)), skipped))
  {
    hide Interned;
    hide Copied;
    hide Locked;
    hide KeepsBytes;
    hide LocksOnlyLocked;
    CreateIsSafe(s, id, files, stage, skipped);
    var t := Create(s, id, files, stage, skipped).0;
    if stage.Copying? {
      CopyFailingIsSafe(s, if stage.done <= |files| then files[..stage.done] else files, skipped);
      NothingShared(s, files, skipped);
    } else {
      CopiedIsBuilding(s, files);
      BuiltAndLocked(s, files, InternedBy(files, stage), skipped);
      OldInodesAfterwards(s, files, InternedBy(files, stage), skipped);
      ModesStayExactlyWhen(s, t, Shared(s, files, InternedBy(files, stage)), skipped);
    }
  }

  lemma NothingShared(s: Store, files: seq<File>, skipped: set<nat>)
    ensures LocksOnlyLocked(s, Shared(s, files, 0), skipped)
  {}

  /** The revision's paths are the files', each read back as its bytes. */
  ghost predicate HoldsExactly(s: Store, id: string, files: seq<File>)
    requires Valid(s) && id in s.revisions
  {
    && Contents(s, id).Keys == (set f | f in files :: f.path)
    && forall f :: f in files ==> Contents(s, id)[f.path].bytes == f.bytes
  }

  lemma CompleteIsSafe(s: Store, id: string, files: seq<File>, skipped: set<nat>)
    requires Valid(s) && DistinctPaths(files) && id !in s.revisions
    requires Building(Copied(s, files).0, Copied(s, files).1, files)
    ensures var t := Create(s, id, files, Complete, skipped).0;
            && Valid(t)
            && (forall other :: other in s.revisions ==> other in t.revisions && KeepsBytes(s, t, other))
            && t.revisions.Keys == s.revisions.Keys + {id} && HoldsExactly(t, id, files)
  {
    hide Interned;
    hide Copied;
    hide Locked;
    hide Building;
    hide KeepsBytes;
    hide Valid;
    hide Contents;
    hide SoundRevision;
    hide ManifestOf;
    BuiltAndLocked(s, files, |files|, skipped);
    var (t, tree) := Copied(s, files);
    var (u, built) := Interned(t, tree, files, |files|);
    var locked, revision := Locked(u, built, skipped), Revision(built, ManifestOf(files));
    BuiltIsSound(s, files);
    LockingKeepsSound(u, built, skipped, revision);
    AddingASoundRevision(locked, id, revision);
    AddedRevisionKeepsBytes(s, locked, id, revision);
  }

  /** The tree and the manifest of a completed creation belong together. */
  lemma BuiltIsSound(s: Store, files: seq<File>)
    requires Valid(s) && DistinctPaths(files)
    requires Building(Copied(s, files).0, Copied(s, files).1, files)
    ensures var (t, tree) := Copied(s, files);
            var (u, built) := Interned(t, tree, files, |files|);
            var revision := Revision(built, ManifestOf(files));
            && SoundRevision(u, revision)
            && built.Keys == (set f | f in files :: f.path)
            && (forall f :: f in files ==> revision.manifest[f.path] == f.bytes)
  {
    hide Interned;
    hide Copied;
    hide Building;
    CopyingOnlyAdds(s, files);
    var (t, tree) := Copied(s, files);
    var (u, built) := Interned(t, tree, files, |files|);
    InterningOnlyAdds(t, tree, files, |files|);
    ManifestHasOnlyFiles(files);
    forall f | f in files
      ensures f.path in built && f.bytes in u.objects && built[f.path] == u.objects[f.bytes]
      ensures f.path in ManifestOf(files) && ManifestOf(files)[f.path] == f.bytes
    {
      var i :| 0 <= i < |files| && files[i] == f;
      InterningLinksToObjects(t, tree, files, |files|, i);
      ManifestHasEveryFile(files, i);
    }
    hide ManifestOf;
    SoundByFiles(u, Revision(built, ManifestOf(files)), files);
  }

  lemma SoundByFiles(s: Store, r: Revision, files: seq<File>)
    requires r.files.Keys == (set f | f in files :: f.path) == r.manifest.Keys
    requires forall f :: f in files ==>
               r.manifest[f.path] == f.bytes && f.bytes in s.objects && r.files[f.path] == s.objects[f.bytes]
    ensures SoundRevision(s, r)
  {
    forall p | p in r.files
      ensures r.manifest[p] in s.objects && r.files[p] == s.objects[r.manifest[p]]
    {
      var f :| f in files && f.path == p;
    }
  }

  lemma LockingKeepsSound(s: Store, tree: Tree, skipped: set<nat>, r: Revision)
    requires SoundRevision(s, r)
    ensures SoundRevision(Locked(s, tree, skipped), r)
  {}

  /** The first of the files with these bytes; the others become links to its inode. */
  function FirstWith(files: seq<File>, d: Bytes): (i: nat)
    ensures i <= |files| && forall j :: 0 <= j < i ==> files[j].bytes != d
    ensures i < |files| ==> files[i].bytes == d
  {
    if files == [] || files[0].bytes == d then 0 else 1 + FirstWith(files[1..], d)
  }

  /** New bytes become an object by the first file that has them, with the mode it was copied with. */
  lemma {:induction false} NewObjectIsTheFirstCopy(s: Store, tree: Tree, files: seq<File>, k: nat, d: Bytes)
    requires k <= |files| && Building(s, tree, files) && DistinctPaths(files)
    requires d in Interned(s, tree, files, k).0.objects && d !in s.objects
    ensures var i := FirstWith(files, d);
            i < k && files[i].path in tree && Interned(s, tree, files, k).0.objects[d] == tree[files[i].path]
    decreases k
  {
    hide InternOne;
    hide Building;
    if k == 0 {
    } else {
      var (t, built) := Interned(s, tree, files, k - 1);
      InternStep(t, built, files, k - 1);
      if d in t.objects {
        NewObjectIsTheFirstCopy(s, tree, files, k - 1, d);
      } else {
        InterningOnlyAdds(s, tree, files, k - 1);
        InterningLeavesTheRest(s, tree, files, k - 1, k - 1);
        FirstIsFirst(files, k - 1);
      }
    }
  }

  lemma FirstIsFirst(files: seq<File>, i: nat)
    requires i < |files| && forall j :: 0 <= j < i ==> files[j].bytes != files[i].bytes
    ensures FirstWith(files, files[i].bytes) == i
  {
    var first := FirstWith(files, files[i].bytes);
    assert !(first < i) && !(i < first);
  }

  /** A new revision's file is read-only exactly when its chmod went through, it shares an object that was
      read-only already, or its bytes are new and the first file that has them was read-only in the source. */
  lemma CreatedIsReadOnlyExactlyWhen(s: Store, id: string, files: seq<File>, skipped: set<nat>, i: nat)
    requires Valid(s) && DistinctPaths(files) && id !in s.revisions && i < |files|
    ensures var t, f := Create(s, id, files, Complete, skipped).0, files[i];
            && Valid(t) && id in t.revisions && f.path in Contents(t, id) && f.bytes in t.objects
            && FirstWith(files, f.bytes) < |files|
            && (Contents(t, id)[f.path].readOnly <==>
                  || t.objects[f.bytes] !in skipped
                  || if f.bytes in s.objects then s.nodes[s.objects[f.bytes]].readOnly
                     else files[FirstWith(files, f.bytes)].readOnly)
  {
    hide Valid;
    hide DistinctPaths;
    hide FirstWith;
    hide Interned;
    hide Copied;
    hide Building;
    hide Locked;
    CreateIsSafe(s, id, files, Complete, skipped);
    CopiedIsBuilding(s, files);
    BuiltIsReadOnlyExactlyWhen(s, files, skipped, i);
  }

  lemma BuiltIsReadOnlyExactlyWhen(s: Store, files: seq<File>, skipped: set<nat>, i: nat)
    requires Valid(s) && DistinctPaths(files) && i < |files|
    requires Building(Copied(s, files).0, Copied(s, files).1, files)
    ensures var (t, tree) := Copied(s, files);
            var (u, built) := Interned(t, tree, files, |files|);
            var locked, f := Locked(u, built, skipped), files[i];
            && f.path in built && f.bytes in locked.objects && FirstWith(files, f.bytes) < |files|
            && built[f.path] == locked.objects[f.bytes]
            && built[f.path] in locked.nodes
            && (locked.nodes[built[f.path]].readOnly <==>
                  || built[f.path] !in skipped
                  || if f.bytes in s.objects then s.nodes[s.objects[f.bytes]].readOnly
                     else files[FirstWith(files, f.bytes)].readOnly)
  {
    hide Interned;
    hide Copied;
    hide Building;
    var (t, tree) := Copied(s, files);
    var (u, built) := Interned(t, tree, files, |files|);
    CopyingOnlyAdds(s, files);
    InterningOnlyAdds(t, tree, files, |files|);
    InterningLinksToObjects(t, tree, files, |files|, i);
    BuildingNamesItsObjects(u, built, files);
    assert built[files[i].path] in built.Values;
    if files[i].bytes !in s.objects {
      NewObjectIsTheFirstCopy(t, tree, files, |files|, files[i].bytes);
      CopiedHoldsTheFiles(s, files, FirstWith(files, files[i].bytes));
    }
  }

  lemma AddingASoundRevision(s: Store, id: string, r: Revision)
    requires Valid(s) && id !in s.revisions && SoundRevision(s, r)
    ensures var t := s.(revisions := s.revisions[id := r]);
            && Valid(t)
            && (forall other :: other in s.revisions ==> Contents(t, other) == Contents(s, other))
            && Contents(t, id).Keys == r.files.Keys
            && (forall p :: p in r.files ==> Contents(t, id)[p].bytes == r.manifest[p])
  {
    var t := s.(revisions := s.revisions[id := r]);
    forall other | other in t.revisions
      ensures SoundRevision(t, t.revisions[other])
    {
      assert SoundRevision(s, t.revisions[other]);
    }
  }

  lemma AddedRevisionKeepsBytes(s: Store, t: Store, id: string, r: Revision)
    requires Valid(s) && Valid(t) && t.revisions == s.revisions && id !in s.revisions && SoundRevision(t, r)
    requires forall other :: other in s.revisions ==> KeepsBytes(s, t, other)
    ensures var u := t.(revisions := t.revisions[id := r]);
            Valid(u) && forall other :: other in s.revisions ==> KeepsBytes(s, u, other)
  {
    AddingASoundRevision(t, id, r);
  }

  /** Discarding a revision keeps every other one's bytes, whatever its chmod skips, and every object; the
      others' modes stay exactly when the inodes they share with it were read-only, or were skipped. */
  lemma DiscardIsSafe(s: Store, id: string, skipped: set<nat>)
    requires Valid(s)
    ensures var t := Discard(s, id, skipped);
            && Valid(t) && t.objects == s.objects && t.revisions.Keys == s.revisions.Keys - {id}
            && (forall other :: other in t.revisions ==> KeepsBytes(s, t, other))
            && (id in s.revisions ==>
                  ((forall other :: other in t.revisions ==> Contents(t, other) == Contents(s, other))
                   <==> LocksOnlyLocked(s.(revisions := s.revisions - {id}), s.revisions[id].files.Values, skipped)))
  {
    hide LocksOnlyLocked;
    if id !in s.revisions {
      RevisionsKeepThemselves(s);
    } else {
      var left, t := s.(revisions := s.revisions - {id}), Discard(s, id, skipped);
      LeavingOneOut(s, id);
      AddingKeepsRevisions(left, t);
      ModesStayExactlyWhen(left, t, s.revisions[id].files.Values, skipped);
    }
  }

  lemma LeavingOneOut(s: Store, id: string)
    requires Valid(s)
    ensures var left := s.(revisions := s.revisions - {id});
            Valid(left) && forall other :: other in left.revisions ==> Contents(left, other) == Contents(s, other)
  {
    var left := s.(revisions := s.revisions - {id});
    forall other | other in left.revisions
      ensures SoundRevision(left, left.revisions[other])
    {
      assert SoundRevision(s, s.revisions[other]);
    }
  }

  // ---- every run ----

  datatype Op =
    | Making(id: string, files: seq<File>, stage: Stage, skipped: set<nat>)
    | Dropping(id: string, skipped: set<nat>)

  ghost predicate WellFormed(ops: seq<Op>)
  {
    forall i :: 0 <= i < |ops| && ops[i].Making? ==> DistinctPaths(ops[i].files)
  }

  const EMPTY := Store(map[], 0, map[], map[])

  ghost function Run(ops: seq<Op>): (s: Store)
    requires WellFormed(ops)
    ensures Valid(s)
  {
    if ops == [] then EMPTY
    else Step(Run(ops[..|ops| - 1]), ops[|ops| - 1])
  }

  ghost function Step(s: Store, op: Op): (t: Store)
    requires Valid(s) && (op.Making? ==> DistinctPaths(op.files))
    ensures Valid(t)
  {
    match op
    case Making(id, files, stage, skipped) =>
      CreateIsSafe(s, id, files, stage, skipped);
      Create(s, id, files, stage, skipped).0
    case Dropping(id, skipped) =>
      DiscardIsSafe(s, id, skipped);
      Discard(s, id, skipped)
  }

  lemma StepKeepsRevisions(s: Store, op: Op, id: string)
    requires Valid(s) && (op.Making? ==> DistinctPaths(op.files))
    requires id in s.revisions && !(op.Dropping? && op.id == id)
    ensures id in Step(s, op).revisions && KeepsBytes(s, Step(s, op), id)
  {
    hide Create;
    hide Discard;
    hide KeepsBytes;
    match op
    case Making(other, files, stage, skipped) => CreateIsSafe(s, other, files, stage, skipped);
    case Dropping(other, skipped) => DiscardIsSafe(s, other, skipped);
  }

  /** Over every run, whatever is created (or fails to be), discarded, or skipped by a chmod: a revision,
      once created, reads back the same paths and bytes until it is discarded itself, and a file of it
      that is read-only stays so. */
  lemma {:induction false} RevisionsAreImmutable(ops: seq<Op>, k: nat, id: string)
    requires WellFormed(ops) && k <= |ops| && id in Run(ops[..k]).revisions
    requires forall i :: k <= i < |ops| ==> !(ops[i].Dropping? && ops[i].id == id)
    ensures id in Run(ops).revisions && KeepsBytes(Run(ops[..k]), Run(ops), id)
    decreases |ops|
  {
    if k == |ops| {
      assert ops[..k] == ops;
      RevisionsKeepThemselves(Run(ops));
    } else {
      hide Step;
      var before := ops[..|ops| - 1];
      assert before[..k] == ops[..k];
      RevisionsAreImmutable(before, k, id);
      StepKeepsRevisions(Run(before), ops[|ops| - 1], id);
      KeepingIsTransitive(Run(ops[..k]), Run(before), Run(ops), id);
    }
  }

  lemma KeepingIsTransitive(s: Store, t: Store, u: Store, id: string)
    requires Valid(s) && Valid(t) && Valid(u) && id in s.revisions && id in t.revisions && id in u.revisions
    requires KeepsBytes(s, t, id) && KeepsBytes(t, u, id)
    ensures KeepsBytes(s, u, id)
  {}

  /** Over every run: each object's bytes are its name, each revision file is the inode of the object its
      manifest names. */
  lemma ReachableStoresAreValid(ops: seq<Op>)
    requires WellFormed(ops)
    ensures forall d :: d in Run(ops).objects ==> Run(ops).nodes[Run(ops).objects[d]].bytes == d
    ensures forall id, p :: id in Run(ops).revisions && p in Run(ops).revisions[id].files ==>
              Run(ops).revisions[id].files[p] == Run(ops).objects[Run(ops).revisions[id].manifest[p]]
  {
    var s := Run(ops);
    assert forall id :: id in s.revisions ==> SoundRevision(s, s.revisions[id]);
  }

  // ---- where no chmod is skipped ----

  /** An inode the tree links to is an object's or was copied just now; locking the tree locks the new objects. */
  lemma NewObjectsAreLocked(s: Store, files: seq<File>, k: nat)
    requires Valid(s) && DistinctPaths(files) && k <= |files| && ObjectsLocked(s)
    requires Building(Copied(s, files).0, Copied(s, files).1, files)
    ensures var (t, tree) := Copied(s, files);
            var (u, built) := Interned(t, tree, files, k);
            var locked := Locked(u, built, {});
            Valid(locked) && ObjectsLocked(locked)
  {
    hide Building;
    hide Interned;
    hide Copied;
    BuiltAndLocked(s, files, k, {});
    var (t, tree) := Copied(s, files);
    var (u, built) := Interned(t, tree, files, k);
    CopyingOnlyAdds(s, files);
    InterningOnlyAdds(t, tree, files, k);
    BuildingNamesItsObjects(u, built, files);
    var locked := Locked(u, built, {});
    forall d | d in locked.objects
      ensures locked.nodes[locked.objects[d]].readOnly
    {
      if d !in s.objects {
        var i :| 0 <= i < k && files[i].bytes == d;
        InterningLinksToObjects(t, tree, files, k, i);
        assert built[files[i].path] in built.Values;
      }
    }
  }

  lemma StepLocksObjects(s: Store, op: Op)
    requires Valid(s) && (op.Making? ==> DistinctPaths(op.files)) && ObjectsLocked(s) && op.skipped == {}
    ensures ObjectsLocked(Step(s, op))
  {
    hide Interned;
    hide Copied;
    hide Valid;
    match op
    case Making(id, files, stage, skipped) =>
      if id !in s.revisions {
        if stage.Copying? {
          CopyingOnlyAddsTo(s, if stage.done <= |files| then files[..stage.done] else files);
        } else {
          CopiedIsBuilding(s, files);
          NewObjectsAreLocked(s, files, InternedBy(files, stage));
          var (t, tree) := Copied(s, files);
          var (u, built) := Interned(t, tree, files, InternedBy(files, stage));
          var locked := Locked(u, built, {});
          assert Step(s, op).nodes == locked.nodes && Step(s, op).objects == locked.objects;
          assert ObjectsLocked(locked);
        }
      }
    case Dropping(id, skipped) => ObjectsAreNodes(s);
  }

  lemma ObjectsAreNodes(s: Store)
    requires Valid(s)
    ensures forall d :: d in s.objects ==> s.objects[d] in s.nodes
  {}

  lemma CopyingOnlyAddsTo(s: Store, files: seq<File>)
    requires Valid(s)
    ensures var t := Copied(s, files).0;
            && t.objects == s.objects
            && forall d :: d in s.objects ==> s.objects[d] in t.nodes && t.nodes[s.objects[d]] == s.nodes[s.objects[d]]
  {
    CopyingOnlyAdds(s, files);
  }

  /** Over every run in which no chmod is skipped, every object and so every revision file is read-only. */
  lemma {:induction false} UnskippedRunsLockEverything(ops: seq<Op>)
    requires WellFormed(ops) && forall i :: 0 <= i < |ops| ==> ops[i].skipped == {}
    ensures ObjectsLocked(Run(ops))
    ensures forall id, p :: id in Run(ops).revisions && p in Contents(Run(ops), id) ==>
            Contents(Run(ops), id)[p].readOnly
    decreases |ops|
  {
    if ops == [] {
    } else {
      hide Step;
      UnskippedRunsLockEverything(ops[..|ops| - 1]);
      StepLocksObjects(Run(ops[..|ops| - 1]), ops[|ops| - 1]);
      LockedObjectsLockTheirRevisions(Run(ops));
    }
  }

  lemma LockedObjectsLockTheirRevisions(s: Store)
    requires Valid(s) && ObjectsLocked(s)
    ensures forall id, p :: id in s.revisions && p in Contents(s, id) ==> Contents(s, id)[p].readOnly
  {
    assert forall id :: id in s.revisions ==> SoundRevision(s, s.revisions[id]);
  }

  // One revision of one file: its inode, its bytes and whether it is read-only.
  function OneFile(n: nat): (r: Revision) { Revision(map["f" := n], map["f" := [7]]) }

  const FILES := [File("f", [7], false)]

  /** A skipped chmod is caught up with later, in a revision already made: the first creation leaves the
      file writable, and the second, of the same bytes, makes it read-only in the first. */
  lemma ASkippedChmodShowsLater()
    ensures var first, second := Making("r", FILES, Complete, {0}), Making("s", FILES, Complete, {});
            && WellFormed([first]) && WellFormed([first, second])
            && "r" in Run([first]).revisions && Contents(Run([first]), "r") == map["f" := Node([7], false)]
            && "r" in Run([first, second]).revisions &&
                Contents(Run([first, second]), "r") == map["f" := Node([7], true)]
  {
    hide Create;
    var first, second := Making("r", FILES, Complete, {0}), Making("s", FILES, Complete, {});
    assert [first][..0] == [] && [first, second][..1] == [first];
    FreshFile();
    var s := Run([first]);
    assert s == Step(Run([]), first) &&
        s == Store(map[0 := Node([7], false)], 1, map[[7] := 0], map["r" := OneFile(0)]);
    SharedFile();
    assert Run([first, second]) == Step(s, second);
  }

  lemma FreshFile()
    ensures Create(EMPTY, "r", FILES, Complete, {0}).0
            == Store(map[0 := Node([7], false)], 1, map[[7] := 0], map["r" := OneFile(0)])
  {
    assert FILES[..0] == [];
    CopiedIsBuilding(EMPTY, FILES);
    var (t, tree) := Copied(EMPTY, FILES);
    assert tree == map["f" := 0] && t == Store(map[0 := Node([7], false)], 1, map[], map[]);
    assert Interned(t, tree, FILES, 0) == (t, tree);
    var (u, built) := Interned(t, tree, FILES, 1);
    assert (u, built) == (t.(objects := map[[7] := 0]), tree);
    assert Locked(u, built, {0}).nodes == u.nodes;
    assert ManifestOf(FILES) == map["f" := [7]];
  }

  lemma SharedFile()
    ensures var s := Store(map[0 := Node([7], false)], 1, map[[7] := 0], map["r" := OneFile(0)]);
            && Valid(s)
            && 0 in Create(s, "s", FILES, Complete, {}).0.nodes
            && Create(s, "s", FILES, Complete, {}).0.nodes[0] == Node([7], true)
            && "r" in Create(s, "s", FILES, Complete, {}).0.revisions
            && Create(s, "s", FILES, Complete, {}).0.revisions["r"] == OneFile(0)
  {
    var s := Store(map[0 := Node([7], false)], 1, map[[7] := 0], map["r" := OneFile(0)]);
    assert Valid(s);
    hide Valid;
    hide Building;
    hide Interned;
    hide Copied;
    hide Locked;
    CopiedIsBuilding(s, FILES);
    var (t, tree) := Copied(s, FILES);
    SharedFileIsCopied(s);
    SharedFileIsLinked(t, tree);
    SharedFileIsLocked(t);
  }

  lemma SharedFileIsCopied(s: Store)
    requires s.next == 1
    ensures Copied(s, FILES) == (s.(nodes := s.nodes[1 := Node([7], false)], next := 2), map["f" := 1])
  {
    assert FILES[..0] == [];
    assert Copied(s, FILES[..0]) == (s, map[]) && FILES[0] == File("f", [7], false) && |FILES| == 1;
    assert Copied(s, FILES).1 == map["f" := 1];
  }

  lemma SharedFileIsLinked(t: Store, tree: Tree)
    requires Building(t, tree, FILES) && tree == map["f" := 1]
    requires t.objects == map[[7] := 0] && 1 in t.nodes && t.nodes[1].bytes == [7]
    ensures Interned(t, tree, FILES, 1) == (t, map["f" := 0])
  {
    hide Building;
    assert Interned(t, tree, FILES, 0) == (t, tree);
    assert t.nodes[tree["f"]].bytes == [7] && t.objects[[7]] == 0 && tree["f" := 0] == map["f" := 0];
    assert InternOne(t, tree, "f") == (t, map["f" := 0]);
  }

  lemma SharedFileIsLocked(t: Store)
    requires 0 in t.nodes && t.nodes[0] == Node([7], false)
    ensures 0 in Locked(t, map["f" := 0], {}).nodes && Locked(t, map["f" := 0], {}).nodes[0] == Node([7], true)
    ensures Locked(t, map["f" := 0], {}).revisions == t.revisions
  {
    assert map["f" := 0]["f"] in map["f" := 0].Values;
  }

  // ---- the object ----

  class FilesystemArtifactStore {
    var nodes: map<nat, Node>
    var next: nat
    var objects: map<Bytes, nat>
    var revisions: map<string, Revision>

    function View(): (s: Store)
      reads this
    {
      Store(nodes, next, objects, revisions)
    }

    constructor ()
      ensures View() == EMPTY && Valid(View())
    {
      nodes, next, objects, revisions := map[], 0, map[], map[];
    }

    method CreateRevision(id: string, files: seq<File>, stage: Stage, skipped: set<nat>) returns (result: Result)
      requires Valid(View()) && DistinctPaths(files)
      modifies this
      ensures (View(), result) == Create(old(View()), id, files, stage, skipped)
      ensures Valid(View())
    {
      CreateIsSafe(View(), id, files, stage, skipped);
      CopiedIsBuilding(View(), files);
      if id in revisions {
        return AlreadyExists;
      }
      var copies := if stage.Copying? && stage.done <= |files| then stage.done else |files|;
      var tree := Copy(files[..copies]);
      assert files[..|files|] == files;
      if stage.Copying? {
        Lock(tree, skipped);
        return Failed;
      }
      var linked := InternedBy(files, stage);
      var built := Intern(tree, files, linked);
      Lock(built, skipped);
      if stage.Interning? {
        return Failed;
      }
      revisions := revisions[id := Revision(built, ManifestOf(files))];
      return Created;
    }

    method Copy(files: seq<File>) returns (tree: Tree)
      modifies this`nodes, this`next
      ensures (View(), tree) == Copied(old(View()), files)
    {
      tree := map[];
      for i := 0 to |files|
        invariant (View(), tree) == Copied(old(View()), files[..i])
      {
        nodes := nodes[next := Node(files[i].bytes, files[i].readOnly)];
        tree := tree[files[i].path := next];
        next := next + 1;
        assert files[..i + 1][..i] == files[..i];
      }
      assert files[..|files|] == files;
    }

    method Intern(tree: Tree, files: seq<File>, k: nat) returns (built: Tree)
      requires k <= |files| && Building(View(), tree, files)
      modifies this`objects
      ensures (View(), built) == Interned(old(View()), tree, files, k)
    {
      built := tree;
      for i := 0 to k
        invariant (View(), built) == Interned(old(View()), tree, files, i)
      {
        InternStep(View(), built, files, i);
        var path := files[i].path;
        var digest := nodes[built[path]].bytes;
        if digest in objects {
          built := built[path := objects[digest]];
        } else {
          objects := objects[digest := built[path]];
        }
      }
    }

    method Lock(tree: Tree, skipped: set<nat>)
      modifies this`nodes
      ensures View() == Locked(old(View()), tree, skipped)
    {
      nodes := map n | n in nodes ::
                 if n in tree.Values && n !in skipped then nodes[n].(readOnly := true) else nodes[n];
    }

    method DiscardRevision(id: string, skipped: set<nat>)
      requires Valid(View())
      modifies this
      ensures View() == Discard(old(View()), id, skipped) && Valid(View())
    {
      hide KeepsBytes;
      hide LocksOnlyLocked;
      hide Contents;
      hide Valid;
      DiscardIsSafe(View(), id, skipped);
      if id in revisions {
        Lock(revisions[id].files, skipped);
        revisions := revisions - {id};
      }
    }
  }
}
