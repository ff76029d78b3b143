/**
 * Verified restore of a published workspace, and the round trip with its publication
 * (shared/stage_workspace.py).
 */
module WorkspaceRestore {
  import opened ArtifactOverlay
  import opened OverlayGrowth
  import opened WorkspaceTransfer
  import opened Directories
  import Ordering
  import Sequences
  import opened Results

  /** A file of the destination tree; the stamp stands for the stat fields of its fingerprint. */
  datatype Node = Node(content: Bytes, stamp: int, symlink: bool)

  datatype CacheEntry = CacheEntry(checksum: Hash, size: nat, stamp: int)

  datatype Selection = Selection(roles: set<string>, paths: set<Path>)

  datatype RestoreError =
    | OverlayFailed(cause: LoadError) | SelectionMissing | SelectionEmpty | ExactSelection
    | MissingBlob | CorruptBlob | NotADirectory | IsADirectory

  /** The files of the destination; directories are kept beside it. */
  type Tree = map<Path, Node>

  ghost predicate Fits(tree: Tree, dirs: set<Path>, inventory: Files) {
    PrefixFree(inventory.Keys) && forall p | p in inventory :: Placeable(tree.Keys, dirs, p)
  }

  /** A cached fingerprint that still matches the file vouches for the file's content. */
  ghost predicate HonestCache(t: Tenant, cache: map<Path, CacheEntry>, tree: Tree) {
    forall p | p in cache && p in tree && cache[p].stamp == tree[p].stamp && cache[p].size == |tree[p].content| ::
      t.digest(tree[p].content) == cache[p].checksum
  }

  predicate Included(selection: Option<Selection>, e: File) {
    selection.None? || e.role in selection.value.roles || e.path in selection.value.paths
  }

  function Selected(selection: Option<Selection>, f: Files): Files {
    map p | p in f && Included(selection, f[p]) :: f[p]
  }

  /** The file at e's path holds exactly the bytes e names. */
  predicate Holds(t: Tenant, tree: Tree, e: File) {
    e.path in tree && |tree[e.path].content| == e.blob.size && t.digest(tree[e.path].content) == e.blob.checksum
  }

  function Prune(tree: Tree, managed: set<Path>): Tree {
    map p | p in tree && p in managed && !tree[p].symlink :: tree[p]
  }

  ghost predicate Restored(t: Tenant, before: Tree, after: Tree, inventory: Files) {
    && (forall p | p in inventory :: Holds(t, after, inventory[p]))
    && (forall p | p !in inventory :: Untouched(before, after, p))
  }

  predicate Untouched(before: Tree, after: Tree, p: Path) {
    (p in after <==> p in before) && (p in after ==> after[p] == before[p])
  }

  /** No path ever shows an unverified or partial file. */
  ghost predicate NeverPartial(t: Tenant, before: Tree, after: Tree, inventory: Files) {
    forall p :: (p in inventory && Holds(t, after, inventory[p])) || Untouched(before, after, p)
  }

  predicate Obtainable(t: Tenant, blobs: map<Key, Bytes>, before: Tree, e: File) {
    Holds(t, before, e) || Stored(t, blobs, e)
  }

  /** The loop over the inventory when `rest` is still to be done. */
  ghost predicate Progress(t: Tenant, blobs: map<Key, Bytes>, before: Tree, after: Tree, inventory: Files, rest: set<Path>) {
    && Keyed(inventory)
    && (forall p | p in inventory && p !in rest ::
          Holds(t, after, inventory[p]) && Obtainable(t, blobs, before, inventory[p]))
    && (forall p | p in rest || p !in inventory :: Untouched(before, after, p))
  }

  lemma ProgressStart(t: Tenant, blobs: map<Key, Bytes>, tree: Tree, inventory: Files)
    requires Keyed(inventory)
    ensures Progress(t, blobs, tree, tree, inventory, inventory.Keys)
  {
  }

  lemma KeyedAt(inventory: Files, p: Path)
    requires Keyed(inventory) && p in inventory
    ensures inventory[p].path == p
  {
  }

  lemma ProgressStep(t: Tenant, blobs: map<Key, Bytes>, before: Tree, now: Tree, after: Tree, inventory: Files,
                     rest: set<Path>, p: Path)
    requires Progress(t, blobs, before, now, inventory, rest) && rest <= inventory.Keys && p in rest
    requires forall q | q != p :: Untouched(now, after, q)
    requires Holds(t, after, inventory[p]) && Obtainable(t, blobs, now, inventory[p])
    ensures Progress(t, blobs, before, after, inventory, rest - {p})
  {
    assert Untouched(before, now, p) && inventory[p].path == p;
    forall q | q in inventory && q !in rest - {p}
      ensures Holds(t, after, inventory[q]) && Obtainable(t, blobs, before, inventory[q])
    {
      if q != p {
        assert Untouched(now, after, q) && inventory[q].path == q;
      }
    }
    forall q | q in rest - {p} || q !in inventory ensures Untouched(before, after, q) {
      assert Untouched(before, now, q) && Untouched(now, after, q);
    }
  }

  lemma ProgressStuck(t: Tenant, blobs: map<Key, Bytes>, before: Tree, now: Tree, inventory: Files,
                      rest: set<Path>, p: Path)
    requires Progress(t, blobs, before, now, inventory, rest) && rest <= inventory.Keys && p in rest
    requires !Obtainable(t, blobs, now, inventory[p])
    ensures !Obtainable(t, blobs, before, inventory[p])
  {
    assert Untouched(before, now, p) && inventory[p].path == p;
  }

  lemma ProgressHolds(t: Tenant, blobs: map<Key, Bytes>, before: Tree, now: Tree, inventory: Files, rest: set<Path>)
    requires Progress(t, blobs, before, now, inventory, rest)
    ensures NeverPartial(t, before, now, inventory)
  {
    hide Holds, Untouched, Obtainable;
    forall q ensures (q in inventory && Holds(t, now, inventory[q])) || Untouched(before, now, q) {
    }
  }

  lemma ProgressDone(t: Tenant, blobs: map<Key, Bytes>, before: Tree, now: Tree, inventory: Files)
    requires Progress(t, blobs, before, now, inventory, {})
    ensures Restored(t, before, now, inventory) && NeverPartial(t, before, now, inventory)
    ensures forall p | p in inventory :: Obtainable(t, blobs, before, inventory[p])
  {
  }

  /** The directories while `rest` is still to be done: those there were, and those on the way to a finished file. */
  ghost predicate DirsProgress(before: Tree, dirs0: set<Path>, dirs: set<Path>, inventory: Files, rest: set<Path>) {
    && dirs == dirs0 + AllDirs(inventory.Keys - rest)
    && PrefixFree(inventory.Keys - rest)
    && forall p | p in inventory && p !in rest :: Placeable(before.Keys, dirs0, p)
  }

  lemma DirsStart(before: Tree, dirs0: set<Path>, inventory: Files)
    ensures DirsProgress(before, dirs0, dirs0, inventory, inventory.Keys)
  {
    assert inventory.Keys - inventory.Keys == {};
  }

  lemma DirsStep(t: Tenant, blobs: map<Key, Bytes>, before: Tree, now: Tree, dirs0: set<Path>, dirs: set<Path>,
                 inventory: Files, rest: set<Path>, p: Path)
    requires Progress(t, blobs, before, now, inventory, rest) && DirsProgress(before, dirs0, dirs, inventory, rest)
    requires rest <= inventory.Keys && p in rest && Placeable(now.Keys, dirs, p)
    ensures DirsProgress(before, dirs0, dirs + DirsOf(p), inventory, rest - {p})
  {
    hide Holds, Obtainable, Progress, DirsOf, PrefixFree, AllDirs;
    var done := inventory.Keys - rest;
    assert inventory.Keys - (rest - {p}) == done + {p};
    AllDirsMore(done, p);
    DoneFiles(t, blobs, before, now, inventory, rest);
    assert forall d | d in DirsOf(p) && d in before :: d in now;
    ApartFrom(done, dirs0, dirs, p);
  }

  /** A path with no directory at it and no finished file on its way is apart from all finished ones. */
  lemma ApartFrom(done: set<Path>, dirs0: set<Path>, dirs: set<Path>, p: Path)
    requires PrefixFree(done) && dirs == dirs0 + AllDirs(done) && p !in dirs && DirsOf(p) !! done
    ensures PrefixFree(done + {p}) && p !in dirs0
  {
    DirsShorter(p);
    hide DirsOf;
  }

  /** Nothing disappears, and what is finished is a file. */
  lemma DoneFiles(t: Tenant, blobs: map<Key, Bytes>, before: Tree, now: Tree, inventory: Files, rest: set<Path>)
    requires Progress(t, blobs, before, now, inventory, rest)
    ensures forall q | q in inventory && q !in rest :: q in now
    ensures forall q | q in before :: q in now
    ensures forall q | q in now :: q in before || (q in inventory && q !in rest)
  {
    forall q | q in inventory && q !in rest ensures q in now {
      assert Holds(t, now, inventory[q]) && inventory[q].path == q;
    }
    forall q | q !in inventory || q in rest ensures q in now <==> q in before {
      assert Untouched(before, now, q);
    }
  }

  lemma DirsStuck(t: Tenant, blobs: map<Key, Bytes>, before: Tree, now: Tree, dirs0: set<Path>, dirs: set<Path>,
                  inventory: Files, rest: set<Path>, p: Path)
    requires Progress(t, blobs, before, now, inventory, rest) && DirsProgress(before, dirs0, dirs, inventory, rest)
    requires rest <= inventory.Keys && p in rest && !Placeable(now.Keys, dirs, p)
    ensures !Fits(before, dirs0, inventory)
  {
    DoneFiles(t, blobs, before, now, inventory, rest);
    hide Holds, Obtainable, Progress, DirsOf;
    if Placeable(before.Keys, dirs0, p) {
      if p in dirs {
        var q :| q in inventory.Keys - rest && p in DirsOf(q);
      } else {
        var d :| d in DirsOf(p) && d in now;
        assert d in inventory;
      }
    }
  }

  lemma DirsBounded(before: Tree, dirs0: set<Path>, dirs: set<Path>, inventory: Files, rest: set<Path>, p: Path)
    requires DirsProgress(before, dirs0, dirs, inventory, rest) && p in inventory
    ensures dirs0 <= dirs && dirs + DirsOf(p) <= dirs0 + AllDirs(inventory.Keys)
  {
    hide DirsOf;
  }

  lemma DirsDone(before: Tree, dirs0: set<Path>, dirs: set<Path>, inventory: Files)
    requires DirsProgress(before, dirs0, dirs, inventory, {})
    ensures dirs == dirs0 + AllDirs(inventory.Keys) && Fits(before, dirs0, inventory)
  {
    hide DirsOf;
    assert inventory.Keys - {} == inventory.Keys;
  }

  class Destination {
    var tree: Tree
    var dirs: set<Path>
    var cache: map<Path, CacheEntry>

    /** Removes everything outside an authoritative inventory, symbolic links and emptied directories included. */
    method PruneUnmanaged(managed: set<Path>) returns (prunedFiles: nat)
      requires Rooted(tree.Keys, dirs)
      modifies this`tree, this`dirs
      ensures tree == Prune(old(tree), managed)
      ensures dirs == AllDirs(tree.Keys) && Rooted(tree.Keys, dirs)
      ensures prunedFiles == |old(tree)| - |tree|
    {
      prunedFiles := 0;
      var rest := tree.Keys;
      while rest != {}
        invariant rest <= tree.Keys <= old(tree).Keys
        invariant forall p | p in old(tree) ::
                    p in tree <==> p in rest || (p in managed && !old(tree)[p].symlink)
        invariant forall p | p in tree :: tree[p] == old(tree)[p]
        invariant prunedFiles == |old(tree).Keys| - |tree.Keys|
        invariant dirs == old(dirs)
        decreases |rest|
      {
        var p :| p in rest;
        rest := rest - {p};
        if !(p in managed && !tree[p].symlink) {
          var keys := tree.Keys;
          tree := tree - {p};
          assert tree.Keys == keys - {p};
          prunedFiles := prunedFiles + 1;
        }
      }
      assert tree == Prune(old(tree), managed);
      RemoveEmptyDirectories();
      AllDirsClosed(tree.Keys);
    }

    /** Bottom-up, a directory is removed when nothing is left in it. */
    method RemoveEmptyDirectories()
      requires AllDirs(tree.Keys) <= dirs
      modifies this`dirs
      ensures dirs == AllDirs(tree.Keys)
    {
      hide DirsOf;
      var rest := dirs;
      while rest != {}
        invariant rest <= dirs && AllDirs(tree.Keys) <= dirs
        invariant forall d | d in dirs && d !in rest :: d in AllDirs(tree.Keys)
        decreases |rest|
      {
        ghost var longest := Longest(rest);
        var d :| d in rest && forall q | q in rest :: |q| <= |d|;
        rest := rest - {d};
        if exists p | p in tree.Keys + dirs :: d in DirsOf(p) {
          Inside(tree.Keys, dirs, rest, d);
        } else {
          dirs := dirs - {d};
        }
      }
    }

    /** One file of the inventory: trusted from the cache, verified in place, or downloaded and verified. */
    method RestoreFile(t: Tenant, blobs: map<Key, Bytes>, e: File, remember: bool, freshStamp: int)
      returns (r: Result<bool, RestoreError>)
      requires HonestCache(t, cache, tree) && (!remember ==> cache == map[]) && Rooted(tree.Keys, dirs)
      modifies this
      ensures HonestCache(t, cache, tree) && (!remember ==> cache == map[]) && Rooted(tree.Keys, dirs)
      ensures forall p | p != e.path :: Untouched(old(tree), tree, p)
      ensures r.Ok? ==> Holds(t, tree, e) && dirs == old(dirs) + DirsOf(e.path)
      ensures r.Err? ==> tree == old(tree) && old(dirs) <= dirs <= old(dirs) + DirsOf(e.path)
      ensures r.Ok? <==> Placeable(old(tree).Keys, old(dirs), e.path) && Obtainable(t, blobs, old(tree), e)
    {
      hide DirsOf, Rooted;
      var path := e.path;
      RootedMore(tree.Keys, dirs, path);
      FilesAreNotDirs(tree.Keys, dirs);
      if exists d | d in DirsOf(path) :: d in tree {
        return Err(NotADirectory);
      }
      dirs := dirs + DirsOf(path);
      if path in tree && |tree[path].content| == e.blob.size {
        if path in cache && cache[path] == CacheEntry(e.blob.checksum, e.blob.size, tree[path].stamp) {
          return Ok(true);
        }
        if t.digest(tree[path].content) == e.blob.checksum {
          if remember {
            cache := cache[path := CacheEntry(e.blob.checksum, e.blob.size, tree[path].stamp)];
          }
          return Ok(true);
        }
      }
      if e.blob.key !in blobs {
        return Err(MissingBlob);
      }
      var content := blobs[e.blob.key];
      if |content| != e.blob.size || t.digest(content) != e.blob.checksum {
        return Err(CorruptBlob);
      }
      if path in dirs {
        return Err(IsADirectory);
      }
      assert tree.Keys + {path} == tree[path := Node(content, freshStamp, false)].Keys;
      tree := tree[path := Node(content, freshStamp, false)];
      if remember {
        cache := cache[path := CacheEntry(e.blob.checksum, e.blob.size, freshStamp)];
      }
      return Ok(false);
    }

    /** Every selected file in turn; the first failure leaves each path either as it was or verified. */
    method RestoreFiles(t: Tenant, blobs: map<Key, Bytes>, inventory: Files, remember: bool, stamps: Path -> int)
      returns (r: Result<(), RestoreError>)
      requires Keyed(inventory) && HonestCache(t, cache, tree) && (!remember ==> cache == map[]) && Rooted(tree.Keys, dirs)
      modifies this
      ensures HonestCache(t, cache, tree) && Rooted(tree.Keys, dirs)
      ensures r.Ok? ==> Restored(t, old(tree), tree, inventory) && dirs == old(dirs) + AllDirs(inventory.Keys)
      ensures NeverPartial(t, old(tree), tree, inventory) && old(dirs) <= dirs <= old(dirs) + AllDirs(inventory.Keys)
      ensures r.Ok? <==> Fits(old(tree), old(dirs), inventory)
                         && forall p | p in inventory :: Obtainable(t, blobs, old(tree), inventory[p])
    {
      hide HonestCache, Stored, Holds, Progress, NeverPartial, Restored, Keyed, Rooted, DirsProgress, Placeable, DirsOf,
           Fits, Obtainable, AllDirs;
      var rest := inventory.Keys;
      ProgressStart(t, blobs, tree, inventory);
      DirsStart(tree, dirs, inventory);
      while rest != {}
        invariant rest <= inventory.Keys
        invariant HonestCache(t, cache, tree) && (!remember ==> cache == map[]) && Rooted(tree.Keys, dirs)
        invariant Progress(t, blobs, old(tree), tree, inventory, rest)
        invariant DirsProgress(old(tree), old(dirs), dirs, inventory, rest)
        decreases |rest|
      {
        var p :| p in rest;
        ghost var before, dirsBefore := tree, dirs;
        KeyedAt(inventory, p);
        var done := RestoreFile(t, blobs, inventory[p], remember, stamps(p));
        if done.Err? {
          ProgressHolds(t, blobs, old(tree), tree, inventory, rest);
          DirsBounded(old(tree), old(dirs), dirsBefore, inventory, rest, p);
          if Placeable(before.Keys, dirsBefore, p) {
            ProgressStuck(t, blobs, old(tree), tree, inventory, rest, p);
          } else {
            DirsStuck(t, blobs, old(tree), before, old(dirs), dirsBefore, inventory, rest, p);
          }
          return Err(done.error);
        }
        DirsStep(t, blobs, old(tree), before, old(dirs), dirsBefore, inventory, rest, p);
        ProgressStep(t, blobs, old(tree), before, tree, inventory, rest, p);
        rest := rest - {p};
      }
      ProgressDone(t, blobs, old(tree), tree, inventory);
      DirsDone(old(tree), old(dirs), dirs, inventory);
      return Ok(());
    }

    /**
     * Restore of one manifest. It succeeds exactly when the overlay resolves, the selection is
     * legal, and every selected file is already right or its blob verifies.
     */
    method RestoreWorkspace(store: ObjectStore, t: Tenant, key: Key, checksum: Hash, selection: Option<Selection>,
                            exactInventory: bool, remember: bool, stamps: Path -> int)
      returns (r: Result<Files, RestoreError>)
      requires HonestCache(t, cache, tree) && (!remember ==> cache == map[]) && Rooted(tree.Keys, dirs)
      modifies this
      ensures HonestCache(t, cache, tree) && Rooted(tree.Keys, dirs)
      ensures r.Ok? ==> exists f :: Represents(store.Env(t), Id(key, checksum), f) && r.value == Selected(selection, f)
      ensures r.Ok? ==> Restored(t, Start(old(tree), r.value, exactInventory), tree, r.value)
                        && dirs == StartDirs(old(tree), old(dirs), r.value, exactInventory) + AllDirs(r.value.Keys)
      ensures r.Ok? <==> Sound(store.Env(t), Id(key, checksum))
                         && forall f | Represents(store.Env(t), Id(key, checksum), f) ::
                              Restorable(t, store.blobs, old(tree), old(dirs), f, selection, exactInventory)
      ensures r.Err? ==>
                tree == old(tree)
                || exists inventory :: NeverPartial(t, Start(old(tree), inventory, exactInventory), tree, inventory)
    {
      hide Sound, Represents, HonestCache, Restored, NeverPartial, Holds, Stored, Rooted, Fits, AllDirs;
      var loaded, _ := LoadManifestOverlay(store.Env(t), key, checksum);
      if loaded.Err? {
        return Err(OverlayFailed(loaded.error));
      }
      var files := loaded.value;
      forall f | Represents(store.Env(t), Id(key, checksum), f) ensures f == files {
        RepresentsUnique(store.Env(t), Id(key, checksum), f, files);
      }
      RepresentsKeyed(store.Env(t), Id(key, checksum), files);
      var selected := Selected(selection, files);
      if selection.Some? {
        if !(selection.value.paths <= files.Keys) {
          return Err(SelectionMissing);
        }
        if selected == map[] {
          return Err(SelectionEmpty);
        }
        if exactInventory {
          return Err(ExactSelection);
        }
      }
      assert Keyed(selected);
      if exactInventory {
        HonestPrune(t, cache, tree, selected.Keys);
        var _ := PruneUnmanaged(selected.Keys);
      }
      assert tree == Start(old(tree), selected, exactInventory);
      assert dirs == StartDirs(old(tree), old(dirs), selected, exactInventory);
      var done := RestoreFiles(t, store.blobs, selected, remember, stamps);
      if done.Err? {
        return Err(done.error);
      }
      return Ok(selected);
    }
  }

  /** The tree after pruning, before any file is restored. */
  function Start(tree: Tree, inventory: Files, exactInventory: bool): Tree {
    if exactInventory then Prune(tree, inventory.Keys) else tree
  }

  function StartDirs(tree: Tree, dirs: set<Path>, inventory: Files, exactInventory: bool): set<Path> {
    if exactInventory then AllDirs(Start(tree, inventory, true).Keys) else dirs
  }

  ghost predicate Restorable(t: Tenant, blobs: map<Key, Bytes>, tree: Tree, dirs: set<Path>, f: Files,
                             selection: Option<Selection>, exactInventory: bool)
  {
    var selected := Selected(selection, f);
    && (selection.Some? ==> selection.value.paths <= f.Keys && selected != map[] && !exactInventory)
    && Fits(Start(tree, selected, exactInventory), StartDirs(tree, dirs, selected, exactInventory), selected)
    && forall p | p in selected ::
         Obtainable(t, blobs, Start(tree, selected, exactInventory), selected[p])
  }

  lemma HonestPrune(t: Tenant, cache: map<Path, CacheEntry>, tree: Tree, managed: set<Path>)
    requires HonestCache(t, cache, tree)
    ensures HonestCache(t, cache, Prune(tree, managed))
  {
  }

  lemma RepresentsKeyed(env: Env, id: Id, f: Files)
    requires Represents(env, id, f)
    ensures Keyed(f)
  {
    hide Sees;
  }

  /** After an exact prune nothing but the inventory itself stands in the way of its files. */
  lemma ExactFits(tree: Tree, dirs: set<Path>, inventory: Files)
    requires Rooted(tree.Keys, dirs)
    ensures Fits(Start(tree, inventory, true), StartDirs(tree, dirs, inventory, true), inventory)
            <==> PrefixFree(inventory.Keys)
  {
  }

  // ----- The round trip -----

  /** Paths declared unchanged really carry their parent's content. */
  ghost predicate HonestUnchanged(t: Tenant, request: Request, inherited: Files, files: seq<LocalFile>) {
    forall f | f in files && f.path in request.unchangedPaths && f.path in inherited ::
      t.digest(f.content) == inherited[f.path].blob.checksum
  }

  lemma {:induction false} EntriesMembers(t: Tenant, request: Request, inherited: Files, files: seq<LocalFile>, e: File)
    ensures e in NewEntries(t, request, inherited, files)
            <==> exists f :: f in files && EntryFor(t, request, inherited, f) == Ok(Some(e))
  {
    hide EntryFor;
    if files != [] {
      var n := |files| - 1;
      EntriesMembers(t, request, inherited, files[..n], e);
      if exists f :: f in files && EntryFor(t, request, inherited, f) == Ok(Some(e)) {
        var f :| f in files && EntryFor(t, request, inherited, f) == Ok(Some(e));
        assert f == files[n] || f in files[..n];
      }
      if exists f :: f in files[..n] && EntryFor(t, request, inherited, f) == Ok(Some(e)) {
        var f :| f in files[..n] && EntryFor(t, request, inherited, f) == Ok(Some(e));
        assert f in files;
      }
      assert EntryFor(t, request, inherited, files[n]) == Ok(Some(e)) ==> files[n] in files;
    }
  }

  lemma PublishedMembers(t: Tenant, request: Request, inherited: Files, files: seq<LocalFile>, e: File)
    ensures e in Published(t, request, inherited, files).files
            <==> exists f :: f in files && EntryFor(t, request, inherited, f) == Ok(Some(e))
  {
    hide EntryFor, NewEntries, Ordering.Sort, FileLeq;
    EntriesMembers(t, request, inherited, files, e);
    var entries := NewEntries(t, request, inherited, files);
    assert e in Ordering.Sort(FileLeq, entries) <==> e in multiset(entries);
  }

  /** The overlay that the new manifest shows. */
  function Shown(t: Tenant, request: Request, inherited: Files, files: seq<LocalFile>): Files {
    inherited + OwnFiles(Published(t, request, inherited, files).files)
  }

  lemma EntryPath(t: Tenant, request: Request, inherited: Files, f: LocalFile, e: File)
    requires EntryFor(t, request, inherited, f) == Ok(Some(e))
    ensures e.path == f.path
  {
  }

  lemma ShownAt(t: Tenant, request: Request, inherited: Files, files: seq<LocalFile>, f: LocalFile)
    requires DistinctPaths(files) && Publishable(t, request, inherited, files) && f in files
    ensures var entry, shown := EntryFor(t, request, inherited, f), Shown(t, request, inherited, files);
            && entry.Ok?
            && f.path in shown
            && shown[f.path] == (if entry.value.Some? then entry.value.value else inherited[f.path])
            && (entry.value.None? ==> f.path in inherited)
  {
    var m, entry := Published(t, request, inherited, files), EntryFor(t, request, inherited, f);
    assert Acceptable(t, request, inherited, f);
    assert entry.value.None? ==> f.path in inherited;
    OwnFilesKeyed(m.files);
    hide EntryFor, Published, OwnFiles, Publishable;
    forall e | e in m.files && e.path == f.path ensures entry == Ok(Some(e)) {
      PublishedMembers(t, request, inherited, files, e);
      var g :| g in files && EntryFor(t, request, inherited, g) == Ok(Some(e));
      EntryPath(t, request, inherited, g, e);
      assert g == f;
    }
    if entry.value.Some? {
      PublishedMembers(t, request, inherited, files, entry.value.value);
      EntryPath(t, request, inherited, f, entry.value.value);
    }
  }

  /** Every local file is shown with its own size and digest, inherited or not. */
  lemma ShownContent(t: Tenant, request: Request, inherited: Files, files: seq<LocalFile>, f: LocalFile)
    requires DistinctPaths(files) && Publishable(t, request, inherited, files) && f in files
    requires HonestUnchanged(t, request, inherited, files)
    ensures var shown := Shown(t, request, inherited, files);
            f.path in shown && shown[f.path].blob.size == |f.content| && shown[f.path].blob.checksum == t.digest(f.content)
  {
    hide Shown, Publishable;
    ShownAt(t, request, inherited, files, f);
  }

  lemma ShownPaths(t: Tenant, request: Request, inherited: Files, files: seq<LocalFile>)
    requires DistinctPaths(files) && Publishable(t, request, inherited, files)
    ensures Shown(t, request, inherited, files).Keys == inherited.Keys + LocalPaths(files)
  {
    var m, shown := Published(t, request, inherited, files), Shown(t, request, inherited, files);
    OwnFilesKeyed(m.files);
    hide EntryFor, Published, OwnFiles, Publishable;
    forall p | p in shown && p !in inherited ensures p in LocalPaths(files) {
      var e :| e in m.files && e.path == p;
      PublishedMembers(t, request, inherited, files, e);
      var f :| f in files && EntryFor(t, request, inherited, f) == Ok(Some(e));
      EntryPath(t, request, inherited, f, e);
    }
    forall f | f in files ensures f.path in shown {
      ShownAt(t, request, inherited, files, f);
    }
  }

  lemma ShownStored(t: Tenant, blobs: map<Key, Bytes>, request: Request, inherited: Files, files: seq<LocalFile>)
    requires Keyed(inherited) && forall e | Has(inherited, e) :: Stored(t, blobs, e)
    requires AllAcceptable(t, request, inherited, files) && Uploaded(t, blobs, request, inherited, files)
    ensures forall p | p in Shown(t, request, inherited, files) ::
              Stored(t, blobs, Shown(t, request, inherited, files)[p])
  {
    var m, shown := Published(t, request, inherited, files), Shown(t, request, inherited, files);
    OwnFilesKeyed(m.files);
    hide Published, OwnFiles;
    forall p | p in shown ensures Stored(t, blobs, shown[p]) {
      if shown[p] in m.files {
        var e := shown[p];
        PublishedMembers(t, request, inherited, files, e);
        var f :| f in files && EntryFor(t, request, inherited, f) == Ok(Some(e));
        if f.path in request.unchangedPaths {
          assert Has(inherited, inherited[f.path]);
        }
      } else {
        assert Has(inherited, shown[p]);
      }
    }
  }

  lemma SameParents(t: Tenant, request: Request, entries: seq<File>)
    ensures forall a :: a in ParentIds(Canonical(t, entries, request.parents)) <==> a in RequestIds(request)
  {
    hide Ordering.Sort, ParentLeq, FileLeq;
    var sorted := Ordering.Sort(ParentLeq, request.parents);
    var m := Canonical(t, entries, request.parents);
    forall a ensures a in ParentIds(m) <==> a in RequestIds(request) {
      if a in ParentIds(m) {
        var i :| 0 <= i < |m.parents| && ParentIds(m)[i] == a;
        assert sorted[i] in multiset(request.parents);
        var j :| 0 <= j < |request.parents| && request.parents[j] == sorted[i];
        assert RequestIds(request)[j] == a;
      }
      if a in RequestIds(request) {
        var i :| 0 <= i < |request.parents| && RequestIds(request)[i] == a;
        assert request.parents[i] in multiset(sorted);
        var j :| 0 <= j < |sorted| && sorted[j] == request.parents[i];
        assert ParentIds(m)[j] == a;
      }
    }
  }

  lemma SameIds(env: Env, ids: seq<Id>, ids': seq<Id>, key: Key, f: Files)
    requires forall a :: a in ids <==> a in ids'
    ensures MergedParents(env, ids, f) <==> MergedParents(env, ids', f)
    ensures KeyUnused(env, ids, key) <==> KeyUnused(env, ids', key)
    ensures RoomForOne(env, ids) <==> RoomForOne(env, ids')
    ensures ParentsSound(env, ids) <==> AllSound(env, ids')
  {
    hide Sees, Reaches, Sound;
    assert forall x :: Ancestor(env, ids, x) <==> Ancestor(env, ids', x);
  }

  /** What a caller can check before publishing: an unused key, and room in both limits. */
  ghost predicate WillResolve(env: Env, request: Request, inherited: Files, files: seq<LocalFile>) {
    && KeyUnused(env, RequestIds(request), ManifestKey(request))
    && RoomForOne(env, RequestIds(request))
    && |inherited.Keys + LocalPaths(files)| <= MAX_MATERIALIZED_FILES
  }

  /** A published manifest resolves exactly under that condition, and then shows what was published. */
  lemma PublishedResolves(env: Env, t: Tenant, request: Request, inherited: Files, files: seq<LocalFile>)
    requires env.hash == t.manifestDigest && env.organization == t.organization && CollisionFree(t)
    requires ParentsSound(env, RequestIds(request)) && MergedParents(env, RequestIds(request), inherited)
    requires DistinctPaths(files) && Publishable(t, request, inherited, files)
    ensures var m := Published(t, request, inherited, files);
            var env', root := Grow(env, ManifestKey(request), m), Id(ManifestKey(request), env.hash(m));
            && (Sound(env', root) <==> WillResolve(env, request, inherited, files))
            && (Sound(env', root) ==> Represents(env', root, Shown(t, request, inherited, files)))
  {
    var m, key := Published(t, request, inherited, files), ManifestKey(request);
    SameParents(t, request, NewEntries(t, request, inherited, files));
    assert InjectiveDigest(env) && WellFormed(m) && m.organization == env.organization;
    hide Sound, MergedParents, Represents, KeyUnused, RoomForOne, NewEntries, Canonical, WellFormed, AllSound, ParentsSound,
         CollisionFree;
    SameIds(env, RequestIds(request), ParentIds(m), key, inherited);
    GrowthExact(env, key, m, inherited);
    ShownPaths(t, request, inherited, files);
    assert |Shown(t, request, inherited, files)| == |Shown(t, request, inherited, files).Keys|;
  }

  ghost predicate Intact(t: Tenant, blobs: map<Key, Bytes>, inherited: Files) {
    forall e | Has(inherited, e) :: Stored(t, blobs, e)
  }

  lemma StillIntact(t: Tenant, blobs: map<Key, Bytes>, blobs': map<Key, Bytes>, inherited: Files)
    requires Intact(t, blobs, inherited) && Extends(blobs', blobs)
    ensures Intact(t, blobs', inherited)
  {
  }

  /** The destination is the published workspace, byte for byte, plus what only the parents have. */
  ghost predicate Reproduced(tree: Tree, dirs: set<Path>, inherited: Files, files: seq<LocalFile>) {
    && tree.Keys == inherited.Keys + LocalPaths(files) && dirs == AllDirs(tree.Keys)
    && forall f | f in files :: f.path in tree && tree[f.path].content == f.content
  }

  lemma RestoredReproduces(t: Tenant, request: Request, inherited: Files, files: seq<LocalFile>, before: Tree, after: Tree,
                           dirs: set<Path>)
    requires CollisionFree(t) && DistinctPaths(files) && Publishable(t, request, inherited, files)
    requires HonestUnchanged(t, request, inherited, files)
    requires Keyed(Shown(t, request, inherited, files))
    requires Restored(t, Start(before, Shown(t, request, inherited, files), true), after, Shown(t, request, inherited, files))
    requires dirs == StartDirs(before, {}, Shown(t, request, inherited, files), true)
                     + AllDirs(Shown(t, request, inherited, files).Keys)
    ensures Reproduced(after, dirs, inherited, files)
  {
    hide Publishable, DistinctPaths, HonestUnchanged, Shown, LocalPaths, CollisionFree, Restored, Prune, Keyed, AllDirs,
         Holds, StartDirs;
    var shown := Shown(t, request, inherited, files);
    ShownPaths(t, request, inherited, files);
    RestoredKeys(t, before, after, shown);
    RestoredDirs(before, shown);
    forall f | f in files ensures f.path in after && after[f.path].content == f.content {
      ShownContent(t, request, inherited, files, f);
      HeldContent(t, after, shown[f.path], f);
    }
  }

  lemma HeldContent(t: Tenant, after: Tree, e: File, f: LocalFile)
    requires CollisionFree(t) && Holds(t, after, e) && e.path == f.path && e.blob.checksum == t.digest(f.content)
    ensures f.path in after && after[f.path].content == f.content
  {
  }

  lemma RestoredDirs(before: Tree, shown: Files)
    ensures StartDirs(before, {}, shown, true) + AllDirs(shown.Keys) == AllDirs(shown.Keys)
  {
    AllDirsGrow(Start(before, shown, true).Keys, shown.Keys);
    hide AllDirs;
  }

  lemma RestoredKeys(t: Tenant, before: Tree, after: Tree, shown: Files)
    requires Keyed(shown) && Restored(t, Start(before, shown, true), after, shown)
    ensures after.Keys == shown.Keys
    ensures forall p | p in shown :: Holds(t, after, shown[p]) && shown[p].path == p
  {
    forall p ensures p in after <==> p in shown {
      if p in shown {
        assert Holds(t, after, shown[p]) && shown[p].path == p;
      } else {
        assert Untouched(Start(before, shown, true), after, p);
      }
    }
  }

  /** What a caller can check before publishing: the manifest will resolve, and no path leads through another. */
  ghost predicate WillRestore(env: Env, request: Request, inherited: Files, files: seq<LocalFile>) {
    WillResolve(env, request, inherited, files) && PrefixFree(inherited.Keys + LocalPaths(files))
  }

  /**
   * Publish, then restore exactly: the destination becomes the published workspace whatever it held
   * before, if and only if the new manifest resolves and no path it shows leads through another. Only a
   * partial workspace can fail the latter, since a whole one was itself held by a file system. Blobs of the parents must be intact, cached
   * fingerprints and declared-unchanged paths honest, and digests collision-free.
   */
  method PublishThenRestore(store: ObjectStore, t: Tenant, request: Request, files: seq<LocalFile>,
                            destination: Destination, remember: bool, stamps: Path -> int)
    returns (published: Result<Id, PublishError>, restored: Result<Files, RestoreError>, ghost inherited: Files)
    requires CollisionFree(t) && CasSound(t, store.blobs) && DistinctPaths(files) && PrefixFree(LocalPaths(files))
    requires forall inh | MergedParents(store.Env(t), RequestIds(request), inh) ::
               HonestUnchanged(t, request, inh, files) && Intact(t, store.blobs, inh)
    requires HonestCache(t, destination.cache, destination.tree) && (!remember ==> destination.cache == map[])
    requires Rooted(destination.tree.Keys, destination.dirs)
    modifies store, destination
    ensures published.Ok? ==>
              && MergedParents(old(store.Env(t)), RequestIds(request), inherited)
              && (restored.Ok? <==> WillRestore(old(store.Env(t)), request, inherited, files))
              && (restored.Ok? ==> Reproduced(destination.tree, destination.dirs, inherited, files))
              && (!request.allowPartial ==>
                    inherited.Keys <= LocalPaths(files)
                    && (restored.Ok? <==> WillResolve(old(store.Env(t)), request, inherited, files)))
  {
    hide CollisionFree, CasSound, DistinctPaths, MergedParents, HonestUnchanged, Intact, HonestCache, Publishable, Shown,
         Reproduced, WillResolve, Sound, Represents, Restored, Published, Extends, Uploaded, ParentsSound, Restorable,
         Rooted, PrefixFree, AllDirs;
    ghost var env, blobs0 := store.Env(t), store.blobs;
    published, inherited := PublishWorkspace(store, t, request, files);
    restored := Err(OverlayFailed(ParentCycle));
    if published.Err? {
      return;
    }
    PublishedResolves(env, t, request, inherited, files);
    assert store.Env(t) == Grow(env, ManifestKey(request), Published(t, request, inherited, files));
    ghost var tree0, dirs0 := destination.tree, destination.dirs;
    restored := destination.RestoreWorkspace(store, t, published.value.key, published.value.checksum, None, true,
                                             remember, stamps);
    RoundTripFacts(env, store.Env(t), t, request, inherited, files, blobs0, store.blobs, published.value, tree0,
                   dirs0);
    if restored.Ok? {
      RoundTripContent(store.Env(t), t, request, inherited, files, published.value, tree0, destination.tree, dirs0,
                       destination.dirs, restored.value);
    }
    SamePaths(inherited.Keys, LocalPaths(files));
  }

  lemma RoundTripFacts(env: Env, env': Env, t: Tenant, request: Request, inherited: Files, files: seq<LocalFile>,
                       blobs0: map<Key, Bytes>, blobs: map<Key, Bytes>, root: Id, tree: Tree, dirs: set<Path>)
    requires MergedParents(env, RequestIds(request), inherited) && Intact(t, blobs0, inherited) && Extends(blobs, blobs0)
    requires Publishable(t, request, inherited, files) && Uploaded(t, blobs, request, inherited, files)
    requires Sound(env', root) ==> Represents(env', root, Shown(t, request, inherited, files))
    requires DistinctPaths(files) && Rooted(tree.Keys, dirs)
    ensures Sound(env', root) ==>
              ((forall f | Represents(env', root, f) :: Restorable(t, blobs, tree, dirs, f, None, true))
               <==> PrefixFree(inherited.Keys + LocalPaths(files)))
    ensures request.allowPartial || inherited.Keys <= LocalPaths(files)
  {
    StillIntact(t, blobs0, blobs, inherited);
    assert Keyed(inherited);
    hide MergedParents, Sound, Represents, Uploaded, Shown, Publishable, DistinctPaths, PrefixFree, Rooted, Stored, Fits,
         Start, StartDirs, LocalPaths;
    if Sound(env', root) {
      var shown := Shown(t, request, inherited, files);
      ShownStored(t, blobs, request, inherited, files);
      ShownPaths(t, request, inherited, files);
      ExactFits(tree, dirs, shown);
      assert Selected(None, shown) == shown;
      forall f | Represents(env', root, f) ensures f == shown {
        RepresentsUnique(env', root, f, shown);
      }
    }
  }

  lemma SamePaths(some: set<Path>, all: set<Path>)
    ensures some <= all ==> some + all == all
  {
  }

  lemma RoundTripContent(env': Env, t: Tenant, request: Request, inherited: Files, files: seq<LocalFile>, root: Id,
                         before: Tree, after: Tree, dirs0: set<Path>, dirs: set<Path>, restored: Files)
    requires CollisionFree(t) && DistinctPaths(files) && Publishable(t, request, inherited, files)
    requires HonestUnchanged(t, request, inherited, files)
    requires Represents(env', root, Shown(t, request, inherited, files))
    requires exists f :: Represents(env', root, f) && restored == Selected(None, f)
    requires Restored(t, Start(before, restored, true), after, restored)
    requires dirs == StartDirs(before, dirs0, restored, true) + AllDirs(restored.Keys)
    ensures Reproduced(after, dirs, inherited, files)
  {
    hide CollisionFree, DistinctPaths, Publishable, HonestUnchanged, Represents, Restored, Shown;
    var f :| Represents(env', root, f) && restored == Selected(None, f);
    RepresentsUnique(env', root, f, Shown(t, request, inherited, files));
    RepresentsKeyed(env', root, f);
    assert restored == f;
    RestoredReproduces(t, request, inherited, files, before, after, dirs);
  }
}
