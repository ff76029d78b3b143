/**
 * A partial publication that is accepted and can be loaded, but never restored (shared/stage_workspace.py):
 * the parent shows a file where the new workspace has a directory.
 */
module PartialPublication {
  import opened ArtifactOverlay
  import opened OverlayGrowth
  import opened WorkspaceTransfer
  import opened WorkspaceRestore
  import opened Directories
  import opened PublicationLimits
  import Ordering
  import opened Results

  function FileAt(t: Tenant, path: Path): File { File(path, "file", BlobOf(t, [])) }

  function OneFile(t: Tenant, path: Path): Manifest { Manifest([FileAt(t, path)], [], t.organization) }

  /** A workspace without the parent's files, published over that parent. */
  function Partial(t: Tenant): Request {
    Request("b", "file", map[], [ParentAt(t, "a/manifest.json", OneFile(t, "a"))], true, {})
  }

  function Over(t: Tenant): Env { Store(t, map["a/manifest.json" := OneFile(t, "a")]) }

  function ParentId(t: Tenant): Id { Id("a/manifest.json", t.manifestDigest(OneFile(t, "a"))) }

  lemma OneOwnFile(t: Tenant, path: Path)
    ensures OwnFiles([FileAt(t, path)]) == map[path := FileAt(t, path)]
  {
    assert [FileAt(t, path)][..0] == [];
  }

  lemma OneFileWellFormed(t: Tenant, path: Path, parents: seq<Parent>)
    requires |parents| <= 1 && forall p | p in parents :: MANIFEST_SUFFIX <= Tail(p.manifestKey)
    ensures WellFormed(Manifest([FileAt(t, path)], parents, t.organization))
  {
    hide CasKey;
  }

  lemma ParentShown(t: Tenant)
    requires CollisionFree(t)
    ensures AllSound(Over(t), [ParentId(t)])
    ensures MergedParents(Over(t), [ParentId(t)], map["a" := FileAt(t, "a")])
    ensures forall x :: Ancestor(Over(t), [ParentId(t)], x) <==> x == ParentId(t)
  {
    var empty, m := Store(t, map[]), OneFile(t, "a");
    NothingBelow(empty);
    OneFileWellFormed(t, "a", []);
    OneOwnFile(t, "a");
    assert ParentIds(m) == [];
    assert map[] + OwnFiles(m.files) == map["a" := FileAt(t, "a")];
    assert Over(t) == Grow(empty, "a/manifest.json", m);
    hide OwnFiles, WellFormed, Sound, MergedParents, KeyUnused, RoomForOne, AllSound, BlobOf;
    LinkGrows(empty, "a/manifest.json", m, map[]);
  }

  lemma PartialPublished(t: Tenant)
    ensures var inherited, files := map["a" := FileAt(t, "a")], [LocalFile("a/b", [], false)];
            && Publishable(t, Partial(t), inherited, files) && DistinctPaths(files) && LocalPaths(files) == {"a/b"}
            && RequestIds(Partial(t)) == [ParentId(t)] && ManifestKey(Partial(t)) == "b/manifest.json"
  {
    hide WellFormed, Ordering.Sort, BlobOf, Tail, NewEntries, CasKey;
    PartialEntries(t);
    SortOneFile(FileAt(t, "a/b"));
    SortOne(Partial(t).parents);
    InPlaceKey();
    OneFileWellFormed(t, "a/b", Partial(t).parents);
    PartialKey();
  }

  lemma PartialKey()
    ensures "b" + MANIFEST_SUFFIX == "b/manifest.json"
  {
  }

  lemma PartialEntries(t: Tenant)
    ensures NewEntries(t, Partial(t), map["a" := FileAt(t, "a")], [LocalFile("a/b", [], false)]) == [FileAt(t, "a/b")]
  {
    hide CasKey;
    var files := [LocalFile("a/b", [], false)];
    assert files[..0] == [];
  }

  lemma SortOneFile(e: File)
    ensures Ordering.Sort(FileLeq, [e]) == [e]
  {
    assert [e][1..] == [];
  }

  /** Whatever the destination holds and whatever blobs there are, the published overlay cannot be restored. */
  lemma PartialAcceptedUnrestorable(t: Tenant)
    requires CollisionFree(t)
    ensures var inherited, files := map["a" := FileAt(t, "a")], [LocalFile("a/b", [], false)];
            && Accepted(Over(t), t, Partial(t), files, inherited) && Loadable(Over(t), t, Partial(t), files, inherited)
            && PrefixFree(LocalPaths(files)) && !WillRestore(Over(t), Partial(t), inherited, files)
            && forall blobs, tree, dirs, exact ::
                 !Restorable(t, blobs, tree, dirs, Shown(t, Partial(t), inherited, files), None, exact)
  {
    var inherited, files := map["a" := FileAt(t, "a")], [LocalFile("a/b", [], false)];
    ParentShown(t);
    PartialPublished(t);
    PartialRoom(t);
    WayThroughFile();
    hide CollisionFree, Publishable, DistinctPaths, LocalPaths, MergedParents, AllSound, Sound, Published, RequestIds,
         ManifestKey, Partial, Over, FileAt, ParentId, PrefixFree, DirsOf, RoomForOne, KeyUnused;
    OneSound(t);
    AgreementHolds(Over(t), [ParentId(t)], inherited);
    TwoPaths(inherited.Keys, "a", "a/b");
    PublishedResolves(Over(t), t, Partial(t), inherited, files);
    ShownPaths(t, Partial(t), inherited, files);
    NeverRestorable(t, Shown(t, Partial(t), inherited, files));
  }

  lemma OneSound(t: Tenant)
    requires AllSound(Over(t), [ParentId(t)])
    ensures ParentsSound(Over(t), [ParentId(t)])
  {
    hide Sound;
  }

  lemma TwoPaths(paths: set<Path>, a: Path, b: Path)
    requires paths == {a} && a != b
    ensures paths + {b} == {a, b} && |paths + {b}| == 2
  {
  }

  lemma PartialRoom(t: Tenant)
    requires forall x :: Ancestor(Over(t), [ParentId(t)], x) <==> x == ParentId(t)
    ensures KeyUnused(Over(t), [ParentId(t)], "b/manifest.json") && RoomForOne(Over(t), [ParentId(t)])
  {
    hide Ancestor;
    forall s: set<Id> | forall x | x in s :: Ancestor(Over(t), [ParentId(t)], x) ensures |s| <= 1 {
      SubsetSize(s, {ParentId(t)});
    }
  }

  lemma WayThroughFile()
    ensures "a" in DirsOf("a/b") && !PrefixFree({"a", "a/b"}) && PrefixFree({"a/b"})
  {
    assert "a/b"[1] == '/' && "a/b"[..1] == "a";
    DirsShorter("a/b");
    assert "a" in DirsOf("a/b");
  }

  lemma NeverRestorable(t: Tenant, shown: Files)
    requires !PrefixFree(shown.Keys)
    ensures forall blobs, tree, dirs, exact :: !Restorable(t, blobs, tree, dirs, shown, None, exact)
  {
    hide PrefixFree;
    assert Selected(None, shown) == shown;
  }
}
