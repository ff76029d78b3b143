/** Incremental publication of a workspace and its verified restore (shared/stage_workspace.py). */
module WorkspaceTransfer {
  import opened ArtifactOverlay
  import Ordering
  import Sequences
  import opened Results

  type Bytes = seq<bv8>

  /** One tenant's namespace: its name and the digests of blob contents and of manifest objects. */
  datatype Tenant = Tenant(organization: string, digest: Bytes -> Hash, manifestDigest: Manifest -> Hash)

  ghost predicate CollisionFree(t: Tenant) {
    && (forall a, b | t.digest(a) == t.digest(b) :: a == b)
    && (forall m, n | t.manifestDigest(m) == t.manifestDigest(n) :: m == n)
  }

  datatype LocalFile = LocalFile(path: Path, content: Bytes, symlink: bool)

  ghost predicate DistinctPaths(files: seq<LocalFile>) {
    forall i, j | 0 <= i < j < |files| :: files[i].path != files[j].path
  }

  datatype PublishError =
    | ParentFailed(cause: LoadError) | ParentsConflict | SymbolicLink | UnchangedWithoutParent | UnchangedSize
    | BlobConflict | UnchangedMissing | ImplicitDeletion | NotCanonical

  datatype Request = Request(
    prefix: string, defaultRole: string, roles: map<Path, string>, parents: seq<Parent>,
    allowPartial: bool, unchangedPaths: set<Path>)

  function ManifestKey(request: Request): Key {
    request.prefix + MANIFEST_SUFFIX
  }

  function RoleOf(request: Request, path: Path): string {
    if path in request.roles then request.roles[path] else request.defaultRole
  }

  function RequestIds(request: Request): seq<Id> {
    seq(|request.parents|, i requires 0 <= i < |request.parents| =>
      Id(request.parents[i].manifestKey, request.parents[i].checksum))
  }

  function BlobOf(t: Tenant, content: Bytes): Blob {
    Blob(CasKey(t.organization, t.digest(content)), |content|, t.digest(content))
  }

  /** The entry a local file adds to the new manifest, or nothing when the inherited one stands. */
  function EntryFor(t: Tenant, request: Request, inherited: Files, f: LocalFile): Result<Option<File>, PublishError> {
    if f.path in request.unchangedPaths then
      if f.path !in inherited then Err(UnchangedWithoutParent)
      else if inherited[f.path].blob.size != |f.content| then Err(UnchangedSize)
      else if inherited[f.path].role == RoleOf(request, f.path) then Ok(None)
      else Ok(Some(File(f.path, RoleOf(request, f.path), inherited[f.path].blob)))
    else if f.path in inherited && inherited[f.path].blob.size == |f.content|
            && inherited[f.path].blob.checksum == t.digest(f.content) then Ok(None)
    else Ok(Some(File(f.path, RoleOf(request, f.path), BlobOf(t, f.content))))
  }

  predicate Acceptable(t: Tenant, request: Request, inherited: Files, f: LocalFile) {
    !f.symlink && EntryFor(t, request, inherited, f).Ok?
  }

  function NewEntries(t: Tenant, request: Request, inherited: Files, files: seq<LocalFile>): seq<File> {
    if files == [] then []
    else
      var last := EntryFor(t, request, inherited, files[|files| - 1]);
      NewEntries(t, request, inherited, files[..|files| - 1])
      + if last.Ok? && last.value.Some? then [last.value.value] else []
  }

  predicate FileLeq(a: File, b: File) { Ordering.StringLeq(a.path, b.path) }
  predicate ParentLeq(a: Parent, b: Parent) { Ordering.StringLeq(a.artifactId, b.artifactId) }

  /** The canonical form that is serialised: files by path, parents by artifact id. */
  function Canonical(t: Tenant, entries: seq<File>, parents: seq<Parent>): Manifest {
    Manifest(Ordering.Sort(FileLeq, entries), Ordering.Sort(ParentLeq, parents), t.organization)
  }

  function LocalPaths(files: seq<LocalFile>): set<Path> {
    set f | f in files :: f.path
  }

  // ----- The object store -----

  class ObjectStore {
    var manifests: map<Key, Manifest>
    var blobs: map<Key, Bytes>

    function Env(t: Tenant): Env
      reads this
    {
      ArtifactOverlay.Env(manifests, t.manifestDigest, t.organization)
    }

    /** Publication of one blob under its digest: an existing object is verified, never replaced. */
    method PublishBlob(t: Tenant, content: Bytes) returns (r: Result<Blob, PublishError>)
      modifies this`blobs
      ensures r.Ok? ==> r.value == BlobOf(t, content) && BlobOf(t, content).key in blobs
                        && |blobs[BlobOf(t, content).key]| == |content|
                        && t.digest(blobs[BlobOf(t, content).key]) == t.digest(content)
      ensures old(blobs).Keys <= blobs.Keys && forall k | k in old(blobs) :: blobs[k] == old(blobs)[k]
      ensures CasSound(t, old(blobs)) && CollisionFree(t) ==> r.Ok? && CasSound(t, blobs)
    {
      var blob := BlobOf(t, content);
      if blob.key in blobs {
        if |blobs[blob.key]| != blob.size || t.digest(blobs[blob.key]) != blob.checksum {
          return Err(BlobConflict);
        }
        return Ok(blob);
      }
      CasSoundAdd(t, blobs, content);
      blobs := blobs[blob.key := content];
      return Ok(blob);
    }
  }

  /** Every content-addressed object holds the content its key names. */
  ghost predicate CasSound(t: Tenant, blobs: map<Key, Bytes>) {
    forall d | CasKey(t.organization, d) in blobs :: t.digest(blobs[CasKey(t.organization, d)]) == d
  }

  lemma CasSoundAdd(t: Tenant, blobs: map<Key, Bytes>, content: Bytes)
    ensures CasSound(t, blobs) ==> CasSound(t, blobs[BlobOf(t, content).key := content])
  {
    forall d | CasKey(t.organization, d) == BlobOf(t, content).key ensures d == t.digest(content) {
      CasKeyInjective(t.organization, d, t.digest(content));
    }
  }

  ghost predicate ParentsSound(env: Env, ids: seq<Id>) {
    forall a | a in ids :: Sound(env, a)
  }

  ghost predicate ParentsAgree(env: Env, ids: seq<Id>) {
    forall a, b, e, e' | a in ids && b in ids && Sees(env, a, e) && Sees(env, b, e') && e.path == e'.path :: e == e'
  }

  lemma AgreementFails(env: Env, ids: seq<Id>, k: nat, inherited: Files, f: Files)
    requires k < |ids| && MergedParents(env, ids[..k], inherited) && Represents(env, ids[k], f)
    requires exists p :: p in inherited && p in f && inherited[p] != f[p]
    ensures !ParentsAgree(env, ids)
  {
    hide Sees;
    var p :| p in inherited && p in f && inherited[p] != f[p];
    assert Has(inherited, inherited[p]) && Has(f, f[p]);
    var a :| a in ids[..k] && Sees(env, a, inherited[p]);
    assert a in ids && ids[k] in ids;
  }

  lemma AgreementHolds(env: Env, ids: seq<Id>, inherited: Files)
    requires MergedParents(env, ids, inherited)
    ensures ParentsAgree(env, ids)
  {
    hide Sees;
    forall a, b, e, e' | a in ids && b in ids && Sees(env, a, e) && Sees(env, b, e') && e.path == e'.path
      ensures e == e'
    {
      assert Has(inherited, e) && Has(inherited, e');
    }
  }

  /** The union of all parent overlays, each loaded on its own. */
  method InheritedFiles(env: Env, request: Request) returns (r: Result<Files, PublishError>)
    ensures r.Ok? <==> ParentsSound(env, RequestIds(request)) && ParentsAgree(env, RequestIds(request))
    ensures r.Ok? ==> MergedParents(env, RequestIds(request), r.value)
  {
    hide Sound, Represents, MergedParents, ParentsAgree;
    ghost var ids := RequestIds(request);
    var inherited: Files := map[];
    NothingMerged(env, map[]);
    for i := 0 to |request.parents|
      invariant forall k | 0 <= k < i :: Sound(env, ids[k])
      invariant MergedParents(env, ids[..i], inherited)
    {
      var loaded, _ := LoadManifestOverlay(env, request.parents[i].manifestKey, request.parents[i].checksum);
      assert ids[i] == Id(request.parents[i].manifestKey, request.parents[i].checksum) && ids[i] in ids;
      if loaded.Err? {
        return Err(ParentFailed(loaded.error));
      }
      var merged := Merge(inherited, loaded.value);
      if merged.Err? {
        AgreementFails(env, ids, i, inherited, loaded.value);
        return Err(ParentsConflict);
      }
      MergeKeepsRepresentation(env, ids[..i], ids[i], inherited, loaded.value);
      Sequences.PrefixSnoc(ids, i);
      inherited := merged.value;
    }
    Sequences.PrefixAll(ids);
    AgreementHolds(env, ids, inherited);
    return Ok(inherited);
  }

  ghost predicate AllAcceptable(t: Tenant, request: Request, inherited: Files, files: seq<LocalFile>) {
    forall f | f in files :: Acceptable(t, request, inherited, f)
  }

  function Published(t: Tenant, request: Request, inherited: Files, files: seq<LocalFile>): Manifest {
    Canonical(t, NewEntries(t, request, inherited, files), request.parents)
  }

  /** Everything the publication checks once the parents are loaded. */
  ghost predicate Publishable(t: Tenant, request: Request, inherited: Files, files: seq<LocalFile>) {
    && AllAcceptable(t, request, inherited, files)
    && request.unchangedPaths <= LocalPaths(files)
    && (request.allowPartial || inherited.Keys <= LocalPaths(files))
    && WellFormed(Published(t, request, inherited, files))
  }

  /** The blob of an entry is in the store with the content it names. */
  predicate Stored(t: Tenant, blobs: map<Key, Bytes>, e: File) {
    e.blob.key in blobs && |blobs[e.blob.key]| == e.blob.size && t.digest(blobs[e.blob.key]) == e.blob.checksum
  }

  /** Every entry that did not come from a parent was uploaded. */
  ghost predicate Uploaded(t: Tenant, blobs: map<Key, Bytes>, request: Request, inherited: Files, files: seq<LocalFile>) {
    forall f | f in files && f.path !in request.unchangedPaths ::
      var entry := EntryFor(t, request, inherited, f);
      entry.Ok? && entry.value.Some? ==> Stored(t, blobs, entry.value.value)
  }

  ghost predicate Extends(blobs: map<Key, Bytes>, blobs0: map<Key, Bytes>) {
    blobs0.Keys <= blobs.Keys && forall k | k in blobs0 :: blobs[k] == blobs0[k]
  }

  /** One local file: inherited, re-labelled, or uploaded. */
  method PublishFile(store: ObjectStore, t: Tenant, request: Request, inherited: Files, f: LocalFile)
    returns (r: Result<Option<File>, PublishError>)
    modifies store`blobs
    ensures r.Ok? ==> Acceptable(t, request, inherited, f) && r == EntryFor(t, request, inherited, f)
                      && Uploaded(t, store.blobs, request, inherited, [f])
    ensures Extends(store.blobs, old(store.blobs))
    ensures CasSound(t, old(store.blobs)) && CollisionFree(t) ==>
              CasSound(t, store.blobs) && (r.Ok? <==> Acceptable(t, request, inherited, f))
  {
    hide CasSound, CollisionFree, CasKey;
    if f.symlink {
      return Err(SymbolicLink);
    }
    var desiredRole := RoleOf(request, f.path);
    if f.path in request.unchangedPaths {
      if f.path !in inherited {
        return Err(UnchangedWithoutParent);
      }
      var parentEntry := inherited[f.path];
      if parentEntry.blob.size != |f.content| {
        return Err(UnchangedSize);
      }
      if parentEntry.role == desiredRole {
        return Ok(None);
      }
      return Ok(Some(File(f.path, desiredRole, parentEntry.blob)));
    }
    if f.path in inherited && inherited[f.path].blob.size == |f.content|
       && inherited[f.path].blob.checksum == t.digest(f.content) {
      return Ok(None);
    }
    var uploaded := store.PublishBlob(t, f.content);
    if uploaded.Err? {
      return Err(uploaded.error);
    }
    return Ok(Some(File(f.path, desiredRole, uploaded.value)));
  }

  lemma UploadedMore(t: Tenant, blobs: map<Key, Bytes>, blobs': map<Key, Bytes>, request: Request, inherited: Files,
                     files: seq<LocalFile>, i: nat)
    requires i < |files| && Extends(blobs', blobs)
    requires Uploaded(t, blobs, request, inherited, files[..i])
    requires Uploaded(t, blobs', request, inherited, [files[i]])
    ensures Uploaded(t, blobs', request, inherited, files[..i + 1])
  {
    hide EntryFor;
    Sequences.PrefixSnoc(files, i);
    forall f | f in files[..i + 1] ensures f in files[..i] || f in [files[i]] {
    }
  }

  lemma EntriesSnoc(t: Tenant, request: Request, inherited: Files, files: seq<LocalFile>, i: nat)
    requires i < |files|
    ensures var last := EntryFor(t, request, inherited, files[i]);
            NewEntries(t, request, inherited, files[..i + 1])
            == NewEntries(t, request, inherited, files[..i])
               + if last.Ok? && last.value.Some? then [last.value.value] else []
  {
    hide EntryFor;
    Sequences.PrefixSnoc(files, i);
    Sequences.DropSnoc(files[..i], files[i]);
  }

  method PublishFiles(store: ObjectStore, t: Tenant, request: Request, inherited: Files, files: seq<LocalFile>)
    returns (r: Result<seq<File>, PublishError>)
    modifies store`blobs
    ensures r.Ok? ==> AllAcceptable(t, request, inherited, files) && r.value == NewEntries(t, request, inherited, files)
                      && Uploaded(t, store.blobs, request, inherited, files)
    ensures Extends(store.blobs, old(store.blobs))
    ensures CasSound(t, old(store.blobs)) && CollisionFree(t) ==>
              CasSound(t, store.blobs) && (r.Ok? <==> AllAcceptable(t, request, inherited, files))
  {
    hide CasSound, CollisionFree, EntryFor, Uploaded, Acceptable, NewEntries;
    var entries: seq<File> := [];
    NothingUploaded(t, store.blobs, request, inherited);
    for i := 0 to |files|
      invariant forall k | 0 <= k < i :: Acceptable(t, request, inherited, files[k])
      invariant entries == NewEntries(t, request, inherited, files[..i])
      invariant Uploaded(t, store.blobs, request, inherited, files[..i])
      invariant Extends(store.blobs, old(store.blobs))
      invariant CasSound(t, old(store.blobs)) && CollisionFree(t) ==> CasSound(t, store.blobs)
    {
      ghost var before := store.blobs;
      var entry := PublishFile(store, t, request, inherited, files[i]);
      if entry.Err? {
        assert files[i] in files;
        return Err(entry.error);
      }
      UploadedMore(t, before, store.blobs, request, inherited, files, i);
      EntriesSnoc(t, request, inherited, files, i);
      if entry.value.Some? {
        entries := entries + [entry.value.value];
      }
    }
    Sequences.PrefixAll(files);
    return Ok(entries);
  }

  lemma NothingUploaded(t: Tenant, blobs: map<Key, Bytes>, request: Request, inherited: Files)
    ensures Uploaded(t, blobs, request, inherited, []) && NewEntries(t, request, inherited, []) == []
  {
  }

  lemma MergedUnique(env: Env, ids: seq<Id>, f: Files, g: Files)
    requires MergedParents(env, ids, f) && MergedParents(env, ids, g)
    ensures f == g
  {
    hide Sees;
    forall e ensures Has(f, e) <==> Has(g, e) {
    }
    forall p ensures p in f <==> p in g {
      if p in f { assert Has(g, f[p]); }
      if p in g { assert Has(f, g[p]); }
    }
    forall p | p in f ensures f[p] == g[p] {
      assert Has(g, f[p]);
    }
  }

  /**
   * Publication writes one canonical manifest that holds only what changed, and never replaces a
   * blob. With a sound blob store it succeeds exactly when the parents resolve and agree and the
   * request is publishable over what they show.
   */
  method PublishWorkspace(store: ObjectStore, t: Tenant, request: Request, files: seq<LocalFile>)
    returns (r: Result<Id, PublishError>, ghost inherited: Files)
    modifies store
    ensures Extends(store.blobs, old(store.blobs))
    ensures CasSound(t, old(store.blobs)) && CollisionFree(t) ==> CasSound(t, store.blobs)
    ensures r.Err? ==> store.manifests == old(store.manifests)
    ensures r.Ok? ==>
              && ParentsSound(old(store.Env(t)), RequestIds(request))
              && MergedParents(old(store.Env(t)), RequestIds(request), inherited)
              && Publishable(t, request, inherited, files)
              && Uploaded(t, store.blobs, request, inherited, files)
              && r.value == Id(ManifestKey(request), t.manifestDigest(Published(t, request, inherited, files)))
              && store.manifests
                 == old(store.manifests)[ManifestKey(request) := Published(t, request, inherited, files)]
    ensures CasSound(t, old(store.blobs)) && CollisionFree(t) ==>
              (r.Ok? <==>
                && ParentsSound(old(store.Env(t)), RequestIds(request))
                && ParentsAgree(old(store.Env(t)), RequestIds(request))
                && exists inh :: MergedParents(old(store.Env(t)), RequestIds(request), inh)
                                 && Publishable(t, request, inh, files))
  {
    hide CasSound, CollisionFree, Sound, MergedParents, ParentsAgree, EntryFor, WellFormed, Uploaded, Acceptable,
         Canonical, NewEntries;
    var env := store.Env(t);
    ghost var ids := RequestIds(request);
    inherited := map[];
    var loaded := InheritedFiles(env, request);
    if loaded.Err? {
      return Err(loaded.error), inherited;
    }
    var overlay := loaded.value;
    inherited := overlay;
    forall inh | MergedParents(env, ids, inh) ensures inh == inherited {
      MergedUnique(env, ids, inh, inherited);
    }
    var entries := PublishFiles(store, t, request, overlay, files);
    if entries.Err? {
      return Err(entries.error), inherited;
    }
    if !(request.unchangedPaths <= LocalPaths(files)) {
      return Err(UnchangedMissing), inherited;
    }
    if !(overlay.Keys <= LocalPaths(files)) && !request.allowPartial {
      return Err(ImplicitDeletion), inherited;
    }
    var manifest := Canonical(t, entries.value, request.parents);
    if !WellFormed(manifest) {
      return Err(NotCanonical), inherited;
    }
    store.manifests := store.manifests[ManifestKey(request) := manifest];
    return Ok(Id(ManifestKey(request), t.manifestDigest(manifest))), inherited;
  }
}
