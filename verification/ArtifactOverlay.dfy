/**
 * Workspace manifests and the overlay they describe (shared/artifact_manifest.py and the loader
 * of shared/stage_workspace.py). The overlay is specified by the graph alone; the memoised
 * depth-first loader is proved to compute it, and to fail exactly when the graph is unsound.
 */
module ArtifactOverlay {
  import opened Results
  import Sequences

  type Key = string
  type Path = string
  type Hash = string

  const MAX_OVERLAY_MANIFESTS := 64
  const MAX_MATERIALIZED_FILES := 100_000

  datatype Blob = Blob(key: Key, size: nat, checksum: Hash)
  datatype File = File(path: Path, role: string, blob: Blob)
  datatype Parent = Parent(artifactId: string, manifestKey: Key, checksum: Hash)
  datatype Manifest = Manifest(files: seq<File>, parents: seq<Parent>, organization: string)

  /** A manifest is loaded by the key of its object and the checksum its user expects. */
  datatype Id = Id(key: Key, checksum: Hash)

  type Files = map<Path, File>

  const MANIFEST_SUFFIX := "/manifest.json"

  function CasKey(organization: string, checksum: Hash): Key {
    "organizations/" + organization + "/blobs/sha256/" + checksum[..if |checksum| < 2 then |checksum| else 2]
    + "/" + checksum
  }

  lemma CasKeyInjective(organization: string, a: Hash, b: Hash)
    requires CasKey(organization, a) == CasKey(organization, b)
    ensures a == b
  {
    var n := |CasKey(organization, a)|;
    assert |a| == |b|;
    assert a == CasKey(organization, a)[n - |a|..] && b == CasKey(organization, b)[n - |b|..];
  }

  /** What the manifest parser accepts, path syntax aside. */
  predicate WellFormed(m: Manifest) {
    && (forall i, j | 0 <= i < j < |m.files| :: m.files[i].path != m.files[j].path)
    && (forall i, j | 0 <= i < j < |m.parents| :: m.parents[i].artifactId != m.parents[j].artifactId)
    && (forall f | f in m.files :: f.blob.key == CasKey(m.organization, f.blob.checksum))
    && (forall p | p in m.parents :: MANIFEST_SUFFIX <= p.manifestKey[if |p.manifestKey| < |MANIFEST_SUFFIX| then 0
                                                                      else |p.manifestKey| - |MANIFEST_SUFFIX|..])
  }

  /** The manifest objects of one store as seen by one tenant; hash is the digest of an object. */
  datatype Env = Env(manifests: map<Key, Manifest>, hash: Manifest -> Hash, organization: string)

  predicate Fetched(env: Env, id: Id) {
    && id.key in env.manifests
    && env.hash(env.manifests[id.key]) == id.checksum
    && WellFormed(env.manifests[id.key])
    && env.manifests[id.key].organization == env.organization
  }

  function ParentIds(m: Manifest): seq<Id> {
    seq(|m.parents|, i requires 0 <= i < |m.parents| => Id(m.parents[i].manifestKey, m.parents[i].checksum))
  }

  // ----- The overlay as a property of the graph -----

  ghost predicate Step(env: Env, a: Id, b: Id) {
    Fetched(env, a) && b in ParentIds(env.manifests[a.key])
  }

  ghost predicate Chain(env: Env, c: seq<Id>) {
    c != [] && forall i | 0 <= i < |c| - 1 :: Step(env, c[i], c[i + 1])
  }

  ghost predicate ChainTo(env: Env, c: seq<Id>, a: Id, b: Id) {
    Chain(env, c) && c[0] == a && c[|c| - 1] == b
  }

  ghost predicate Reaches(env: Env, a: Id, b: Id) {
    exists c :: ChainTo(env, c, a, b)
  }

  ghost predicate Owns(env: Env, id: Id, e: File) {
    Fetched(env, id) && e in env.manifests[id.key].files
  }

  ghost predicate OwnsPath(env: Env, id: Id, path: Path) {
    exists e :: Owns(env, id, e) && e.path == path
  }

  ghost predicate SeesVia(env: Env, c: seq<Id>, e: File) {
    && Chain(env, c)
    && Owns(env, c[|c| - 1], e)
    && forall i | 0 <= i < |c| - 1 :: !OwnsPath(env, c[i], e.path)
  }

  /** Entry e is visible at id: some ancestor owns it and no manifest on the way overrides its path. */
  ghost predicate Sees(env: Env, id: Id, e: File) {
    exists c :: SeesVia(env, c, e) && c[0] == id
  }

  ghost predicate Keyed(f: Files) {
    forall p | p in f :: f[p].path == p
  }

  predicate Has(f: Files, e: File) {
    e.path in f && f[e.path] == e
  }

  ghost predicate Represents(env: Env, id: Id, f: Files) {
    Keyed(f) && forall e :: Has(f, e) <==> Sees(env, id, e)
  }

  /** Two parents of id disagree about a path, even one that id itself overrides. */
  ghost predicate Conflict(env: Env, id: Id) {
    exists a, b, e, e' :: Step(env, id, a) && Step(env, id, b) && Sees(env, a, e) && Sees(env, b, e')
                          && e.path == e'.path && e != e'
  }

  ghost predicate Below(env: Env, a: Id, b: Id) {
    exists c :: ChainTo(env, c, a, b) && 2 <= |c|
  }

  ghost predicate Cyclic(env: Env, id: Id) {
    Below(env, id, id)
  }

  ghost predicate FewFiles(env: Env, id: Id) {
    forall f | Represents(env, id, f) :: |f| <= MAX_MATERIALIZED_FILES
  }

  ghost predicate SoundAt(env: Env, id: Id) {
    Fetched(env, id) && !Cyclic(env, id) && !Conflict(env, id) && FewFiles(env, id)
  }

  ghost predicate FewManifests(env: Env, root: Id) {
    forall s: set<Id> | forall id | id in s :: Reaches(env, root, id) :: |s| <= MAX_OVERLAY_MANIFESTS
  }

  ghost predicate Sound(env: Env, root: Id) {
    (forall id | Reaches(env, root, id) :: SoundAt(env, id)) && FewManifests(env, root)
  }

  // ----- Facts about the graph -----

  lemma ReachesSelf(env: Env, id: Id)
    ensures Reaches(env, id, id)
  {
    assert ChainTo(env, [id], id, id);
  }

  lemma ReachesStep(env: Env, a: Id, b: Id, c: Id)
    requires Reaches(env, a, b) && Step(env, b, c)
    ensures Reaches(env, a, c)
  {
    var p :| ChainTo(env, p, a, b);
    assert ChainTo(env, p + [c], a, c);
  }

  lemma StepReaches(env: Env, a: Id, b: Id, c: Id)
    requires Step(env, a, b) && Reaches(env, b, c)
    ensures Reaches(env, a, c)
  {
    var p :| ChainTo(env, p, b, c);
    assert ChainTo(env, [a] + p, a, c);
  }

  lemma SeesUnfold(env: Env, id: Id, e: File)
    ensures Sees(env, id, e) <==>
            Owns(env, id, e) || (!OwnsPath(env, id, e.path) && exists a :: Step(env, id, a) && Sees(env, a, e))
  {
    hide OwnsPath, Owns, Step;
    if Sees(env, id, e) && !Owns(env, id, e) {
      var c :| SeesVia(env, c, e) && c[0] == id;
      assert Step(env, c[0], c[1]);
      assert SeesVia(env, c[1..], e);
    }
    if Owns(env, id, e) {
      assert SeesVia(env, [id], e);
    } else if !OwnsPath(env, id, e.path) && exists a :: Step(env, id, a) && Sees(env, a, e) {
      var a :| Step(env, id, a) && Sees(env, a, e);
      var c :| SeesVia(env, c, e) && c[0] == a;
      assert SeesVia(env, [id] + c, e);
    }
  }

  /** The overlay at a node, from the merged overlays of its parents and its own files. */
  ghost predicate MergedParents(env: Env, parents: seq<Id>, f: Files) {
    Keyed(f) && forall e :: Has(f, e) <==> exists a :: a in parents && Sees(env, a, e)
  }

  function OwnFiles(files: seq<File>): Files {
    if files == [] then map[]
    else OwnFiles(files[..|files| - 1])[files[|files| - 1].path := files[|files| - 1]]
  }

  lemma {:induction false} OwnFilesKeyed(files: seq<File>)
    ensures Keyed(OwnFiles(files))
    ensures forall p :: p in OwnFiles(files) <==> exists e :: e in files && e.path == p
    ensures forall p | p in OwnFiles(files) :: OwnFiles(files)[p] in files
  {
    if files != [] {
      var last := files[|files| - 1];
      OwnFilesKeyed(files[..|files| - 1]);
      forall p ensures p in OwnFiles(files) <==> exists e :: e in files && e.path == p {
        if exists e :: e in files && e.path == p {
          var e :| e in files && e.path == p;
          assert e == last || e in files[..|files| - 1];
        }
        if p in OwnFiles(files) && p != last.path {
          var e :| e in files[..|files| - 1] && e.path == p;
          assert e in files;
        }
      }
    }
  }

  lemma OwnFilesExact(m: Manifest, e: File)
    requires WellFormed(m)
    ensures Has(OwnFiles(m.files), e) <==> e in m.files
  {
    OwnFilesKeyed(m.files);
  }

  lemma OverlayAtNode(env: Env, id: Id, inherited: Files)
    requires Fetched(env, id) && MergedParents(env, ParentIds(env.manifests[id.key]), inherited)
    ensures Represents(env, id, inherited + OwnFiles(env.manifests[id.key].files))
  {
    hide Sees, OwnsPath, Owns, Step, OwnFiles, WellFormed, ParentIds;
    var m := env.manifests[id.key];
    var f := inherited + OwnFiles(m.files);
    OwnFilesKeyed(m.files);
    StepsToParents(env, id);
    forall e ensures Has(f, e) <==> Sees(env, id, e) {
      SeesUnfold(env, id, e);
      OwnedFiles(env, id, e);
      assert Has(inherited, e) <==> exists a :: Step(env, id, a) && Sees(env, a, e);
      assert Has(f, e) <==> Has(OwnFiles(m.files), e) || (e.path !in OwnFiles(m.files) && Has(inherited, e));
    }
  }

  lemma StepsToParents(env: Env, id: Id)
    requires Fetched(env, id)
    ensures forall a :: Step(env, id, a) <==> a in ParentIds(env.manifests[id.key])
  {
  }

  lemma OwnedFiles(env: Env, id: Id, e: File)
    requires Fetched(env, id)
    ensures var own := OwnFiles(env.manifests[id.key].files);
            (Owns(env, id, e) <==> Has(own, e)) && (OwnsPath(env, id, e.path) <==> e.path in own)
  {
    var m := env.manifests[id.key];
    OwnFilesKeyed(m.files);
    OwnFilesExact(m, e);
    if e.path in OwnFiles(m.files) {
      assert Owns(env, id, OwnFiles(m.files)[e.path]);
    }
  }

  lemma BelowStep(env: Env, a: Id, b: Id)
    requires Step(env, a, b)
    ensures Below(env, a, b)
  {
    assert ChainTo(env, [a, b], a, b);
  }

  lemma BelowThenStep(env: Env, a: Id, b: Id, c: Id)
    requires Below(env, a, b) && Step(env, b, c)
    ensures Below(env, a, c)
  {
    var p :| ChainTo(env, p, a, b) && 2 <= |p|;
    assert ChainTo(env, p + [c], a, c);
  }

  // ----- What the loader has completed -----

  /** A completed node: all its parents were completed before it. */
  ghost predicate Settled(env: Env, earlier: seq<Id>, id: Id, f: Files) {
    && Fetched(env, id)
    && (forall a | Step(env, id, a) :: a in earlier)
    && Represents(env, id, f)
    && !Conflict(env, id)
    && |f| <= MAX_MATERIALIZED_FILES
  }

  ghost predicate Completed(env: Env, done: seq<Id>, cache: map<Id, Files>) {
    && (forall i, j | 0 <= i < j < |done| :: done[i] != done[j])
    && (forall id :: id in cache <==> id in done)
    && forall i | 0 <= i < |done| :: Settled(env, done[..i], done[i], cache[done[i]])
  }

  /** Following parents only goes back in completion order. */
  lemma {:induction false} ChainGoesBack(env: Env, done: seq<Id>, cache: map<Id, Files>, c: seq<Id>, i: nat)
    requires Completed(env, done, cache) && i < |done|
    requires Chain(env, c) && c[0] == done[i]
    ensures exists j | 0 <= j <= i :: done[j] == c[|c| - 1] && j + |c| - 1 <= i
    decreases |c|
  {
    hide Conflict, Represents, Fetched;
    if 1 < |c| {
      assert Settled(env, done[..i], done[i], cache[done[i]]);
      assert Step(env, c[0], c[1]);
      var k :| 0 <= k < i && done[..i][k] == c[1];
      assert Chain(env, c[1..]);
      ChainGoesBack(env, done, cache, c[1..], k);
    }
  }

  lemma RepresentsUnique(env: Env, id: Id, f: Files, g: Files)
    requires Represents(env, id, f) && Represents(env, id, g)
    ensures f == g
  {
    hide Sees;
    forall p ensures p in f <==> p in g {
      if p in f {
        assert Has(f, f[p]) && Has(g, f[p]);
      }
      if p in g {
        assert Has(g, g[p]) && Has(f, g[p]);
      }
    }
    forall p | p in f ensures f[p] == g[p] {
      assert Has(f, f[p]) && Has(g, f[p]);
    }
  }

  lemma CompletedSound(env: Env, done: seq<Id>, cache: map<Id, Files>, i: nat)
    requires Completed(env, done, cache) && i < |done|
    ensures SoundAt(env, done[i])
  {
    var id := done[i];
    assert Settled(env, done[..i], id, cache[id]);
    hide Conflict, Fetched;
    forall f | Represents(env, id, f) ensures |f| <= MAX_MATERIALIZED_FILES {
      RepresentsUnique(env, id, f, cache[id]);
    }
    forall c | ChainTo(env, c, id, id) ensures |c| < 2 {
      ChainGoesBack(env, done, cache, c, i);
    }
  }

  lemma {:induction false} DistinctCount(done: seq<Id>, s: set<Id>)
    requires forall i, j | 0 <= i < j < |done| :: done[i] != done[j]
    requires forall id | id in s :: id in done
    ensures |s| <= |done|
    decreases |done|
  {
    if done == [] {
      assert s == {};
    } else {
      var last := done[|done| - 1];
      DistinctCount(done[..|done| - 1], s - {last});
    }
  }

  /** When the root is completed, everything it reaches is sound and its overlay is the cached one. */
  lemma RootCompleted(env: Env, done: seq<Id>, cache: map<Id, Files>, root: Id)
    requires Completed(env, done, cache) && root in cache && |done| <= MAX_OVERLAY_MANIFESTS
    ensures Sound(env, root) && Represents(env, root, cache[root])
  {
    var i :| 0 <= i < |done| && done[i] == root;
    assert Settled(env, done[..i], root, cache[root]);
    forall id | Reaches(env, root, id) ensures id in done && SoundAt(env, id) {
      var c :| ChainTo(env, c, root, id);
      ChainGoesBack(env, done, cache, c, i);
      var j :| 0 <= j < |done| && done[j] == id;
      CompletedSound(env, done, cache, j);
    }
    forall s: set<Id> | forall id | id in s :: Reaches(env, root, id) ensures |s| <= MAX_OVERLAY_MANIFESTS {
      DistinctCount(done, s);
    }
  }

  /** And nothing else was loaded: the completed manifests are exactly the reachable ones. */
  lemma LoadedExactly(env: Env, done: seq<Id>, cache: map<Id, Files>, root: Id)
    requires Completed(env, done, cache) && root in cache
    requires forall id | id in cache :: Reaches(env, root, id)
    ensures forall id :: id in cache <==> Reaches(env, root, id)
    ensures |cache| == |done|
  {
    var i :| 0 <= i < |done| && done[i] == root;
    forall id | Reaches(env, root, id) ensures id in cache {
      var c :| ChainTo(env, c, root, id);
      ChainGoesBack(env, done, cache, c, i);
    }
    SetOfDistinct(done, cache.Keys);
  }

  lemma {:induction false} SetOfDistinct(done: seq<Id>, s: set<Id>)
    requires forall i, j | 0 <= i < j < |done| :: done[i] != done[j]
    requires forall id :: id in s <==> id in done
    ensures |s| == |done|
    decreases |done|
  {
    if done == [] {
      assert s == {};
    } else {
      SetOfDistinct(done[..|done| - 1], s - {done[|done| - 1]});
    }
  }

  datatype LoadError =
    | ParentCycle | TooManyManifests | MissingManifest | ChecksumMismatch | Malformed
    | ForeignOrganization | ParentConflict | TooManyFiles

  /** The checks on one downloaded manifest object. */
  method Download(env: Env, id: Id) returns (r: Result<Manifest, LoadError>)
    ensures r.Ok? <==> Fetched(env, id)
    ensures r.Ok? ==> r.value == env.manifests[id.key]
  {
    if id.key !in env.manifests {
      return Err(MissingManifest);
    }
    var manifest := env.manifests[id.key];
    if env.hash(manifest) != id.checksum {
      return Err(ChecksumMismatch);
    }
    if !WellFormed(manifest) {
      return Err(Malformed);
    }
    if manifest.organization != env.organization {
      return Err(ForeignOrganization);
    }
    return Ok(manifest);
  }

  /** Adds one parent's files to the inherited ones unless some path differs. */
  lemma MergeOne(inherited: Files, parentFiles: Files, seen: set<Path>, p: Path)
    requires seen <= parentFiles.Keys && p in parentFiles
    ensures (inherited + map q | q in seen :: parentFiles[q])[p := parentFiles[p]]
         == inherited + map q | q in seen + {p} :: parentFiles[q]
  {
  }

  method Merge(inherited: Files, parentFiles: Files) returns (r: Result<Files, LoadError>)
    ensures r.Ok? <==> forall p | p in inherited && p in parentFiles :: inherited[p] == parentFiles[p]
    ensures r.Ok? ==> r.value == inherited + parentFiles
  {
    var merged, rest := inherited, parentFiles.Keys;
    while rest != {}
      invariant rest <= parentFiles.Keys
      invariant merged == inherited + map p | p in parentFiles.Keys - rest :: parentFiles[p]
      invariant forall p | p in inherited && p in parentFiles && p !in rest :: inherited[p] == parentFiles[p]
    {
      var p :| p in rest;
      if p in merged && merged[p] != parentFiles[p] {
        assert p in inherited;
        return Err(ParentConflict);
      }
      MergeOne(inherited, parentFiles, parentFiles.Keys - rest, p);
      assert parentFiles.Keys - (rest - {p}) == parentFiles.Keys - rest + {p};
      merged, rest := merged[p := parentFiles[p]], rest - {p};
    }
    assert parentFiles == map p | p in parentFiles.Keys - rest :: parentFiles[p];
    return Ok(merged);
  }

  lemma MergeKeepsRepresentation(env: Env, parents: seq<Id>, a: Id, inherited: Files, f: Files)
    requires MergedParents(env, parents, inherited) && Represents(env, a, f)
    requires forall p | p in inherited && p in f :: inherited[p] == f[p]
    ensures MergedParents(env, parents + [a], inherited + f)
  {
    hide Sees;
    forall e ensures Has(inherited + f, e) <==> exists x :: x in parents + [a] && Sees(env, x, e) {
      assert Has(inherited + f, e) <==> Has(inherited, e) || Has(f, e);
      if Sees(env, a, e) {
        assert a in parents + [a];
      }
      if exists x :: x in parents && Sees(env, x, e) {
        var x :| x in parents && Sees(env, x, e);
        assert x in parents + [a];
      }
    }
  }

  lemma MergeConflict(env: Env, id: Id, k: nat, inherited: Files, f: Files, p: Path)
    requires Fetched(env, id)
    requires var parents := ParentIds(env.manifests[id.key]);
             k < |parents| && MergedParents(env, parents[..k], inherited) && Represents(env, parents[k], f)
    requires p in inherited && p in f && inherited[p] != f[p]
    ensures Conflict(env, id)
  {
    var parents := ParentIds(env.manifests[id.key]);
    assert Has(inherited, inherited[p]) && Has(f, f[p]);
    var a :| a in parents[..k] && Sees(env, a, inherited[p]);
    assert Step(env, id, a) && Step(env, id, parents[k]);
  }

  lemma NoConflict(env: Env, id: Id, inherited: Files)
    requires Fetched(env, id) && MergedParents(env, ParentIds(env.manifests[id.key]), inherited)
    ensures !Conflict(env, id)
  {
    hide Sees;
    forall a, b, e, e' | Step(env, id, a) && Step(env, id, b) && Sees(env, a, e) && Sees(env, b, e')
                         && e.path == e'.path
      ensures e == e'
    {
      assert Has(inherited, e) && Has(inherited, e');
    }
  }

  lemma UnsoundAt(env: Env, root: Id, id: Id)
    requires Reaches(env, root, id) && !SoundAt(env, id)
    ensures !Sound(env, root)
  {
  }

  lemma TooLarge(env: Env, root: Id, id: Id, f: Files)
    requires Reaches(env, root, id) && Represents(env, id, f) && |f| > MAX_MATERIALIZED_FILES
    ensures !Sound(env, root)
  {
    hide Represents, Reaches;
    assert !SoundAt(env, id);
  }

  lemma CachedRepresents(env: Env, done: seq<Id>, cache: map<Id, Files>, id: Id)
    requires Completed(env, done, cache) && id in cache
    ensures Represents(env, id, cache[id])
  {
    hide Represents, Conflict;
    var j :| 0 <= j < |done| && done[j] == id;
    assert Settled(env, done[..j], id, cache[id]);
  }

  lemma CompletedSnoc(env: Env, done: seq<Id>, cache: map<Id, Files>, id: Id, f: Files)
    requires Completed(env, done, cache) && id !in cache && Settled(env, done, id, f)
    ensures Completed(env, done + [id], cache[id := f])
  {
    hide Settled;
    Sequences.PrefixAll(done);
    Sequences.DropSnoc(done, id);
    forall i | 0 <= i < |done| ensures (done + [id])[..i] == done[..i] {
    }
  }

  lemma RemoveAdded<T>(s: set<T>, x: T)
    requires x !in s
    ensures s + {x} - {x} == s
  {
  }

  lemma MapPlusUpdate<K, V>(m: map<K, V>, n: map<K, V>, k: K, v: V)
    ensures (m + n)[k := v] == m + n[k := v]
  {
  }

  ghost predicate AllIn(ids: seq<Id>, cache: map<Id, Files>) {
    forall a | a in ids :: a in cache
  }

  lemma AllInSnoc(ids: seq<Id>, i: nat, cache: map<Id, Files>, cache': map<Id, Files>)
    requires i < |ids| && AllIn(ids[..i], cache) && cache.Keys <= cache'.Keys && ids[i] in cache'
    ensures AllIn(ids[..i + 1], cache')
  {
    Sequences.PrefixSnoc(ids, i);
  }

  /** Every manifest counted is reachable, and either completed or on the active path. */
  ghost predicate Consistent(env: Env, root: Id, active: set<Id>, cache: map<Id, Files>, loadedCount: nat, done: seq<Id>) {
    && loadedCount == |done| + |active|
    && active !! cache.Keys
    && (forall a | a in active :: Fetched(env, a) && Reaches(env, root, a))
    && (forall d | d in cache :: Reaches(env, root, d))
    && Completed(env, done, cache)
  }

  lemma EnterNode(env: Env, root: Id, active: set<Id>, cache: map<Id, Files>, loadedCount: nat, done: seq<Id>, id: Id)
    requires Consistent(env, root, active, cache, loadedCount, done)
    requires id !in active && id !in cache && Fetched(env, id) && Reaches(env, root, id)
    ensures Consistent(env, root, active + {id}, cache, loadedCount + 1, done)
  {
    hide Fetched, Reaches, Completed;
  }

  lemma LeaveNode(env: Env, root: Id, before: set<Id>, cache: map<Id, Files>, loadedCount: nat, done: seq<Id>,
                  id: Id, f: Files)
    requires Consistent(env, root, before + {id}, cache, loadedCount, done) && id !in before
    requires Settled(env, done, id, f)
    ensures Consistent(env, root, before, cache[id := f], loadedCount, done + [id])
  {
    assert id in before + {id};
    CompletedSnoc(env, done, cache, id, f);
    hide Fetched, Reaches, Completed, Settled;
  }

  lemma TooMany(env: Env, root: Id, done: seq<Id>, cache: map<Id, Files>, active: set<Id>, loadedCount: nat, id: Id)
    requires Consistent(env, root, active, cache, loadedCount, done) && id !in active && id !in cache
    requires Reaches(env, root, id) && loadedCount + 1 > MAX_OVERLAY_MANIFESTS
    ensures !Sound(env, root)
  {
    hide Reaches, Settled, SoundAt, Fetched, Consistent, Sound;
    CountLoaded(env, root, active, cache, loadedCount, done);
    var loaded := cache.Keys + active;
    assert |loaded + {id}| == |loaded| + 1;
    ReachesTooMany(env, root, loaded + {id});
  }

  lemma ReachesTooMany(env: Env, root: Id, s: set<Id>)
    requires |s| > MAX_OVERLAY_MANIFESTS && forall x | x in s :: Reaches(env, root, x)
    ensures !Sound(env, root)
  {
    hide Reaches, SoundAt;
  }

  lemma CountLoaded(env: Env, root: Id, active: set<Id>, cache: map<Id, Files>, loadedCount: nat, done: seq<Id>)
    requires Consistent(env, root, active, cache, loadedCount, done)
    ensures |cache.Keys + active| == loadedCount && forall x | x in cache.Keys + active :: Reaches(env, root, x)
  {
    hide Reaches, Settled, Fetched;
    SetOfDistinct(done, cache.Keys);
    assert |cache.Keys + active| == |cache.Keys| + |active|;
  }

  lemma ConsistentFacts(env: Env, root: Id, active: set<Id>, cache: map<Id, Files>, loadedCount: nat, done: seq<Id>)
    requires Consistent(env, root, active, cache, loadedCount, done)
    ensures forall id | id in cache :: id in done && Represents(env, id, cache[id])
    ensures forall id | id in active :: id !in cache
  {
    hide Fetched, Reaches, Represents;
    forall id | id in cache ensures Represents(env, id, cache[id]) {
      CachedRepresents(env, done, cache, id);
    }
  }

  /** The memoised depth-first loader; its fields are the variables its closure updates. */
  class OverlayLoader {
    const env: Env
    ghost const root: Id
    var active: set<Id>
    var cache: map<Id, Files>
    var loadedCount: nat
    ghost var done: seq<Id>

    ghost predicate Valid()
      reads this
    {
      Consistent(env, root, active, cache, loadedCount, done)
    }

    constructor (env: Env, root: Id)
      ensures this.env == env && this.root == root
      ensures Valid() && active == {} && cache == map[] && done == []
    {
      this.env, this.root := env, root;
      active, cache, loadedCount, done := {}, map[], 0, [];
    }

    method Load(id: Id) returns (r: Result<Files, LoadError>)
      requires Valid()
      requires Reaches(env, root, id)
      requires forall a | a in active :: Below(env, a, id)
      modifies this
      decreases MAX_OVERLAY_MANIFESTS - loadedCount, 1
      ensures r.Ok? ==> Valid() && active == old(active) && Grown(old(done), old(cache))
                        && id in cache && cache[id] == r.value
                        && old(loadedCount) <= loadedCount
                        && (loadedCount <= MAX_OVERLAY_MANIFESTS || loadedCount == old(loadedCount))
      ensures r.Err? ==> !Sound(env, root)
    {
      if id in active {
        UnsoundAt(env, root, id);
        return Err(ParentCycle);
      }
      hide Reaches, Below, Completed, Settled, Represents, Conflict, SoundAt, Consistent, Sound;
      if id in cache {
        return Ok(cache[id]);
      }
      if loadedCount + 1 > MAX_OVERLAY_MANIFESTS {
        TooMany(env, root, done, cache, active, loadedCount, id);
        return Err(TooManyManifests);
      }
      var download := Download(env, id);
      if download.Err? {
        Unfetched(env, root, id);
        return Err(download.error);
      }
      r := LoadParents(id, download.value);
    }

    ghost predicate Grown(done0: seq<Id>, cache0: map<Id, Files>)
      reads this
    {
      done0 <= done && cache0.Keys <= cache.Keys
    }

    /** The state while the parents of id are visited. */
    ghost predicate Visiting(id: Id, before: set<Id>)
      reads this
    {
      && Valid() && id !in before && active == before + {id} && id !in cache
      && loadedCount <= MAX_OVERLAY_MANIFESTS
      && Fetched(env, id) && Reaches(env, root, id)
      && forall a | a in before :: Below(env, a, id)
    }

    method LoadParents(id: Id, manifest: Manifest) returns (r: Result<Files, LoadError>)
      requires Valid() && Fetched(env, id) && manifest == env.manifests[id.key]
      requires id !in active && id !in cache && loadedCount < MAX_OVERLAY_MANIFESTS
      requires Reaches(env, root, id)
      requires forall a | a in active :: Below(env, a, id)
      modifies this
      decreases MAX_OVERLAY_MANIFESTS - loadedCount, 0
      ensures r.Ok? ==> Valid() && active == old(active) && Grown(old(done), old(cache))
                        && id in cache && cache[id] == r.value
                        && old(loadedCount) <= loadedCount <= MAX_OVERLAY_MANIFESTS
      ensures r.Err? ==> !Sound(env, root)
    {
      hide Consistent, Settled, Completed, Represents, Conflict, Reaches, Below, MergedParents, Sound, SoundAt,
           Fetched, WellFormed, AllIn, OwnFiles, Step;
      ghost var before, parents := active, ParentIds(manifest);
      NothingMerged(env, cache);
      EnterNode(env, root, active, cache, loadedCount, done, id);
      active, loadedCount := active + {id}, loadedCount + 1;
      var inherited: Files := map[];
      for i := 0 to |manifest.parents|
        invariant Visiting(id, before) && Grown(old(done), old(cache))
        invariant old(loadedCount) < loadedCount
        invariant AllIn(parents[..i], cache)
        invariant MergedParents(env, parents[..i], inherited)
      {
        ghost var cache0 := cache;
        var merged := LoadParent(id, manifest, i, inherited, before);
        if merged.Err? {
          return Err(merged.error);
        }
        AllInSnoc(parents, i, cache0, cache);
        inherited := merged.value;
      }
      Sequences.PrefixAll(parents);
      r := Finish(id, manifest, inherited, before);
    }

    method LoadParent(id: Id, manifest: Manifest, i: nat, inherited: Files, ghost before: set<Id>)
      returns (r: Result<Files, LoadError>)
      requires Visiting(id, before) && manifest == env.manifests[id.key] && i < |manifest.parents|
      requires MergedParents(env, ParentIds(manifest)[..i], inherited)
      modifies this
      decreases MAX_OVERLAY_MANIFESTS - loadedCount, 2
      ensures r.Ok? ==> Visiting(id, before) && Grown(old(done), old(cache)) && ParentIds(manifest)[i] in cache
                        && old(loadedCount) <= loadedCount
                        && MergedParents(env, ParentIds(manifest)[..i + 1], r.value)
      ensures r.Err? ==> !Sound(env, root)
    {
      hide Consistent, Settled, Completed, Represents, Conflict, Reaches, Below, MergedParents, Sound, SoundAt,
           Fetched, WellFormed, AllIn, OwnFiles;
      ghost var parents := ParentIds(manifest);
      var parent := Id(manifest.parents[i].manifestKey, manifest.parents[i].checksum);
      assert parent == parents[i] && Step(env, id, parent);
      ReachesStep(env, root, id, parent);
      BelowStep(env, id, parent);
      forall a | a in before ensures Below(env, a, parent) {
        BelowThenStep(env, a, id, parent);
      }
      var loaded := Load(parent);
      if loaded.Err? {
        return Err(loaded.error);
      }
      ConsistentFacts(env, root, active, cache, loadedCount, done);
      r := Merge(inherited, loaded.value);
      if r.Err? {
        ghost var p :| p in inherited && p in loaded.value && inherited[p] != loaded.value[p];
        MergeConflict(env, id, i, inherited, loaded.value, p);
        Conflicting(env, root, id);
      } else {
        MergeKeepsRepresentation(env, parents[..i], parent, inherited, loaded.value);
        Sequences.PrefixSnoc(parents, i);
      }
    }

    method Store(id: Id, files: Files, ghost before: set<Id>)
      requires Valid() && id !in before && active == before + {id} && Settled(env, done, id, files)
      modifies this
      ensures Valid() && active == before && Grown(old(done), old(cache))
      ensures id in cache && cache[id] == files && loadedCount == old(loadedCount)
    {
      hide Consistent, Settled, Completed, Represents, Conflict, Reaches, Below, MergedParents, Sound, SoundAt,
           Fetched, WellFormed, AllIn, OwnFiles, Step;
      LeaveNode(env, root, before, cache, loadedCount, done, id, files);
      RemoveAdded(before, id);
      active, cache, done := active - {id}, cache[id := files], done + [id];
    }

    /** Own files override what was inherited; the node then leaves the active path. */
    method Finish(id: Id, manifest: Manifest, inherited: Files, ghost before: set<Id>)
      returns (r: Result<Files, LoadError>)
      requires Visiting(id, before) && manifest == env.manifests[id.key]
      requires MergedParents(env, ParentIds(manifest), inherited)
      requires AllIn(ParentIds(manifest), cache)
      modifies this
      ensures r.Ok? ==> Valid() && active == before && Grown(old(done), old(cache))
                        && id in cache && cache[id] == r.value && loadedCount == old(loadedCount)
      ensures r.Err? ==> !Sound(env, root)
    {
      hide Consistent, Settled, Completed, Represents, Conflict, Reaches, Below, MergedParents, Sound, SoundAt,
           Fetched, WellFormed, AllIn, OwnFiles, Step;
      NodeSettles(env, root, before + {id}, cache, loadedCount, done, id, inherited);
      var files := AddOwnFiles(inherited, manifest.files);
      if |files| > MAX_MATERIALIZED_FILES {
        TooLarge(env, root, id, files);
        return Err(TooManyFiles);
      }
      Store(id, files, before);
      return Ok(files);
    }
  }

  lemma NodeSettles(env: Env, root: Id, active: set<Id>, cache: map<Id, Files>, loadedCount: nat, done: seq<Id>,
                    id: Id, inherited: Files)
    requires Consistent(env, root, active, cache, loadedCount, done) && Fetched(env, id)
    requires MergedParents(env, ParentIds(env.manifests[id.key]), inherited)
    requires AllIn(ParentIds(env.manifests[id.key]), cache)
    ensures var f := inherited + OwnFiles(env.manifests[id.key].files);
            Represents(env, id, f) && (|f| <= MAX_MATERIALIZED_FILES ==> Settled(env, done, id, f))
  {
    NoConflict(env, id, inherited);
    OverlayAtNode(env, id, inherited);
    ConsistentFacts(env, root, active, cache, loadedCount, done);
    hide Represents, Conflict, Reaches, MergedParents;
    forall a | Step(env, id, a) ensures a in done {
      assert a in ParentIds(env.manifests[id.key]);
    }
  }

  lemma Unfetched(env: Env, root: Id, id: Id)
    requires Reaches(env, root, id) && !Fetched(env, id)
    ensures !Sound(env, root)
  {
  }

  lemma NothingMerged(env: Env, cache: map<Id, Files>)
    ensures MergedParents(env, [], map[]) && AllIn([], cache)
  {
  }

  lemma Conflicting(env: Env, root: Id, id: Id)
    requires Reaches(env, root, id) && Conflict(env, id)
    ensures !Sound(env, root)
  {
  }

  method AddOwnFiles(inherited: Files, files: seq<File>) returns (f: Files)
    ensures f == inherited + OwnFiles(files)
  {
    f := inherited;
    for i := 0 to |files|
      invariant f == inherited + OwnFiles(files[..i])
    {
      Sequences.PrefixSnoc(files, i);
      Sequences.DropSnoc(files[..i], files[i]);
      MapPlusUpdate(inherited, OwnFiles(files[..i]), files[i].path, files[i]);
      f := f[files[i].path := files[i]];
    }
    Sequences.PrefixAll(files);
  }

  /** Exactly the manifests that a resolution from root downloads. */
  ghost predicate ReachableSet(env: Env, root: Id, s: set<Id>) {
    forall id :: id in s <==> Reaches(env, root, id)
  }

  /**
   * The overlay of a manifest: loaded if and only if its graph is sound, exactly as the graph shows
   * it, and downloading each reachable manifest once.
   */
  method LoadManifestOverlay(env: Env, key: Key, checksum: Hash) returns (r: Result<Files, LoadError>, loads: nat)
    ensures r.Ok? <==> Sound(env, Id(key, checksum))
    ensures r.Ok? ==> Represents(env, Id(key, checksum), r.value)
    ensures r.Ok? ==> exists s: set<Id> :: ReachableSet(env, Id(key, checksum), s) && |s| == loads
  {
    var root := Id(key, checksum);
    var loader := new OverlayLoader(env, root);
    ReachesSelf(env, root);
    r := loader.Load(root);
    loads := loader.loadedCount;
    if r.Ok? {
      LoadedExactly(env, loader.done, loader.cache, root);
      assert ReachableSet(env, root, loader.cache.Keys);
      RootCompleted(env, loader.done, loader.cache, root);
    }
  }
}
