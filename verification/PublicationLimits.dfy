/**
 * Publications that are accepted although the manifest they write cannot be loaded
 * (shared/stage_workspace.py): one concrete input for each clause of the condition under which a published
 * manifest resolves.
 */
module PublicationLimits {
  import opened ArtifactOverlay
  import opened OverlayGrowth
  import opened WorkspaceTransfer
  import opened WorkspaceRestore
  import Ordering
  import Sequences

  /** Everything the publication checks: parents, their agreement, and the request over what they show. */
  ghost predicate Accepted(env: Env, t: Tenant, request: Request, files: seq<LocalFile>, inherited: Files) {
    && ParentsSound(env, RequestIds(request)) && ParentsAgree(env, RequestIds(request))
    && MergedParents(env, RequestIds(request), inherited) && Publishable(t, request, inherited, files)
  }

  /** The manifest just written can be loaded. */
  ghost predicate Loadable(env: Env, t: Tenant, request: Request, files: seq<LocalFile>, inherited: Files) {
    var m := Published(t, request, inherited, files);
    Sound(Grow(env, ManifestKey(request), m), Id(ManifestKey(request), t.manifestDigest(m)))
  }

  function Store(t: Tenant, manifests: map<Key, Manifest>): Env {
    ArtifactOverlay.Env(manifests, t.manifestDigest, t.organization)
  }

  function ParentAt(t: Tenant, key: Key, m: Manifest): Parent {
    Parent("parent", key, t.manifestDigest(m))
  }

  function Plain(prefix: string, parents: seq<Parent>): Request {
    Request(prefix, "file", map[], parents, false, {})
  }

  /** Publishing nothing over at most one parent writes a manifest of that parent alone. */
  lemma NothingPublished(t: Tenant, prefix: string, parents: seq<Parent>)
    requires |parents| <= 1 && forall p | p in parents :: MANIFEST_SUFFIX <= Tail(p.manifestKey)
    ensures Published(t, Plain(prefix, parents), map[], []) == Manifest([], parents, t.organization)
    ensures WellFormed(Manifest([], parents, t.organization)) && Publishable(t, Plain(prefix, parents), map[], [])
  {
    hide WellFormed, Tail, Ordering.Sort;
    SortOne(parents);
    FilelessWellFormed(t.organization, parents);
    SortNone();
  }

  lemma SortNone()
    ensures Ordering.Sort(FileLeq, []) == []
  {
  }

  lemma FilelessWellFormed(organization: string, parents: seq<Parent>)
    requires |parents| <= 1 && forall p | p in parents :: MANIFEST_SUFFIX <= Tail(p.manifestKey)
    ensures WellFormed(Manifest([], parents, organization))
  {
    hide CasKey;
  }

  lemma SortOne(parents: seq<Parent>)
    requires |parents| <= 1
    ensures Ordering.Sort(ParentLeq, parents) == parents
  {
    if |parents| == 1 {
      assert parents == [parents[0]] && parents[1..] == [];
    }
  }

  function Tail(key: Key): string {
    key[if |key| < |MANIFEST_SUFFIX| then 0 else |key| - |MANIFEST_SUFFIX|..]
  }

  lemma SuffixOfKey(prefix: string)
    ensures MANIFEST_SUFFIX <= Tail(prefix + MANIFEST_SUFFIX)
  {
    assert Tail(prefix + MANIFEST_SUFFIX) == MANIFEST_SUFFIX;
  }

  // ----- A chain of manifests without files -----

  /** A prefix of n + 1 letters. */
  function Letters(n: nat): string {
    seq(n + 1, _ => 'a')
  }

  function ChainKey(n: nat): Key { Letters(n) + MANIFEST_SUFFIX }

  function ChainParents(t: Tenant, n: nat): seq<Parent> {
    if n == 0 then [] else [ParentAt(t, ChainKey(n - 1), ChainManifest(t, n - 1))]
  }

  function ChainManifest(t: Tenant, n: nat): Manifest
    decreases n, 0
  {
    Manifest([], if n == 0 then [] else [ParentAt(t, ChainKey(n - 1), ChainManifest(t, n - 1))], t.organization)
  }

  function ChainId(t: Tenant, n: nat): Id { Id(ChainKey(n), t.manifestDigest(ChainManifest(t, n))) }

  /** A store with a chain of n manifests, each the parent of the next. */
  function ChainStore(t: Tenant, n: nat): map<Key, Manifest> {
    if n == 0 then map[] else ChainStore(t, n - 1)[ChainKey(n - 1) := ChainManifest(t, n - 1)]
  }

  function ChainIds(t: Tenant, n: nat): set<Id> {
    if n == 0 then {} else ChainIds(t, n - 1) + {ChainId(t, n - 1)}
  }

  lemma {:induction false} ChainIdsFacts(t: Tenant, n: nat)
    ensures |ChainIds(t, n)| == n
    ensures forall x | x in ChainIds(t, n) :: |x.key| < |ChainKey(n)|
  {
    if n > 0 {
      ChainIdsFacts(t, n - 1);
      assert |ChainId(t, n - 1).key| == |ChainKey(n - 1)| < |ChainKey(n)|;
      assert ChainId(t, n - 1) !in ChainIds(t, n - 1);
    }
  }

  /** What the next publication finds below it. */
  ghost predicate ChainReady(t: Tenant, n: nat) {
    var env, ids := Store(t, ChainStore(t, n)), RequestIds(Plain(Letters(n), ChainParents(t, n)));
    && AllSound(env, ids) && MergedParents(env, ids, map[])
    && forall x :: Ancestor(env, ids, x) <==> x in ChainIds(t, n)
  }

  lemma ChainRequest(t: Tenant, n: nat)
    ensures var request := Plain(Letters(n), ChainParents(t, n));
            && ManifestKey(request) == ChainKey(n)
            && Published(t, request, map[], []) == ChainManifest(t, n)
            && ParentIds(ChainManifest(t, n)) == RequestIds(request) == (if n == 0 then [] else [ChainId(t, n - 1)])
            && WellFormed(ChainManifest(t, n)) && Publishable(t, request, map[], [])
  {
    hide WellFormed, Published, Publishable, Tail, Letters;
    if n > 0 {
      SuffixOfKey(Letters(n - 1));
    }
    var parents := ChainParents(t, n);
    assert forall p | p in parents :: n > 0 && p == parents[0] && p.manifestKey == ChainKey(n - 1);
    NothingPublished(t, Letters(n), parents);
    assert ParentIds(ChainManifest(t, n)) == RequestIds(Plain(Letters(n), parents));
  }

  lemma ChainKeyUnused(t: Tenant, n: nat)
    requires ChainReady(t, n)
    ensures KeyUnused(Store(t, ChainStore(t, n)), RequestIds(Plain(Letters(n), ChainParents(t, n))), ChainKey(n))
  {
    hide AllSound, MergedParents, Ancestor;
    ChainIdsFacts(t, n);
  }

  lemma ChainRoom(t: Tenant, n: nat)
    requires ChainReady(t, n)
    ensures RoomForOne(Store(t, ChainStore(t, n)), RequestIds(Plain(Letters(n), ChainParents(t, n))))
            <==> n + 1 <= MAX_OVERLAY_MANIFESTS
  {
    hide AllSound, MergedParents, Ancestor;
    ChainIdsFacts(t, n);
    var env, ids := Store(t, ChainStore(t, n)), RequestIds(Plain(Letters(n), ChainParents(t, n)));
    forall s: set<Id> | forall x | x in s :: Ancestor(env, ids, x) ensures |s| <= n {
      SubsetSize(s, ChainIds(t, n));
    }
    assert forall x | x in ChainIds(t, n) :: Ancestor(env, ids, x);
  }

  lemma SubsetSize(a: set<Id>, b: set<Id>)
    requires a <= b
    ensures |a| <= |b|
  {
    assert b == a + (b - a);
  }

  /** Publishing one link after the other keeps the chain loadable, up to the limit. */
  lemma {:induction false} ChainGrows(t: Tenant, n: nat)
    requires CollisionFree(t) && n <= MAX_OVERLAY_MANIFESTS
    ensures ChainReady(t, n)
  {
    if n == 0 {
      NothingBelow(Store(t, map[]));
      assert RequestIds(Plain(Letters(0), [])) == [];
    } else {
      ChainGrows(t, n - 1);
      ChainLink(t, n - 1);
    }
  }

  /** A manifest written over parents, within the limits, becomes a parent itself. */
  lemma LinkGrows(env: Env, key: Key, m: Manifest, inherited: Files)
    requires WellFormed(m) && m.organization == env.organization && InjectiveDigest(env)
    requires AllSound(env, ParentIds(m)) && MergedParents(env, ParentIds(m), inherited)
    requires KeyUnused(env, ParentIds(m), key) && RoomForOne(env, ParentIds(m))
    requires |inherited + OwnFiles(m.files)| <= MAX_MATERIALIZED_FILES
    ensures var env', root := Grow(env, key, m), Id(key, env.hash(m));
            && AllSound(env', [root]) && MergedParents(env', [root], inherited + OwnFiles(m.files))
            && forall x :: Ancestor(env', [root], x) <==> x == root || Ancestor(env, ParentIds(m), x)
  {
    hide KeyUnused, RoomForOne, AllSound, MergedParents, Sound, Represents, Ancestor, Reaches, WellFormed, Fetched,
         InjectiveDigest, ParentIds, OwnFiles;
    var env', root := Grow(env, key, m), Id(key, env.hash(m));
    GrowthExact(env, key, m, inherited);
    OneParent(env', root, inherited + OwnFiles(m.files));
    GrownFetched(env', root);
    forall x ensures Reaches(env', root, x) <==> x == root || Ancestor(env, ParentIds(m), x) {
      GrownReaches(env, key, m, x);
    }
  }

  lemma ChainLink(t: Tenant, n: nat)
    requires CollisionFree(t) && n < MAX_OVERLAY_MANIFESTS && ChainReady(t, n)
    ensures ChainReady(t, n + 1)
  {
    hide KeyUnused, RoomForOne, AllSound, MergedParents, Ancestor, WellFormed, Publishable, Published, ChainManifest,
         ManifestKey, ParentIds, RequestIds, OwnFiles, ChainStore, ChainIds, RequestIds, ChainKey, Letters;
    var env, m := Store(t, ChainStore(t, n)), ChainManifest(t, n);
    ChainRequest(t, n);
    ChainRequest(t, n + 1);
    ChainShape(t, n);
    ChainKeyUnused(t, n);
    ChainRoom(t, n);
    NoOwnFiles(m.files);
    LinkGrows(env, ChainKey(n), m, map[]);
    ChainStoreGrows(t, n);
  }

  lemma ChainStoreGrows(t: Tenant, n: nat)
    ensures Store(t, ChainStore(t, n + 1)) == Grow(Store(t, ChainStore(t, n)), ChainKey(n), ChainManifest(t, n))
  {
    hide ChainKey, ChainManifest;
  }

  lemma ChainShape(t: Tenant, n: nat)
    requires CollisionFree(t)
    ensures ChainManifest(t, n).files == [] && ChainManifest(t, n).organization == t.organization
    ensures InjectiveDigest(Store(t, ChainStore(t, n)))
    ensures ChainIds(t, n + 1) == ChainIds(t, n) + {ChainId(t, n)}
  {
  }

  lemma NoOwnFiles(files: seq<File>)
    requires files == []
    ensures map[] + OwnFiles(files) == map[] && |map[] + OwnFiles(files)| == 0
  {
  }

  lemma GrownFetched(env: Env, root: Id)
    requires Sound(env, root)
    ensures Fetched(env, root)
  {
    ReachesSelf(env, root);
    hide Reaches, Fetched;
  }

  lemma OneParent(env: Env, root: Id, f: Files)
    ensures AllSound(env, [root]) <==> Sound(env, root)
    ensures MergedParents(env, [root], f) <==> Represents(env, root, f)
    ensures forall x :: Ancestor(env, [root], x) <==> Reaches(env, root, x)
  {
    hide Sound, Reaches, Sees;
    assert root in [root];
  }

  // ----- One input for each clause -----

  /** A manifest published over its own parent, at the parent's key. */
  lemma InPlaceAcceptedUnloadable(t: Tenant)
    requires CollisionFree(t)
    ensures var parent := Manifest([], [], t.organization);
            var env, request := Store(t, map["a/manifest.json" := parent]), Plain("a", [ParentAt(t, "a/manifest.json", parent)]);
            Accepted(env, t, request, [], map[]) && !Loadable(env, t, request, [], map[])
  {
    var key: Key := "a/manifest.json";
    var parent := Manifest([], [], t.organization);
    var env, request := Store(t, map[key := parent]), Plain("a", [ParentAt(t, key, parent)]);
    InPlaceKey();
    ChainGrows(t, 1);
    ChainRequest(t, 1);
    assert ChainStore(t, 0) == map[];
    assert Store(t, ChainStore(t, 1)) == env && RequestIds(request) == RequestIds(Plain(Letters(1), ChainParents(t, 1)));
    NothingPublished(t, "a", [ParentAt(t, key, parent)]);
    RequestIdsOne(t, key, parent);
    ParentIsAncestor(env, RequestIds(request), Id(key, t.manifestDigest(parent)));
    hide Sound, MergedParents, Ancestor, CollisionFree;
    AgreementHolds(env, RequestIds(request), map[]);
    PublishedResolves(env, t, request, map[], []);
  }

  lemma InPlaceKey()
    ensures ChainKey(0) == "a/manifest.json" == "a" + MANIFEST_SUFFIX
    ensures MANIFEST_SUFFIX <= Tail("a/manifest.json")
  {
    hide Tail;
    assert Letters(0) == "a";
    assert "a" + MANIFEST_SUFFIX == "a/manifest.json";
    SuffixOfKey("a");
  }

  lemma RequestIdsOne(t: Tenant, key: Key, parent: Manifest)
    ensures RequestIds(Plain("a", [ParentAt(t, key, parent)])) == [Id(key, t.manifestDigest(parent))]
  {
  }

  /** The link after the last one the loader follows. */
  lemma ChainAcceptedUnloadable(t: Tenant)
    requires CollisionFree(t)
    ensures var env, request := Store(t, ChainStore(t, 64)), Plain(Letters(64), ChainParents(t, 64));
            Accepted(env, t, request, [], map[]) && !Loadable(env, t, request, [], map[])
  {
    var env, request := Store(t, ChainStore(t, 64)), Plain(Letters(64), ChainParents(t, 64));
    ChainGrows(t, 64);
    ChainRequest(t, 64);
    ChainRoom(t, 64);
    hide Sound, MergedParents, Ancestor, CollisionFree, RoomForOne, KeyUnused, ChainStore, ChainManifest, Letters, Published,
         Publishable;
    AgreementHolds(env, RequestIds(request), map[]);
    PublishedResolves(env, t, request, map[], []);
  }

  function Digit(d: nat): char
    requires d < 10
  {
    ['0', '1', '2', '3', '4', '5', '6', '7', '8', '9'][d]
  }

  function Numeral(n: nat): string {
    if n < 10 then [Digit(n)] else Numeral(n / 10) + [Digit(n % 10)]
  }

  lemma {:induction false} NumeralInjective(m: nat, n: nat)
    requires Numeral(m) == Numeral(n)
    ensures m == n
  {
    if m >= 10 && n >= 10 {
      Sequences.DropSnoc(Numeral(m / 10), Digit(m % 10));
      Sequences.DropSnoc(Numeral(n / 10), Digit(n % 10));
      assert Digit(m % 10) == Numeral(m)[|Numeral(m)| - 1] == Digit(n % 10);
      NumeralInjective(m / 10, n / 10);
    }
  }

  /** As many digits as the power of ten below which the number stays. */
  lemma {:induction false} NumeralShort(n: nat, digits: nat)
    requires n < PowerOfTen(digits) && digits > 0
    ensures 0 < |Numeral(n)| <= digits && '/' !in Numeral(n)
  {
    if n >= 10 {
      NumeralShort(n / 10, digits - 1);
    }
  }

  function PowerOfTen(k: nat): nat {
    if k == 0 then 1 else 10 * PowerOfTen(k - 1)
  }

  /** n empty files, named by their numbers. */
  function ManyFiles(n: nat): seq<LocalFile> {
    seq(n, i requires 0 <= i < n => LocalFile(Numeral(i), [], false))
  }

  lemma ManyPaths(n: nat)
    ensures DistinctPaths(ManyFiles(n)) && |LocalPaths(ManyFiles(n))| == n
  {
    hide Numeral;
    forall i, j | 0 <= i < j < n ensures ManyFiles(n)[i].path != ManyFiles(n)[j].path {
      if Numeral(i) == Numeral(j) {
        NumeralInjective(i, j);
        assert false;
      }
    }
    CountPaths(ManyFiles(n));
  }

  lemma ShortNames(n: nat)
    requires n <= 1_000_000
    ensures forall f | f in ManyFiles(n) :: 0 < |f.path| <= 6 && '/' !in f.path
  {
    hide Numeral;
    assert PowerOfTen(6) == 1_000_000;
    forall f | f in ManyFiles(n) ensures 0 < |f.path| <= 6 && '/' !in f.path {
      var i :| 0 <= i < n && ManyFiles(n)[i] == f;
      NumeralShort(i, 6);
    }
  }

  lemma {:induction false} CountPaths(files: seq<LocalFile>)
    requires DistinctPaths(files)
    ensures |LocalPaths(files)| == |files|
  {
    if files == [] {
      assert LocalPaths(files) == {};
    } else {
      var init, last := files[..|files| - 1], files[|files| - 1];
      assert files == init + [last];
      CountPaths(init);
      assert last.path !in LocalPaths(init);
      assert LocalPaths(files) == LocalPaths(init) + {last.path};
    }
  }

  /** New files of distinct paths make a well-formed manifest. */
  lemma {:induction false} NewEntriesDistinct(t: Tenant, request: Request, files: seq<LocalFile>)
    requires DistinctPaths(files) && request.unchangedPaths == {}
    ensures var entries := NewEntries(t, request, map[], files);
            && (forall i, j | 0 <= i < j < |entries| :: entries[i].path != entries[j].path)
            && (forall e | e in entries :: e.path in LocalPaths(files) && e.blob.key == CasKey(t.organization, e.blob.checksum))
  {
    hide CasKey;
    if files != [] {
      var init, last := files[..|files| - 1], files[|files| - 1];
      assert files == init + [last];
      NewEntriesDistinct(t, request, init);
      assert last.path !in LocalPaths(init);
      assert EntryFor(t, request, map[], last).Ok?;
    }
  }

  lemma FreshWellFormed(t: Tenant, request: Request, files: seq<LocalFile>)
    requires DistinctPaths(files) && request.unchangedPaths == {} && request.parents == []
    ensures WellFormed(Published(t, request, map[], files))
  {
    hide NewEntries, CasKey, Ordering.Sort, DistinctPaths, LocalPaths;
    var entries := NewEntries(t, request, map[], files);
    NewEntriesDistinct(t, request, files);
    var m := Published(t, request, map[], files);
    Ordering.DistinctReordered((e: File) => e.path, entries, m.files);
    forall e | e in m.files ensures e in entries {
      assert e in multiset(m.files);
    }
    EmptyBag(m.parents);
  }

  lemma EmptyBag(parents: seq<Parent>)
    requires multiset(parents) == multiset{}
    ensures parents == []
  {
    assert |multiset(parents)| == |parents|;
  }

  lemma FreshPublishable(t: Tenant, prefix: string, files: seq<LocalFile>)
    requires DistinctPaths(files) && forall f | f in files :: !f.symlink
    ensures Publishable(t, Plain(prefix, []), map[], files)
  {
    hide DistinctPaths, LocalPaths, WellFormed, Published, CasKey;
    FreshWellFormed(t, Plain(prefix, []), files);
  }

  /** One file more than the loader materialises, each with a name of at most six digits. */
  lemma FilesAcceptedUnloadable(t: Tenant)
    requires CollisionFree(t)
    ensures var env, request, files := Store(t, map[]), Plain("a", []), ManyFiles(100_001);
            && Accepted(env, t, request, files, map[]) && !Loadable(env, t, request, files, map[])
            && forall f | f in files :: 0 < |f.path| <= 6 && '/' !in f.path
  {
    var env, request, files := Store(t, map[]), Plain("a", []), ManyFiles(100_001);
    NothingBelow(env);
    assert RequestIds(request) == [];
    ManyPaths(100_001);
    ShortNames(100_001);
    hide ManyFiles, Numeral, CollisionFree;
    NoLinks(100_001);
    FreshPublishable(t, "a", files);
    hide Sound, MergedParents, Ancestor, RoomForOne, KeyUnused, Published, Publishable, DistinctPaths, LocalPaths;
    AgreementHolds(env, RequestIds(request), map[]);
    PublishedResolves(env, t, request, map[], files);
    EmptyPlus(map[], LocalPaths(files));
  }

  lemma EmptyPlus(nothing: Files, s: set<Path>)
    requires nothing == map[]
    ensures nothing.Keys + s == s
  {
  }

  lemma NoLinks(n: nat)
    ensures forall f | f in ManyFiles(n) :: !f.symlink
  {
  }
}
