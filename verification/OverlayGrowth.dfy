/**
 * What writing one more manifest does to overlay resolution. A publication checks its parents but
 * not the manifest it writes, so the exact condition for that manifest to resolve is stated here.
 */
module OverlayGrowth {
  import opened ArtifactOverlay

  function Grow(env: Env, key: Key, m: Manifest): Env {
    env.(manifests := env.manifests[key := m])
  }

  /** The manifests at or below the parents. */
  ghost predicate Ancestor(env: Env, ids: seq<Id>, x: Id) {
    exists a :: a in ids && Reaches(env, a, x)
  }

  ghost predicate KeyUnused(env: Env, ids: seq<Id>, key: Key) {
    forall x | Ancestor(env, ids, x) :: x.key != key
  }

  /** One manifest may still be added above the parents. */
  ghost predicate RoomForOne(env: Env, ids: seq<Id>) {
    forall s: set<Id> | forall x | x in s :: Ancestor(env, ids, x) :: |s| + 1 <= MAX_OVERLAY_MANIFESTS
  }

  ghost predicate InjectiveDigest(env: Env) {
    forall m, n | env.hash(m) == env.hash(n) :: m == n
  }

  lemma AncestorStep(env: Env, ids: seq<Id>, x: Id, y: Id)
    requires Ancestor(env, ids, x) && Step(env, x, y)
    ensures Ancestor(env, ids, y)
  {
    hide Reaches, Step;
    var a :| a in ids && Reaches(env, a, x);
    ReachesStep(env, a, x, y);
  }

  lemma ParentIsAncestor(env: Env, ids: seq<Id>, a: Id)
    requires a in ids
    ensures Ancestor(env, ids, a)
  {
    ReachesSelf(env, a);
  }

  lemma {:induction false} SameChains(env: Env, key: Key, m: Manifest, ids: seq<Id>, c: seq<Id>)
    requires KeyUnused(env, ids, key) && c != [] && Ancestor(env, ids, c[0])
    ensures Chain(env, c) <==> Chain(Grow(env, key, m), c)
    ensures Chain(env, c) ==> forall i | 0 <= i < |c| :: Ancestor(env, ids, c[i])
    decreases |c|
  {
    hide Ancestor, WellFormed;
    var env' := Grow(env, key, m);
    if 1 < |c| {
      assert Step(env, c[0], c[1]) <==> Step(env', c[0], c[1]);
      if Step(env, c[0], c[1]) {
        AncestorStep(env, ids, c[0], c[1]);
        SameChains(env, key, m, ids, c[1..]);
        ChainCons(env, c);
        ChainCons(env', c);
      }
    }
  }

  lemma ChainCons(env: Env, c: seq<Id>)
    requires 1 < |c|
    ensures Chain(env, c) <==> Step(env, c[0], c[1]) && Chain(env, c[1..])
  {
    hide Step;
    if Step(env, c[0], c[1]) && Chain(env, c[1..]) {
      forall i | 0 <= i < |c| - 1 ensures Step(env, c[i], c[i + 1]) {
        if 0 < i {
          assert Step(env, c[1..][i - 1], c[1..][i]);
        }
      }
    }
  }

  lemma SameReaches(env: Env, key: Key, m: Manifest, ids: seq<Id>, x: Id, y: Id)
    requires KeyUnused(env, ids, key) && Ancestor(env, ids, x)
    ensures Reaches(env, x, y) <==> Reaches(Grow(env, key, m), x, y)
    ensures Below(env, x, y) <==> Below(Grow(env, key, m), x, y)
    ensures Reaches(env, x, y) ==> Ancestor(env, ids, y)
  {
    hide Ancestor, Chain;
    var env' := Grow(env, key, m);
    forall c | c != [] && c[0] == x
      ensures ChainTo(env, c, x, y) <==> ChainTo(env', c, x, y)
      ensures ChainTo(env, c, x, y) ==> Ancestor(env, ids, y)
    {
      SameChains(env, key, m, ids, c);
    }
    forall c | ChainTo(env', c, x, y) ensures c != [] { ChainNonEmpty(env', c); }
    forall c | ChainTo(env, c, x, y) ensures c != [] { ChainNonEmpty(env, c); }
  }

  lemma ChainNonEmpty(env: Env, c: seq<Id>)
    requires Chain(env, c)
    ensures c != []
  {
  }

  lemma SameSees(env: Env, key: Key, m: Manifest, ids: seq<Id>, x: Id, e: File)
    requires KeyUnused(env, ids, key) && Ancestor(env, ids, x)
    ensures Sees(env, x, e) <==> Sees(Grow(env, key, m), x, e)
  {
    var env' := Grow(env, key, m);
    forall c | c != [] && c[0] == x ensures SeesVia(env, c, e) <==> SeesVia(env', c, e) {
      SameChains(env, key, m, ids, c);
      if Chain(env, c) {
        forall i | 0 <= i < |c| ensures OwnsPath(env, c[i], e.path) <==> OwnsPath(env', c[i], e.path)
                                ensures Owns(env, c[i], e) <==> Owns(env', c[i], e) {
          assert Ancestor(env, ids, c[i]);
          SameOwns(env, key, m, c[i], e);
        }
        hide Owns, OwnsPath, Ancestor;
      }
    }
  }

  lemma SameOwns(env: Env, key: Key, m: Manifest, x: Id, e: File)
    requires x.key != key
    ensures Owns(env, x, e) <==> Owns(Grow(env, key, m), x, e)
    ensures OwnsPath(env, x, e.path) <==> OwnsPath(Grow(env, key, m), x, e.path)
  {
    var env' := Grow(env, key, m);
    assert forall f :: Owns(env, x, f) <==> Owns(env', x, f);
    hide Owns;
  }

  lemma SameSoundAt(env: Env, key: Key, m: Manifest, ids: seq<Id>, x: Id)
    requires KeyUnused(env, ids, key) && Ancestor(env, ids, x)
    ensures SoundAt(env, x) ==> SoundAt(Grow(env, key, m), x)
  {
    var env' := Grow(env, key, m);
    SameReaches(env, key, m, ids, x, x);
    assert Fetched(env, x) <==> Fetched(env', x);
    forall y ensures Step(env, x, y) <==> Step(env', x, y)
             ensures Step(env, x, y) ==> Ancestor(env, ids, y) {
      if Step(env, x, y) {
        AncestorStep(env, ids, x, y);
      }
    }
    hide Fetched, Step, Below, Sees, KeyUnused, Ancestor;
    forall e ensures Sees(env, x, e) <==> Sees(env', x, e) {
      SameSees(env, key, m, ids, x, e);
    }
    forall y, e | Step(env, x, y) ensures Sees(env, y, e) <==> Sees(env', y, e) {
      SameSees(env, key, m, ids, y, e);
    }
    forall f ensures Represents(env, x, f) <==> Represents(env', x, f) {
    }
  }

  lemma GrownReaches(env: Env, key: Key, m: Manifest, x: Id)
    requires Fetched(Grow(env, key, m), Id(key, env.hash(m))) && KeyUnused(env, ParentIds(m), key)
    ensures Reaches(Grow(env, key, m), Id(key, env.hash(m)), x)
            <==> x == Id(key, env.hash(m)) || Ancestor(env, ParentIds(m), x)
  {
    hide KeyUnused, Fetched, ParentIds;
    var env', root, ids := Grow(env, key, m), Id(key, env.hash(m)), ParentIds(m);
    if Reaches(env', root, x) && x != root {
      var c :| ChainTo(env', c, root, x);
      ChainCons(env', c);
      assert c[1] in ids;
      ParentIsAncestor(env, ids, c[1]);
      assert ChainTo(env', c[1..], c[1], x);
      SameReaches(env, key, m, ids, c[1], x);
    }
    if x == root {
      ReachesSelf(env', root);
    } else if Ancestor(env, ids, x) {
      var a :| a in ids && Reaches(env, a, x);
      ParentIsAncestor(env, ids, a);
      SameReaches(env, key, m, ids, a, x);
      assert Step(env', root, a);
      StepReaches(env', root, a, x);
    }
  }

  ghost predicate AllSound(env: Env, ids: seq<Id>) {
    forall a | a in ids :: Sound(env, a)
  }

  lemma AncestorSound(env: Env, ids: seq<Id>, x: Id)
    requires AllSound(env, ids) && Ancestor(env, ids, x)
    ensures SoundAt(env, x)
  {
    hide SoundAt, Reaches;
  }

  lemma GrownMerge(env: Env, key: Key, m: Manifest, inherited: Files)
    requires KeyUnused(env, ParentIds(m), key) && MergedParents(env, ParentIds(m), inherited)
    ensures MergedParents(Grow(env, key, m), ParentIds(m), inherited)
  {
    hide KeyUnused, Sees, ParentIds;
    var env', ids := Grow(env, key, m), ParentIds(m);
    forall a, e | a in ids ensures Sees(env, a, e) <==> Sees(env', a, e) {
      ParentIsAncestor(env, ids, a);
      SameSees(env, key, m, ids, a, e);
    }
  }

  lemma RootAcyclic(env: Env, key: Key, m: Manifest)
    requires KeyUnused(env, ParentIds(m), key)
    ensures !Cyclic(Grow(env, key, m), Id(key, env.hash(m)))
  {
    hide Ancestor, ParentIds;
    var env', root, ids := Grow(env, key, m), Id(key, env.hash(m)), ParentIds(m);
    forall c | ChainTo(env', c, root, root) ensures |c| < 2 {
      if 2 <= |c| {
        ChainCons(env', c);
        assert c[1] in ids;
        ParentIsAncestor(env, ids, c[1]);
        assert ChainTo(env', c[1..], c[1], root);
        SameReaches(env, key, m, ids, c[1], root);
        assert false;
      }
    }
  }

  /** With an unused key and room left, the new manifest resolves exactly when its files are few enough. */
  lemma GrownSound(env: Env, key: Key, m: Manifest, inherited: Files)
    requires WellFormed(m) && m.organization == env.organization
    requires AllSound(env, ParentIds(m)) && MergedParents(env, ParentIds(m), inherited)
    requires KeyUnused(env, ParentIds(m), key)
    ensures var env', root, f := Grow(env, key, m), Id(key, env.hash(m)), inherited + OwnFiles(m.files);
            && Represents(env', root, f)
            && (Sound(env', root) <==> RoomForOne(env, ParentIds(m)) && |f| <= MAX_MATERIALIZED_FILES)
  {
    var env', root, ids := Grow(env, key, m), Id(key, env.hash(m)), ParentIds(m);
    var f := inherited + OwnFiles(m.files);
    assert Fetched(env', root);
    hide WellFormed, Fetched, MergedParents, ParentIds, OwnFiles, Below, Conflict, Represents, AllSound, Reaches;
    GrownMerge(env, key, m, inherited);
    OverlayAtNode(env', root, inherited);
    NoConflict(env', root, inherited);
    RootAcyclic(env, key, m);
    GrownRoom(env, key, m);
    forall x ensures Reaches(env', root, x) <==> x == root || Ancestor(env, ids, x) {
      GrownReaches(env, key, m, x);
    }
    forall x | Ancestor(env, ids, x) ensures SoundAt(env', x) {
      AncestorSound(env, ids, x);
      SameSoundAt(env, key, m, ids, x);
    }
    FewFilesOf(env', root, f);
    hide Ancestor, KeyUnused, RoomForOne, FewFiles, Grow, FewManifests;
    assert SoundAt(env', root) <==> |f| <= MAX_MATERIALIZED_FILES;
  }

  lemma FewFilesOf(env: Env, id: Id, f: Files)
    requires Represents(env, id, f)
    ensures FewFiles(env, id) <==> |f| <= MAX_MATERIALIZED_FILES
  {
    hide Represents;
    forall g | Represents(env, id, g) ensures g == f {
      RepresentsUnique(env, id, g, f);
    }
  }

  lemma GrownRoom(env: Env, key: Key, m: Manifest)
    requires Fetched(Grow(env, key, m), Id(key, env.hash(m))) && KeyUnused(env, ParentIds(m), key)
    ensures FewManifests(Grow(env, key, m), Id(key, env.hash(m))) <==> RoomForOne(env, ParentIds(m))
  {
    hide Fetched, ParentIds, Ancestor, Reaches;
    var env', root, ids := Grow(env, key, m), Id(key, env.hash(m)), ParentIds(m);
    forall x ensures Reaches(env', root, x) <==> x == root || Ancestor(env, ids, x) {
      GrownReaches(env, key, m, x);
    }
    assert !Ancestor(env, ids, root);
    if FewManifests(env', root) {
      forall s: set<Id> | forall x | x in s :: Ancestor(env, ids, x) ensures |s| + 1 <= MAX_OVERLAY_MANIFESTS {
        assert forall x | x in s + {root} :: Reaches(env', root, x);
        assert |s + {root}| == |s| + 1;
      }
    }
    if RoomForOne(env, ids) {
      forall s: set<Id> | forall x | x in s :: Reaches(env', root, x) ensures |s| <= MAX_OVERLAY_MANIFESTS {
        var below := s - {root};
        assert forall x | x in below :: Ancestor(env, ids, x);
        assert |s| <= |below| + 1 by {
          if root in s {
            assert |below| == |s| - 1;
          } else {
            assert below == s;
          }
        }
      }
    }
  }

  /** Overwriting a manifest that a parent still resolves through makes the new manifest unloadable. */
  lemma OverwrittenAncestor(env: Env, key: Key, m: Manifest)
    requires WellFormed(m) && m.organization == env.organization && InjectiveDigest(env)
    requires AllSound(env, ParentIds(m)) && !KeyUnused(env, ParentIds(m), key)
    ensures !Sound(Grow(env, key, m), Id(key, env.hash(m)))
  {
    var env', root, ids := Grow(env, key, m), Id(key, env.hash(m)), ParentIds(m);
    assert Fetched(env', root);
    hide WellFormed, SoundAt, Fetched;
    var x :| Ancestor(env, ids, x) && x.key == key;
    var a :| a in ids && Reaches(env, a, x);
    var c :| ChainTo(env, c, a, x);
    var y := FirstUse(env, key, m, c);
    assert Step(env', root, a);
    StepReaches(env', root, a, y);
    assert a in ids && Reaches(env, a, y);
    AncestorSound(env, ids, y);
    OldManifestDiffers(env, key, m, a, y);
    assert !Fetched(env', y);
    Unfetched(env', root, y);
  }

  /** The first manifest with that key on a chain is still reached after the overwrite. */
  lemma {:induction false} FirstUse(env: Env, key: Key, m: Manifest, c: seq<Id>) returns (y: Id)
    requires Chain(env, c) && c[|c| - 1].key == key
    ensures y.key == key && Reaches(env, c[0], y) && Reaches(Grow(env, key, m), c[0], y)
    decreases |c|
  {
    hide Reaches, WellFormed;
    var env' := Grow(env, key, m);
    if c[0].key == key {
      y := c[0];
      ReachesSelf(env, y);
      ReachesSelf(env', y);
    } else {
      ChainCons(env, c);
      y := FirstUse(env, key, m, c[1..]);
      assert Step(env', c[0], c[1]);
      StepReaches(env, c[0], c[1], y);
      StepReaches(env', c[0], c[1], y);
    }
  }

  /** If the old object at the key were the new manifest, the parent would already lie on a cycle. */
  lemma OldManifestDiffers(env: Env, key: Key, m: Manifest, a: Id, y: Id)
    requires InjectiveDigest(env) && Sound(env, a) && a in ParentIds(m)
    requires y.key == key && Reaches(env, a, y) && SoundAt(env, y)
    ensures env.hash(m) != y.checksum
  {
    hide WellFormed, Sound;
    if env.hash(m) == y.checksum {
      assert env.manifests[key] == m;
      assert Step(env, y, a);
      ReachesThenStep(env, a, y, a);
      SoundSelf(env, a);
      assert false;
    }
  }

  lemma ReachesThenStep(env: Env, a: Id, b: Id, c: Id)
    requires Reaches(env, a, b) && Step(env, b, c)
    ensures Below(env, a, c)
  {
    var p :| ChainTo(env, p, a, b);
    assert ChainTo(env, p + [c], a, c);
  }

  lemma SoundSelf(env: Env, a: Id)
    requires Sound(env, a)
    ensures !Cyclic(env, a)
  {
    ReachesSelf(env, a);
    hide Reaches, Below;
  }

  /** The exact condition under which a manifest written over sound parents resolves afterwards. */
  lemma GrowthExact(env: Env, key: Key, m: Manifest, inherited: Files)
    requires WellFormed(m) && m.organization == env.organization && InjectiveDigest(env)
    requires AllSound(env, ParentIds(m)) && MergedParents(env, ParentIds(m), inherited)
    ensures var env', root, f := Grow(env, key, m), Id(key, env.hash(m)), inherited + OwnFiles(m.files);
            && (Sound(env', root) <==>
                KeyUnused(env, ParentIds(m), key) && RoomForOne(env, ParentIds(m)) && |f| <= MAX_MATERIALIZED_FILES)
            && (Sound(env', root) ==> Represents(env', root, f))
  {
    hide *;
    if KeyUnused(env, ParentIds(m), key) {
      GrownSound(env, key, m, inherited);
    } else {
      OverwrittenAncestor(env, key, m);
    }
  }

  const IN_PLACE: Key := "a/manifest.json"

  /**
   * A concrete failure: a manifest written over its own parent, at the parent's key. The publication
   * accepts it, since its parent is sound, and afterwards it cannot be loaded.
   */
  lemma RepublishingInPlaceFails(hash: Manifest -> Hash, organization: string)
    requires InjectiveDigest(Env(map[], hash, organization))
    ensures var parent := Manifest([], [], organization);
            var m := Manifest([], [Parent("parent", IN_PLACE, hash(parent))], organization);
            var env := Env(map[IN_PLACE := parent], hash, organization);
            && WellFormed(m) && AllSound(env, ParentIds(m))
            && !Sound(Grow(env, IN_PLACE, m), Id(IN_PLACE, hash(m)))
  {
    var nothing, parent := Env(map[], hash, organization), Manifest([], [], organization);
    var m := Manifest([], [Parent("parent", IN_PLACE, hash(parent))], organization);
    var env := Env(map[IN_PLACE := parent], hash, organization);
    NothingBelow(nothing);
    assert ParentIds(parent) == [];
    GrowthExact(nothing, IN_PLACE, parent, map[]);
    assert Grow(nothing, IN_PLACE, parent) == env;
    var ids := ParentIds(m);
    assert ids == [Id(IN_PLACE, hash(parent))];
    InPlaceSuffix();
    ParentIsAncestor(env, ids, ids[0]);
    hide Sound, Ancestor, Reaches;
    OverwrittenAncestor(env, IN_PLACE, m);
  }

  lemma InPlaceSuffix()
    ensures MANIFEST_SUFFIX <= IN_PLACE[|IN_PLACE| - |MANIFEST_SUFFIX|..]
  {
  }

  lemma NothingBelow(env: Env)
    ensures AllSound(env, []) && MergedParents(env, [], map[]) && RoomForOne(env, [])
    ensures forall key :: KeyUnused(env, [], key)
  {
    forall s: set<Id> | forall x | x in s :: Ancestor(env, [], x) ensures |s| + 1 <= MAX_OVERLAY_MANIFESTS {
      assert s == {};
    }
  }
}
