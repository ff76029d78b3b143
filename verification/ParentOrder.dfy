/**
 * The order in which a manifest lists its parents does not matter (shared/artifact_manifest.py and the
 * loader of shared/stage_workspace.py): two stores whose manifests differ in that order only resolve the
 * same manifests, to the same files.
 */
module ParentOrder {
  import opened ArtifactOverlay
  import opened Results
  import Ordering

  ghost predicate Reordered(m: Manifest, m': Manifest) {
    m'.files == m.files && m'.organization == m.organization && multiset(m'.parents) == multiset(m.parents)
  }

  /** The same manifests under the same keys and digests, but for the order of the parents. */
  ghost predicate ParentsReordered(env: Env, env': Env) {
    && env'.organization == env.organization && env'.manifests.Keys == env.manifests.Keys
    && forall k | k in env.manifests ::
         Reordered(env.manifests[k], env'.manifests[k])
         && env'.hash(env'.manifests[k]) == env.hash(env.manifests[k])
  }

  lemma ReorderedBack(env: Env, env': Env)
    requires ParentsReordered(env, env')
    ensures ParentsReordered(env', env)
  {
  }

  lemma SameMembers(s: seq<Parent>, t: seq<Parent>)
    requires multiset(s) == multiset(t)
    ensures forall p :: p in s <==> p in t
  {
    assert forall p :: p in s <==> p in multiset(s);
    assert forall p :: p in t <==> p in multiset(t);
  }

  lemma WellFormedReordered(m: Manifest, m': Manifest)
    requires Reordered(m, m') && WellFormed(m)
    ensures WellFormed(m')
  {
    Ordering.DistinctReordered((p: Parent) => p.artifactId, m.parents, m'.parents);
    SameMembers(m.parents, m'.parents);
  }

  lemma FetchedSame(env: Env, env': Env, id: Id)
    requires ParentsReordered(env, env')
    ensures Fetched(env, id) <==> Fetched(env', id)
  {
    hide WellFormed;
    if id.key in env.manifests {
      var m, m' := env.manifests[id.key], env'.manifests[id.key];
      if WellFormed(m) {
        WellFormedReordered(m, m');
      }
      if WellFormed(m') {
        WellFormedReordered(m', m);
      }
    }
  }

  lemma ParentIdsSame(m: Manifest, m': Manifest, b: Id)
    requires Reordered(m, m')
    ensures b in ParentIds(m) ==> b in ParentIds(m')
  {
    if b in ParentIds(m) {
      var i :| 0 <= i < |m.parents| && ParentIds(m)[i] == b;
      SameMembers(m.parents, m'.parents);
      assert m.parents[i] in m.parents;
      var j :| 0 <= j < |m'.parents| && m'.parents[j] == m.parents[i];
      assert ParentIds(m')[j] == b;
    }
  }

  lemma StepSame(env: Env, env': Env, a: Id, b: Id)
    requires ParentsReordered(env, env')
    ensures Step(env, a, b) <==> Step(env', a, b)
  {
    hide Fetched;
    FetchedSame(env, env', a);
    FetchedKnown(env, a);
    if Fetched(env, a) {
      ParentIdsSame(env.manifests[a.key], env'.manifests[a.key], b);
      ParentIdsSame(env'.manifests[a.key], env.manifests[a.key], b);
    }
  }

  lemma FetchedKnown(env: Env, id: Id)
    ensures Fetched(env, id) ==> id.key in env.manifests
  {
  }

  lemma ChainSame(env: Env, env': Env, c: seq<Id>)
    requires ParentsReordered(env, env')
    ensures Chain(env, c) <==> Chain(env', c)
  {
    hide ParentsReordered, Step;
    forall i | 0 <= i < |c| - 1 ensures Step(env, c[i], c[i + 1]) <==> Step(env', c[i], c[i + 1]) {
      StepSame(env, env', c[i], c[i + 1]);
    }
  }

  lemma OwnsSame(env: Env, env': Env, id: Id, e: File)
    requires ParentsReordered(env, env')
    ensures Owns(env, id, e) <==> Owns(env', id, e)
  {
    hide Fetched;
    FetchedSame(env, env', id);
    FetchedKnown(env, id);
  }

  lemma OwnsPathSame(env: Env, env': Env, id: Id, path: Path)
    requires ParentsReordered(env, env')
    ensures OwnsPath(env, id, path) <==> OwnsPath(env', id, path)
  {
    hide ParentsReordered, Owns;
    forall e ensures Owns(env, id, e) <==> Owns(env', id, e) {
      OwnsSame(env, env', id, e);
    }
  }

  lemma SeesSame(env: Env, env': Env, id: Id, e: File)
    requires ParentsReordered(env, env')
    ensures Sees(env, id, e) <==> Sees(env', id, e)
  {
    hide ParentsReordered, Owns, OwnsPath, Chain;
    forall c ensures SeesVia(env, c, e) <==> SeesVia(env', c, e) {
      ChainSame(env, env', c);
      ChainsAreNonEmpty(env, c);
      if c != [] {
        OwnsSame(env, env', c[|c| - 1], e);
        forall i | 0 <= i < |c| - 1 ensures OwnsPath(env, c[i], e.path) <==> OwnsPath(env', c[i], e.path) {
          OwnsPathSame(env, env', c[i], e.path);
        }
      }
    }
  }

  lemma ChainsAreNonEmpty(env: Env, c: seq<Id>)
    ensures Chain(env, c) ==> c != []
  {
  }

  lemma ReachesSame(env: Env, env': Env, a: Id, b: Id)
    requires ParentsReordered(env, env')
    ensures Reaches(env, a, b) <==> Reaches(env', a, b)
    ensures Below(env, a, b) <==> Below(env', a, b)
  {
    hide ParentsReordered, Chain;
    forall c ensures ChainTo(env, c, a, b) <==> ChainTo(env', c, a, b) {
      ChainSame(env, env', c);
    }
  }

  lemma RepresentsSame(env: Env, env': Env, id: Id, f: Files)
    requires ParentsReordered(env, env')
    ensures Represents(env, id, f) <==> Represents(env', id, f)
  {
    hide ParentsReordered, Sees, Has, Keyed;
    forall e ensures Sees(env, id, e) <==> Sees(env', id, e) {
      SeesSame(env, env', id, e);
    }
  }

  lemma ConflictSame(env: Env, env': Env, id: Id)
    requires ParentsReordered(env, env')
    ensures Conflict(env, id) ==> Conflict(env', id)
  {
    hide ParentsReordered, Sees, Step;
    if Conflict(env, id) {
      var a, b, e, e' :| Step(env, id, a) && Step(env, id, b) && Sees(env, a, e) && Sees(env, b, e')
                         && e.path == e'.path && e != e';
      StepSame(env, env', id, a);
      StepSame(env, env', id, b);
      SeesSame(env, env', a, e);
      SeesSame(env, env', b, e');
    }
  }

  lemma SoundAtSame(env: Env, env': Env, id: Id)
    requires ParentsReordered(env, env')
    ensures SoundAt(env, id) <==> SoundAt(env', id)
  {
    hide Fetched, Conflict, Represents, Below;
    ReorderedBack(env, env');
    hide ParentsReordered;
    FetchedSame(env, env', id);
    ReachesSame(env, env', id, id);
    ConflictSame(env, env', id);
    ConflictSame(env', env, id);
    forall f ensures Represents(env, id, f) <==> Represents(env', id, f) {
      RepresentsSame(env, env', id, f);
    }
  }

  /** Reordering parents changes neither whether a manifest resolves nor what it shows. */
  lemma ParentOrderIrrelevant(env: Env, env': Env, root: Id, f: Files)
    requires ParentsReordered(env, env')
    ensures Sound(env, root) <==> Sound(env', root)
    ensures Represents(env, root, f) <==> Represents(env', root, f)
  {
    hide ParentsReordered, SoundAt, Reaches, Represents;
    RepresentsSame(env, env', root, f);
    forall id ensures Reaches(env, root, id) <==> Reaches(env', root, id) {
      ReachesSame(env, env', root, id);
    }
    forall id ensures SoundAt(env, id) <==> SoundAt(env', id) {
      SoundAtSame(env, env', id);
    }
    FewSame(env, env', root);
  }

  lemma FewSame(env: Env, env': Env, root: Id)
    requires forall id :: Reaches(env, root, id) <==> Reaches(env', root, id)
    ensures FewManifests(env, root) <==> FewManifests(env', root)
  {
    hide Reaches;
  }

  /** So the loader answers alike: both calls fail, or both return the same files. */
  method LoadReordered(env: Env, env': Env, key: Key, checksum: Hash) returns (r: Result<Files, LoadError>,
                                                                             r': Result<Files, LoadError>)
    requires ParentsReordered(env, env')
    ensures r.Ok? <==> r'.Ok?
    ensures r.Ok? ==> r.value == r'.value
  {
    hide ParentsReordered, Sound, Represents;
    var loads, loads';
    r, loads := LoadManifestOverlay(env, key, checksum);
    r', loads' := LoadManifestOverlay(env', key, checksum);
    ParentOrderIrrelevant(env, env', Id(key, checksum), if r.Ok? then r.value else map[]);
    if r.Ok? {
      RepresentsUnique(env', Id(key, checksum), r.value, r'.value);
    }
  }
}
