/** Mark-and-sweep planning over content-addressed blobs (shared/cas_gc.py). */
module CasCollection {
  import opened Results
  import opened ArtifactOverlay
  import Ordering
  import Sequences

  datatype CasObject = CasObject(key: Key, size: nat, modifiedAt: int)

  datatype CollectionError = GraceTooShort | MissingManifest(key: Key)

  /** Times are counted in microseconds. */
  const SEVEN_DAYS := 7 * 24 * 60 * 60 * 1_000_000

  type Manifests = map<Key, Manifest>

  function ParentKeys(m: Manifest): seq<Key> {
    seq(|m.parents|, i requires 0 <= i < |m.parents| => m.parents[i].manifestKey)
  }

  ghost predicate Link(manifests: Manifests, a: Key, b: Key) {
    a in manifests && b in ParentKeys(manifests[a])
  }

  ghost predicate Lineage(manifests: Manifests, roots: seq<Key>, c: seq<Key>) {
    c != [] && c[0] in roots && forall i | 0 <= i < |c| - 1 :: Link(manifests, c[i], c[i + 1])
  }

  /** A manifest key reached from some root; it may itself be missing from the store. */
  ghost predicate Live(manifests: Manifests, roots: seq<Key>, k: Key) {
    exists c :: Lineage(manifests, roots, c) && c[|c| - 1] == k
  }

  ghost predicate Names(manifests: Manifests, k: Key, blob: Key) {
    k in manifests && exists f :: f in manifests[k].files && f.blob.key == blob
  }

  ghost predicate Marked(manifests: Manifests, roots: seq<Key>, protectedKeys: seq<Key>, blob: Key) {
    blob in protectedKeys || exists k :: Live(manifests, roots, k) && Names(manifests, k, blob)
  }

  ghost predicate Collectible(manifests: Manifests, roots: seq<Key>, protectedKeys: seq<Key>, cutoff: int, b: CasObject) {
    !Marked(manifests, roots, protectedKeys, b.key) && b.modifiedAt < cutoff
  }

  predicate ObjectLeq(a: CasObject, b: CasObject) {
    Ordering.StringLeq(a.key, b.key)
  }

  // ----- The worklist -----

  ghost predicate Marking(manifests: Manifests, roots: seq<Key>, visited: set<Key>, pending: seq<Key>) {
    && (forall k | k in visited || k in pending :: Live(manifests, roots, k))
    && (forall k | k in visited :: k in manifests)
    && (forall k | k in roots :: k in visited || k in pending)
    && (forall a, b | a in visited && Link(manifests, a, b) :: b in visited || b in pending)
  }

  lemma LiveLink(manifests: Manifests, roots: seq<Key>, a: Key, b: Key)
    requires Live(manifests, roots, a) && Link(manifests, a, b)
    ensures Live(manifests, roots, b)
  {
    var c :| Lineage(manifests, roots, c) && c[|c| - 1] == a;
    assert Lineage(manifests, roots, c + [b]);
  }

  lemma MarkingStart(manifests: Manifests, roots: seq<Key>)
    ensures Marking(manifests, roots, {}, roots)
  {
    forall k | k in roots ensures Live(manifests, roots, k) {
      assert Lineage(manifests, roots, [k]);
    }
  }

  lemma MarkingStep(manifests: Manifests, roots: seq<Key>, visited: set<Key>, pending: seq<Key>)
    requires pending != [] && Marking(manifests, roots, visited, pending)
    ensures var k, rest := pending[|pending| - 1], pending[..|pending| - 1];
            && Live(manifests, roots, k)
            && (k in visited ==> Marking(manifests, roots, visited, rest))
            && (k in manifests ==> Marking(manifests, roots, visited + {k}, rest + ParentKeys(manifests[k])))
  {
    var k, rest := pending[|pending| - 1], pending[..|pending| - 1];
    assert forall x | x in pending :: x == k || x in rest;
    hide Live;
    if k in manifests {
      forall b | b in ParentKeys(manifests[k]) ensures Live(manifests, roots, b) {
        assert Link(manifests, k, b);
        LiveLink(manifests, roots, k, b);
      }
    }
  }

  lemma {:induction false} LineageVisited(manifests: Manifests, roots: seq<Key>, visited: set<Key>, c: seq<Key>)
    requires Marking(manifests, roots, visited, []) && Lineage(manifests, roots, c)
    ensures c[|c| - 1] in visited
    decreases |c|
  {
    hide Live;
    if 1 < |c| {
      var n := |c| - 1;
      LineageVisited(manifests, roots, visited, c[..n]);
      assert Link(manifests, c[n - 1], c[n]);
    }
  }

  lemma MarkingDone(manifests: Manifests, roots: seq<Key>, visited: set<Key>)
    requires Marking(manifests, roots, visited, [])
    ensures forall k :: k in visited <==> Live(manifests, roots, k)
  {
    forall k | Live(manifests, roots, k) ensures k in visited {
      var c :| Lineage(manifests, roots, c) && c[|c| - 1] == k;
      LineageVisited(manifests, roots, visited, c);
    }
  }

  function BlobKeys(files: seq<File>): set<Key> {
    set f | f in files :: f.blob.key
  }

  ghost predicate MarkedBy(manifests: Manifests, visited: set<Key>, protectedKeys: seq<Key>, marked: set<Key>) {
    forall b :: b in marked <==> b in protectedKeys || exists k :: k in visited && Names(manifests, k, b)
  }

  lemma MarkedByStep(manifests: Manifests, visited: set<Key>, protectedKeys: seq<Key>, marked: set<Key>, k: Key)
    requires MarkedBy(manifests, visited, protectedKeys, marked) && k in manifests
    ensures MarkedBy(manifests, visited + {k}, protectedKeys, marked + BlobKeys(manifests[k].files))
  {
    forall b
      ensures b in marked + BlobKeys(manifests[k].files)
              <==> b in protectedKeys || exists x :: x in visited + {k} && Names(manifests, x, b)
    {
      assert b in BlobKeys(manifests[k].files) <==> Names(manifests, k, b);
      assert k in visited + {k};
      hide Names;
      if b in marked && b !in protectedKeys {
        var x :| x in visited && Names(manifests, x, b);
        assert x in visited + {k};
      }
    }
  }

  /** The blobs kept by the marks and the cutoff, in the order given. */
  function Unmarked(blobs: seq<CasObject>, marked: set<Key>, cutoff: int): seq<CasObject> {
    if blobs == [] then []
    else if blobs[0].key !in marked && blobs[0].modifiedAt < cutoff
    then [blobs[0]] + Unmarked(blobs[1..], marked, cutoff)
    else Unmarked(blobs[1..], marked, cutoff)
  }

  lemma {:induction false} UnmarkedIsFilter(manifests: Manifests, roots: seq<Key>, protectedKeys: seq<Key>,
                                            blobs: seq<CasObject>, marked: set<Key>, cutoff: int)
    requires forall b :: b in marked <==> Marked(manifests, roots, protectedKeys, b)
    ensures Unmarked(blobs, marked, cutoff)
         == Ordering.Filter((b: CasObject) => Collectible(manifests, roots, protectedKeys, cutoff, b), blobs)
  {
    hide Marked;
    if blobs != [] {
      UnmarkedIsFilter(manifests, roots, protectedKeys, blobs[1..], marked, cutoff);
    }
  }

  /**
   * The plan is exactly the unmarked blobs older than the grace period, by key; planning fails
   * exactly when some live manifest is missing (or the grace period is too short).
   */
  method PlanCasCollection(manifests: Manifests, roots: seq<Key>, blobs: seq<CasObject>, now: int, grace: int,
                           protectedKeys: seq<Key>)
    returns (r: Result<seq<CasObject>, CollectionError>)
    ensures grace < SEVEN_DAYS <==> r == Err(GraceTooShort)
    ensures grace >= SEVEN_DAYS ==>
              (r.Ok? <==> forall k | Live(manifests, roots, k) :: k in manifests)
    ensures r.Err? && r.error.MissingManifest? ==> Live(manifests, roots, r.error.key) && r.error.key !in manifests
    ensures r.Ok? ==>
              r.value == Ordering.Sort(ObjectLeq, Ordering.Filter(
                (b: CasObject) => Collectible(manifests, roots, protectedKeys, now - grace, b), blobs))
  {
    hide Live, Marking, MarkedBy, Collectible, Ordering.Sort, Unmarked;
    if grace < SEVEN_DAYS {
      return Err(GraceTooShort);
    }
    var marked := set k | k in protectedKeys;
    var pending, visited := roots, {};
    NothingVisited(manifests, protectedKeys, marked);
    MarkingStart(manifests, roots);
    while pending != []
      invariant Marking(manifests, roots, visited, pending)
      invariant MarkedBy(manifests, visited, protectedKeys, marked)
      decreases manifests.Keys - visited, |pending|
    {
      var last := |pending| - 1;
      var key := pending[last];
      MarkingStep(manifests, roots, visited, pending);
      pending := pending[..last];
      if key !in visited {
        if key !in manifests {
          return Err(CollectionError.MissingManifest(key));
        }
        MarkedByStep(manifests, visited, protectedKeys, marked, key);
        visited := visited + {key};
        marked := marked + BlobKeys(manifests[key].files);
        pending := pending + ParentKeys(manifests[key]);
      }
    }
    MarkingDone(manifests, roots, visited);
    VisitedPresent(manifests, roots, visited);
    MarksExact(manifests, roots, visited, protectedKeys, marked);
    UnmarkedIsFilter(manifests, roots, protectedKeys, blobs, marked, now - grace);
    return Ok(Ordering.Sort(ObjectLeq, Unmarked(blobs, marked, now - grace)));
  }

  lemma NothingVisited(manifests: Manifests, protectedKeys: seq<Key>, marked: set<Key>)
    requires marked == set k | k in protectedKeys
    ensures MarkedBy(manifests, {}, protectedKeys, marked)
  {
  }

  lemma VisitedPresent(manifests: Manifests, roots: seq<Key>, visited: set<Key>)
    requires Marking(manifests, roots, visited, [])
    ensures forall k | k in visited :: k in manifests
  {
  }

  lemma MarksExact(manifests: Manifests, roots: seq<Key>, visited: set<Key>, protectedKeys: seq<Key>, marked: set<Key>)
    requires MarkedBy(manifests, visited, protectedKeys, marked)
    requires forall k :: k in visited <==> Live(manifests, roots, k)
    ensures forall b :: b in marked <==> Marked(manifests, roots, protectedKeys, b)
  {
    hide Live, Names;
  }

  // ----- A sweep keeps every live workspace restorable -----

  ghost predicate Planned(manifests: Manifests, roots: seq<Key>, protectedKeys: seq<Key>, cutoff: int,
                          blobs: seq<CasObject>, plan: seq<CasObject>)
  {
    plan == Ordering.Sort(ObjectLeq, Ordering.Filter(
              (b: CasObject) => Collectible(manifests, roots, protectedKeys, cutoff, b), blobs))
  }

  lemma {:induction false} FilterCount(p: CasObject -> bool, blobs: seq<CasObject>, b: CasObject)
    ensures multiset(Ordering.Filter(p, blobs))[b] == if p(b) then multiset(blobs)[b] else 0
  {
    if blobs != [] {
      FilterCount(p, blobs[1..], b);
      assert blobs == [blobs[0]] + blobs[1..];
    }
  }

  /** The plan, element by element, both ways: every collectible blob as often as it is listed, by key. */
  lemma PlanMembers(manifests: Manifests, roots: seq<Key>, protectedKeys: seq<Key>, cutoff: int,
                    blobs: seq<CasObject>, plan: seq<CasObject>, b: CasObject)
    requires Planned(manifests, roots, protectedKeys, cutoff, blobs, plan)
    ensures b in plan <==> b in blobs && Collectible(manifests, roots, protectedKeys, cutoff, b)
    ensures multiset(plan)[b] == if Collectible(manifests, roots, protectedKeys, cutoff, b) then multiset(blobs)[b] else 0
    ensures Ordering.SortedBy(ObjectLeq, plan)
  {
    hide Collectible, Ordering.Sort, Ordering.Filter, Ordering.StringLeq;
    var p := (b: CasObject) => Collectible(manifests, roots, protectedKeys, cutoff, b);
    FilterCount(p, blobs, b);
    assert b in plan <==> b in multiset(plan);
    assert b in blobs <==> b in multiset(blobs);
    Ordering.StringLeqTotalPreorder();
    Ordering.SortSorted(ObjectLeq, Ordering.Filter(p, blobs));
  }

  /** Every manifest that an overlay resolution walks through is live for the collector. */
  lemma {:induction false} ChainIsLive(env: Env, roots: seq<Key>, c: seq<Id>)
    requires Chain(env, c) && c[0].key in roots
    ensures Live(env.manifests, roots, c[|c| - 1].key)
    decreases |c|
  {
    var n := |c| - 1;
    if n == 0 {
      assert Lineage(env.manifests, roots, [c[0].key]);
    } else {
      ChainIsLive(env, roots, c[..n]);
      assert Step(env, c[n - 1], c[n]);
      assert Link(env.manifests, c[n - 1].key, c[n].key) by {
        var m := env.manifests[c[n - 1].key];
        var i :| 0 <= i < |m.parents| && ParentIds(m)[i] == c[n];
        assert ParentKeys(m)[i] == c[n].key;
      }
      LiveLink(env.manifests, roots, c[n - 1].key, c[n].key);
    }
  }

  /** After the planned blobs are deleted, every file that any root still shows keeps its blob. */
  lemma SweepKeepsOverlays<V>(env: Env, roots: seq<Key>, protectedKeys: seq<Key>, cutoff: int,
                              blobs: seq<CasObject>, plan: seq<CasObject>, root: Id, e: File, store: map<Key, V>)
    requires Planned(env.manifests, roots, protectedKeys, cutoff, blobs, plan)
    requires root.key in roots && Sees(env, root, e) && e.blob.key in store
    ensures var swept := store - (set b | b in plan :: b.key);
            e.blob.key in swept && swept[e.blob.key] == store[e.blob.key]
  {
    var c: seq<Id> :| SeesVia(env, c, e) && c[0] == root;
    ChainIsLive(env, roots, c);
    assert Names(env.manifests, c[|c| - 1].key, e.blob.key);
    hide Planned;
    forall b | b in plan ensures b.key != e.blob.key {
      PlanMembers(env.manifests, roots, protectedKeys, cutoff, blobs, plan, b);
    }
  }
}
