/**
 * The node hierarchy of a GSTile manifest (shared/gstile_manifest.py): the worklist that walks it from
 * the root is proved to accept exactly the trees, and binary trees to be full.
 */
module GstileHierarchy {
  import Sequences
  import opened Results

  /** The child identities of each internal node. */
  type Children = map<string, seq<string>>

  /** The child slots taken from the root. */
  type Path = seq<nat>

  function Follow(children: Children, root: string, path: Path): Option<string> {
    if path == [] then Some(root)
    else
      var parent := Follow(children, root, path[..|path| - 1]);
      var k := path[|path| - 1];
      if parent.Some? && parent.value in children && k < |children[parent.value]| then Some(children[parent.value][k])
      else None
  }

  predicate ChildrenKnown(ids: set<string>, children: Children) {
    forall n | n in children :: forall c | c in children[n] :: c in ids
  }

  /** Every node is reached from the root, along exactly one path. */
  ghost predicate Tree(ids: set<string>, children: Children, root: string) {
    && root in ids && ChildrenKnown(ids, children)
    && (forall n | n in ids :: exists p :: Follow(children, root, p) == Some(n))
    && (forall p, q | Follow(children, root, p).Some? && Follow(children, root, p) == Follow(children, root, q) :: p == q)
  }

  /** The ghost side of the worklist: the path of each waiting entry, and of each reached node. */
  datatype Walk = Walk(waiting: seq<Path>, pathOf: map<string, Path>)

  ghost predicate Recorded(children: Children, root: string, walk: Walk, p: Path) {
    var node := Follow(children, root, p);
    node.Some? && node.value in walk.pathOf && walk.pathOf[node.value] == p
  }

  ghost predicate Accounted(children: Children, root: string, walk: Walk, p: Path) {
    Recorded(children, root, walk, p) || p in walk.waiting
  }

  ghost predicate WaitingOk(children: Children, root: string, pending: seq<string>, walk: Walk) {
    && |pending| == |walk.waiting|
    && (forall i | 0 <= i < |pending| :: Follow(children, root, walk.waiting[i]) == Some(pending[i]))
    && (forall i, j | 0 <= i < j < |walk.waiting| :: walk.waiting[i] != walk.waiting[j])
    && (forall p | p in walk.waiting :: !Recorded(children, root, walk, p))
  }

  /** Every child slot of a reached node is accounted for. */
  ghost predicate ChildrenAccounted(children: Children, root: string, walk: Walk) {
    && Accounted(children, root, walk, [])
    && forall n, k: nat | n in walk.pathOf && n in children && k < |children[n]| ::
         Accounted(children, root, walk, walk.pathOf[n] + [k])
  }

  ghost predicate ParentsRecorded(children: Children, root: string, walk: Walk) {
    forall p | Accounted(children, root, walk, p) && p != [] :: Recorded(children, root, walk, p[..|p| - 1])
  }

  /** The recorded path of a node leads to it. */
  ghost predicate PathsOk(children: Children, root: string, walk: Walk) {
    forall n | n in walk.pathOf :: Follow(children, root, walk.pathOf[n]) == Some(n)
  }

  /** The worklist invariant. */
  ghost predicate Exploring(children: Children, root: string, pending: seq<string>, walk: Walk) {
    && PathsOk(children, root, walk) && WaitingOk(children, root, pending, walk)
    && ChildrenAccounted(children, root, walk) && ParentsRecorded(children, root, walk)
  }

  method ValidateHierarchy(ids: set<string>, children: Children, root: string) returns (ok: bool)
    ensures ok <==> Tree(ids, children, root)
  {
    hide Exploring, Tree, PathsOk, WaitingOk;
    if root !in ids || !ChildrenKnown(ids, children) {
      RequiredOfTree(ids, children, root);
      return false;
    }
    var reachable: set<string> := {};
    var pending := [root];
    ghost var walk := Walk([[]], map[]);
    AtRoot(children, root);
    while pending != []
      invariant reachable == walk.pathOf.Keys && reachable <= ids
      invariant forall n | n in pending :: n in ids
      invariant Exploring(children, root, pending, walk)
      decreases ids - reachable
    {
      var last := |pending| - 1;
      var node := pending[last];
      if node in reachable {
        ExploringFacts(children, root, pending, walk);
        SharedNode(ids, children, root, pending, walk);
        return false;
      }
      var found := if node in children then children[node] else [];
      Expanded(children, root, pending, walk);
      walk := NextWalk(children, pending, walk);
      reachable := reachable + {node};
      pending := pending[..last] + found;
    }
    Explored(ids, children, root, walk);
    return reachable == ids;
  }

  lemma RequiredOfTree(ids: set<string>, children: Children, root: string)
    ensures Tree(ids, children, root) ==> root in ids && ChildrenKnown(ids, children)
  {
  }

  lemma AtRoot(children: Children, root: string)
    ensures Exploring(children, root, [root], Walk([[]], map[]))
  {
  }

  /** The ghost bookkeeping of one iteration. */
  ghost function NextWalk(children: Children, pending: seq<string>, walk: Walk): (next: Walk)
    requires |pending| > 0
    ensures next.pathOf.Keys == walk.pathOf.Keys + {pending[|pending| - 1]}
  {
    var last := |pending| - 1;
    var node := pending[last];
    var path := if last < |walk.waiting| then walk.waiting[last] else [];
    var slots := if node in children then |children[node]| else 0;
    Walk(walk.waiting[..if last < |walk.waiting| then last else 0] + seq(slots, k => path + [k]),
         walk.pathOf[node := path])
  }

  lemma ExploringFacts(children: Children, root: string, pending: seq<string>, walk: Walk)
    requires Exploring(children, root, pending, walk)
    ensures PathsOk(children, root, walk) && WaitingOk(children, root, pending, walk)
  {
  }

  lemma SharedNode(ids: set<string>, children: Children, root: string, pending: seq<string>, walk: Walk)
    requires PathsOk(children, root, walk) && WaitingOk(children, root, pending, walk)
    requires pending != [] && pending[|pending| - 1] in walk.pathOf
    ensures !Tree(ids, children, root)
  {
    var last := |pending| - 1;
    var p, q := walk.waiting[last], walk.pathOf[pending[last]];
    assert Follow(children, root, p) == Some(pending[last]) == Follow(children, root, q);
    assert p in walk.waiting;
    assert p != q;
  }

  lemma Expanded(children: Children, root: string, pending: seq<string>, walk: Walk)
    requires Exploring(children, root, pending, walk) && pending != [] && pending[|pending| - 1] !in walk.pathOf
    ensures var last := |pending| - 1; var node := pending[last];
            Exploring(children, root, pending[..last] + (if node in children then children[node] else []),
                      NextWalk(children, pending, walk))
  {
    hide WaitingOk, ChildrenAccounted, ParentsRecorded;
    LastWaiting(children, root, pending, walk);
    ExpandedWaiting(children, root, pending, walk);
    ExpandedChildren(children, root, pending, walk);
    ExpandedParents(children, root, pending, walk);
  }

  lemma LastWaiting(children: Children, root: string, pending: seq<string>, walk: Walk)
    requires WaitingOk(children, root, pending, walk) && pending != []
    ensures |walk.waiting| == |pending|
    ensures Follow(children, root, walk.waiting[|pending| - 1]) == Some(pending[|pending| - 1])
    ensures Accounted(children, root, walk, walk.waiting[|pending| - 1])
  {
  }

  lemma RecordedNext(children: Children, root: string, pending: seq<string>, walk: Walk, p: Path)
    requires WaitingOk(children, root, pending, walk) && pending != [] && pending[|pending| - 1] !in walk.pathOf
    ensures Recorded(children, root, NextWalk(children, pending, walk), p)
            <==> Recorded(children, root, walk, p) || p == walk.waiting[|pending| - 1]
  {
    hide Follow;
    LastWaiting(children, root, pending, walk);
  }

  /** p is one of the first slots below path. */
  predicate Below(path: Path, slots: nat, p: Path) {
    p != [] && p[..|p| - 1] == path && p[|p| - 1] < slots
  }

  lemma ChildPath(children: Children, root: string, path: Path, k: nat)
    requires Follow(children, root, path).Some?
    requires Follow(children, root, path).value in children && k < |children[Follow(children, root, path).value]|
    ensures (path + [k])[..|path|] == path
    ensures Follow(children, root, path + [k]) == Some(children[Follow(children, root, path).value][k])
  {
    Sequences.DropSnoc(path, k);
  }

  lemma AccountedNext(children: Children, root: string, pending: seq<string>, walk: Walk, p: Path)
    requires WaitingOk(children, root, pending, walk) && pending != [] && pending[|pending| - 1] !in walk.pathOf
    ensures var last := |pending| - 1; var node := pending[last];
            Accounted(children, root, NextWalk(children, pending, walk), p)
            <==> Accounted(children, root, walk, p)
                 || Below(walk.waiting[last], if node in children then |children[node]| else 0, p)
  {
    hide Follow, Recorded;
    var last := |pending| - 1;
    var node, path := pending[last], walk.waiting[last];
    var next := NextWalk(children, pending, walk);
    var slots := if node in children then |children[node]| else 0;
    RecordedNext(children, root, pending, walk, p);
    Appended(walk.waiting, path, slots, p);
  }

  lemma Appended(waiting: seq<Path>, path: Path, slots: nat, p: Path)
    requires waiting != [] && waiting[|waiting| - 1] == path
    ensures p in waiting[..|waiting| - 1] + seq(slots, k => path + [k]) || p == path
            <==> p in waiting || Below(path, slots, p)
  {
    var last, added := |waiting| - 1, seq(slots, k => path + [k]);
    assert waiting == waiting[..last] + [path];
    if Below(path, slots, p) {
      assert p == path + [p[|p| - 1]];
      assert added[p[|p| - 1]] == p;
    }
    if p in added {
      var k: nat :| k < slots && added[k] == p;
      Sequences.DropSnoc(path, k);
    }
  }

  /** The children of the popped node are not accounted for yet. */
  lemma FreshChild(children: Children, root: string, pending: seq<string>, walk: Walk, k: nat)
    requires Exploring(children, root, pending, walk) && pending != []
    requires pending[|pending| - 1] in children && k < |children[pending[|pending| - 1]]|
    ensures var path := walk.waiting[|pending| - 1];
            && Follow(children, root, path + [k]) == Some(children[pending[|pending| - 1]][k])
            && !Accounted(children, root, walk, path + [k]) && path + [k] != path
  {
    hide Follow, ChildrenAccounted, Recorded;
    LastWaiting(children, root, pending, walk);
    var path := walk.waiting[|pending| - 1];
    ChildPath(children, root, path, k);
    assert path in walk.waiting && (path + [k])[..|path + [k]| - 1] == path;
  }

  lemma ExpandedWaiting(children: Children, root: string, pending: seq<string>, walk: Walk)
    requires Exploring(children, root, pending, walk) && pending != [] && pending[|pending| - 1] !in walk.pathOf
    ensures var last := |pending| - 1; var node := pending[last];
            WaitingOk(children, root, pending[..last] + (if node in children then children[node] else []),
                      NextWalk(children, pending, walk))
  {
    hide Follow, ChildrenAccounted, ParentsRecorded, Recorded;
    var last := |pending| - 1;
    var node, path := pending[last], walk.waiting[last];
    var found := if node in children then children[node] else [];
    var next := NextWalk(children, pending, walk);
    forall i | 0 <= i < |next.waiting|
      ensures Follow(children, root, next.waiting[i]) == Some((pending[..last] + found)[i])
      ensures !Recorded(children, root, next, next.waiting[i])
    {
      RecordedNext(children, root, pending, walk, next.waiting[i]);
      if i >= last {
        FreshChild(children, root, pending, walk, i - last);
      } else {
        assert next.waiting[i] == walk.waiting[i] && walk.waiting[i] in walk.waiting;
      }
    }
    forall k: nat | k < |found| ensures path + [k] !in walk.waiting {
      FreshChild(children, root, pending, walk, k);
    }
    AppendDistinct(walk.waiting, path, |found|);
  }

  lemma AppendDistinct(waiting: seq<Path>, path: Path, slots: nat)
    requires waiting != [] && waiting[|waiting| - 1] == path
    requires forall i, j | 0 <= i < j < |waiting| :: waiting[i] != waiting[j]
    requires forall k: nat | k < slots :: path + [k] !in waiting
    ensures var all := waiting[..|waiting| - 1] + seq(slots, k => path + [k]);
            forall i, j | 0 <= i < j < |all| :: all[i] != all[j]
  {
    var last := |waiting| - 1;
    var all := waiting[..last] + seq(slots, k => path + [k]);
    forall i, j | 0 <= i < j < |all| ensures all[i] != all[j] {
      if j >= last {
        assert all[j] == path + [j - last];
        if i >= last {
          assert all[i][|path|] == i - last && all[j][|path|] == j - last;
        } else {
          assert all[i] in waiting;
        }
      }
    }
  }

  lemma ExpandedChildren(children: Children, root: string, pending: seq<string>, walk: Walk)
    requires Exploring(children, root, pending, walk) && pending != [] && pending[|pending| - 1] !in walk.pathOf
    ensures ChildrenAccounted(children, root, NextWalk(children, pending, walk))
  {
    hide Follow, Accounted, ParentsRecorded, WaitingOk;
    var last := |pending| - 1;
    var next := NextWalk(children, pending, walk);
    LastWaiting(children, root, pending, walk);
    var node, path := pending[last], walk.waiting[last];
    AccountedNext(children, root, pending, walk, []);
    forall n, k: nat | n in next.pathOf && n in children && k < |children[n]|
      ensures Accounted(children, root, next, next.pathOf[n] + [k])
    {
      AccountedNext(children, root, pending, walk, next.pathOf[n] + [k]);
      Sequences.DropSnoc(next.pathOf[n], k);
    }
  }

  lemma ExpandedParents(children: Children, root: string, pending: seq<string>, walk: Walk)
    requires Exploring(children, root, pending, walk) && pending != [] && pending[|pending| - 1] !in walk.pathOf
    ensures ParentsRecorded(children, root, NextWalk(children, pending, walk))
  {
    hide Follow, Accounted, Recorded, WaitingOk, ChildrenAccounted;
    var next := NextWalk(children, pending, walk);
    forall p | Accounted(children, root, next, p) && p != []
      ensures Recorded(children, root, next, p[..|p| - 1])
    {
      RecordedNext(children, root, pending, walk, p[..|p| - 1]);
      AccountedNext(children, root, pending, walk, p);
    }
  }

  /** An exhausted worklist has recorded every path there is. */
  lemma {:induction false} EveryPathRecorded(children: Children, root: string, walk: Walk, p: Path)
    requires Exploring(children, root, [], walk) && Follow(children, root, p).Some?
    ensures Recorded(children, root, walk, p)
  {
    hide Exploring, Recorded;
    NothingWaits(children, root, walk);
    if p != [] {
      var init, k := p[..|p| - 1], p[|p| - 1];
      EveryPathRecorded(children, root, walk, init);
      assert p == init + [k];
      ChildRecorded(children, root, walk, init, k);
    }
  }

  lemma ChildRecorded(children: Children, root: string, walk: Walk, p: Path, k: nat)
    requires Exploring(children, root, [], walk) && Recorded(children, root, walk, p)
    requires Follow(children, root, p + [k]).Some?
    ensures Recorded(children, root, walk, p + [k])
  {
    hide Exploring;
    Sequences.DropSnoc(p, k);
    var n := Follow(children, root, p).value;
    NothingWaits(children, root, walk);
    hide Recorded;
    assert Recorded(children, root, walk, walk.pathOf[n] + [k]);
  }

  lemma NothingWaits(children: Children, root: string, walk: Walk)
    requires Exploring(children, root, [], walk)
    ensures Recorded(children, root, walk, [])
    ensures forall n, k: nat | n in walk.pathOf && n in children && k < |children[n]| ::
              Recorded(children, root, walk, walk.pathOf[n] + [k])
  {
    hide Recorded, ParentsRecorded;
    assert Accounted(children, root, walk, []);
    forall n, k: nat | n in walk.pathOf && n in children && k < |children[n]|
      ensures Recorded(children, root, walk, walk.pathOf[n] + [k])
    {
      assert Accounted(children, root, walk, walk.pathOf[n] + [k]);
    }
  }

  lemma Explored(ids: set<string>, children: Children, root: string, walk: Walk)
    requires root in ids && ChildrenKnown(ids, children)
    requires Exploring(children, root, [], walk) && walk.pathOf.Keys <= ids
    ensures walk.pathOf.Keys == ids <==> Tree(ids, children, root)
  {
    if Tree(ids, children, root) {
      forall n | n in ids ensures n in walk.pathOf {
        var p :| Follow(children, root, p) == Some(n);
        EveryPathRecorded(children, root, walk, p);
      }
    }
    if walk.pathOf.Keys == ids {
      forall n | n in ids ensures exists p :: Follow(children, root, p) == Some(n) {
        assert n in walk.pathOf;
        assert Follow(children, root, walk.pathOf[n]) == Some(n);
      }
      forall p, q | Follow(children, root, p).Some? && Follow(children, root, p) == Follow(children, root, q)
        ensures p == q
      {
        EveryPathRecorded(children, root, walk, p);
        EveryPathRecorded(children, root, walk, q);
      }
    }
  }

  // ----- Full binary trees -----

  ghost function ChildSet(children: Children, parents: set<string>): set<string>
    requires parents <= children.Keys && forall n | n in children :: |children[n]| == 2
  {
    set n, k | n in parents && k in {0, 1} :: children[n][k]
  }

  lemma SomePath(ids: set<string>, children: Children, root: string, n: string) returns (p: Path)
    requires Tree(ids, children, root) && n in ids
    ensures Follow(children, root, p) == Some(n)
  {
    p :| Follow(children, root, p) == Some(n);
  }

  lemma OnePath(ids: set<string>, children: Children, root: string, p: Path, q: Path)
    requires Tree(ids, children, root) && Follow(children, root, p).Some?
    ensures Follow(children, root, p) == Follow(children, root, q) ==> p == q
  {
  }

  lemma SlotsDiffer(ids: set<string>, children: Children, root: string, n: string, k: nat, n': string, k': nat)
    requires Tree(ids, children, root) && children.Keys <= ids
    requires n in children && k < |children[n]| && n' in children && k' < |children[n']|
    ensures children[n][k] != root
    ensures children[n][k] == children[n'][k'] ==> n == n' && k == k'
  {
    hide Tree;
    var p := SomePath(ids, children, root, n);
    var p' := SomePath(ids, children, root, n');
    ChildPath(children, root, p, k);
    ChildPath(children, root, p', k');
    OnePath(ids, children, root, p + [k], []);
    OnePath(ids, children, root, p + [k], p' + [k']);
    SnocInjective(p, k, p', k');
  }

  lemma SnocInjective(p: Path, k: nat, p': Path, k': nat)
    ensures p + [k] == p' + [k'] ==> p == p' && k == k'
  {
    if p + [k] == p' + [k'] {
      Sequences.DropSnoc(p, k);
      Sequences.DropSnoc(p', k');
      assert (p + [k])[|p|] == (p' + [k'])[|p'|];
    }
  }

  lemma {:induction false} ChildCount(ids: set<string>, children: Children, root: string, parents: set<string>)
    requires Tree(ids, children, root) && parents <= children.Keys <= ids
    requires forall n | n in children :: |children[n]| == 2
    ensures |ChildSet(children, parents)| == 2 * |parents|
    decreases parents
  {
    hide Tree;
    if parents == {} {
      assert ChildSet(children, parents) == {};
    } else {
      var n :| n in parents;
      var rest := parents - {n};
      ChildCount(ids, children, root, rest);
      var left, right := children[n][0], children[n][1];
      SlotsDiffer(ids, children, root, n, 0, n, 1);
      forall m, k | m in rest && k in {0, 1} ensures children[m][k] != left && children[m][k] != right {
        SlotsDiffer(ids, children, root, n, 0, m, k);
        SlotsDiffer(ids, children, root, n, 1, m, k);
      }
      assert ChildSet(children, parents) == ChildSet(children, rest) + {left, right};
    }
  }

  /** Every node but the root is a child. */
  lemma OthersAreChildren(ids: set<string>, children: Children, root: string)
    requires Tree(ids, children, root) && children.Keys <= ids
    requires forall n | n in children :: |children[n]| == 2
    ensures ChildSet(children, children.Keys) == ids - {root}
  {
    hide Tree;
    var below := ChildSet(children, children.Keys);
    forall n | n in ids && n != root ensures n in below {
      var p := SomePath(ids, children, root, n);
      var parent, k := Follow(children, root, p[..|p| - 1]).value, p[|p| - 1];
      assert parent in children && k in {0, 1} && children[parent][k] == n;
    }
    RequiredOfTree(ids, children, root);
    forall n, k: nat | n in children && k in {0, 1} ensures children[n][k] in ids - {root} {
      SlotsDiffer(ids, children, root, n, k, n, k);
      assert children[n][k] in children[n];
    }
  }

  /** A tree of binary nodes has one more leaf than internal nodes. */
  lemma TreeIsFull(ids: set<string>, children: Children, root: string)
    requires Tree(ids, children, root) && children.Keys <= ids
    requires forall n | n in children :: |children[n]| == 2
    ensures |ids| == 1 + 2 * |children|
    ensures |ids - children.Keys| == |children| + 1
  {
    hide Tree, ChildSet;
    var below := ChildSet(children, children.Keys);
    ChildCount(ids, children, root, children.Keys);
    OthersAreChildren(ids, children, root);
    RequiredOfTree(ids, children, root);
    assert ids == below + {root};
    assert ids == (ids - children.Keys) + children.Keys;
  }
}
