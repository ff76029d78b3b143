/** The stage graph and the checks on a requested selection (shared/stage_contracts.py). */
module StageContracts {

  datatype Stage =
    | Reconstruction
    | GaussianTraining
    | GaussianFiltering
    | Rasterization
    | Detection
    | GaussianViewer

  const STAGE_ORDER: seq<Stage> :=
    [Reconstruction, GaussianTraining, GaussianFiltering, Rasterization, Detection, GaussianViewer]

  function Dependencies(stage: Stage): seq<Stage> {
    match stage
    case Reconstruction => []
    case GaussianTraining => [Reconstruction]
    case GaussianFiltering => [GaussianTraining]
    case Rasterization => [GaussianFiltering]
    case Detection => [Rasterization]
    case GaussianViewer => [GaussianFiltering]
  }

  function Position(stage: Stage): (k: nat)
    ensures k < |STAGE_ORDER| && STAGE_ORDER[k] == stage
  {
    match stage
    case Reconstruction => 0
    case GaussianTraining => 1
    case GaussianFiltering => 2
    case Rasterization => 3
    case Detection => 4
    case GaussianViewer => 5
  }

  /** A path in the graph: every stage is a direct dependency of the next one. */
  ghost predicate Chain(path: seq<Stage>) {
    && 2 <= |path|
    && forall i | 0 <= i < |path| - 1 :: path[i] in Dependencies(path[i + 1])
  }

  /** Transitive dependency. */
  ghost predicate Precedes(earlier: Stage, stage: Stage) {
    exists path :: Chain(path) && path[0] == earlier && path[|path| - 1] == stage
  }

  lemma DirectPrecedes(d: Stage, stage: Stage)
    requires d in Dependencies(stage)
    ensures Precedes(d, stage)
  {
    assert Chain([d, stage]);
  }

  lemma ExtendPrecedes(d: Stage, s: Stage, stage: Stage)
    requires d in Dependencies(s) && Precedes(s, stage)
    ensures Precedes(d, stage)
  {
    var path :| Chain(path) && path[0] == s && path[|path| - 1] == stage;
    var longer := [d] + path;
    assert Chain(longer);
  }

  /** The graph is acyclic: a dependency always comes earlier in the published order. */
  lemma {:induction false} ChainDescends(path: seq<Stage>)
    requires Chain(path)
    ensures Position(path[0]) < Position(path[|path| - 1])
    decreases |path|
  {
    DependencyEarlier(path[0], path[1]);
    if 2 < |path| {
      ChainDescends(path[1..]);
    }
  }

  lemma DependencyEarlier(d: Stage, stage: Stage)
    requires d in Dependencies(stage)
    ensures Position(d) < Position(stage)
  {
    match stage {
      case Reconstruction =>
      case GaussianTraining =>
      case GaussianFiltering =>
      case Rasterization =>
      case Detection =>
      case GaussianViewer =>
    }
  }

  lemma PrecedesIrreflexive(stage: Stage)
    ensures !Precedes(stage, stage)
  {
    forall path | Chain(path) ensures path[0] != path[|path| - 1] {
      ChainDescends(path);
    }
  }

  ghost predicate Independent(left: Stage, right: Stage) {
    left != right && !Precedes(left, right) && !Precedes(right, left)
  }

  /** The worklist invariant: everything seen is an ancestor, and no dependency is forgotten. */
  ghost predicate Exploring(stage: Stage, found: set<Stage>, pending: seq<Stage>) {
    && (forall s | s in found || s in pending :: Precedes(s, stage))
    && (forall d | d in Dependencies(stage) :: d in found || d in pending)
    && (forall s, d | s in found && d in Dependencies(s) :: d in found || d in pending)
  }

  lemma ExploringStep(stage: Stage, found: set<Stage>, pending: seq<Stage>)
    requires pending != [] && Exploring(stage, found, pending)
    ensures var rest, d := pending[..|pending| - 1], pending[|pending| - 1];
            && (d in found ==> Exploring(stage, found, rest))
            && Exploring(stage, found + {d}, rest + Dependencies(d))
  {
    hide Precedes, Dependencies;
    var rest, d := pending[..|pending| - 1], pending[|pending| - 1];
    assert forall x | x in pending :: x == d || x in rest;
    forall x | x in rest + Dependencies(d) ensures Precedes(x, stage) {
      if x in Dependencies(d) {
        ExtendPrecedes(x, d, stage);
      }
    }
  }

  ghost function AllStages(): (stages: set<Stage>)
    ensures forall s: Stage :: s in stages
  {
    var stages := set s | s in STAGE_ORDER;
    assert forall s: Stage :: s in stages by {
      forall s: Stage ensures s in stages {
        assert STAGE_ORDER[Position(s)] == s;
      }
    }
    stages
  }

  /** The worklist closure of `_ancestors` in shared/stage_scheduler.py. */
  method Ancestors(stage: Stage) returns (result: set<Stage>)
    ensures forall s :: s in result <==> Precedes(s, stage)
  {
    result := {};
    var pending := Dependencies(stage);
    ghost var unseen := AllStages();
    forall d | d in pending ensures Precedes(d, stage) {
      DirectPrecedes(d, stage);
    }
    while pending != []
      invariant Exploring(stage, result, pending)
      invariant forall s: Stage :: s in result || s in unseen
      decreases unseen, |pending|
    {
      var last := |pending| - 1;
      var dependency := pending[last];
      ExploringStep(stage, result, pending);
      pending := pending[..last];
      if dependency !in result {
        result, unseen := result + {dependency}, unseen - {dependency};
        pending := pending + Dependencies(dependency);
      }
    }
    ExploringDone(stage, result);
  }

  lemma ExploringDone(stage: Stage, found: set<Stage>)
    requires Exploring(stage, found, [])
    ensures forall s :: s in found <==> Precedes(s, stage)
  {
    forall path, s | Chain(path) && path[0] == s && path[|path| - 1] == stage ensures s in found {
      ChainInClosure(path, found);
    }
  }

  lemma {:induction false} ChainInClosure(path: seq<Stage>, closed: set<Stage>)
    requires Chain(path)
    requires Exploring(path[|path| - 1], closed, [])
    ensures path[0] in closed
    decreases |path|
  {
    assert path[0] in Dependencies(path[1]);
    if 2 < |path| {
      ChainInClosure(path[1..], closed);
    }
  }

  method StagesAreIndependent(left: Stage, right: Stage) returns (independent: bool)
    ensures independent <==> Independent(left, right)
  {
    if left == right {
      return false;
    }
    var rightAncestors := Ancestors(right);
    if left in rightAncestors {
      return false;
    }
    var leftAncestors := Ancestors(left);
    return right !in leftAncestors;
  }
}
