/**
 * The stage runs of one mission (shared/phase_dag.py, shared/stage_artifacts.py,
 * shared/stage_execution.py and app4-dashboard/api/stage_orchestrator.py): building the runs of a
 * selection, reserving, claiming, publishing, failing, releasing and cleaning them up, each one database
 * transaction, interleaved in any order by any number of executors, their heartbeats and the
 * orchestrator. Analysis runs, tenancy checks and storage quotas are not part of this model.
 */
module StageRuns {
  import opened StageContracts
  import Sequences
  import opened Results

  datatype Status = Blocked | Queued | Running | Succeeded | Failed | Cancelled

  /** The version 5 UUID of run, kind and checksum, or an identity made elsewhere. */
  datatype ArtifactId = Produced(run: nat, kind: string, checksum: string) | Imported(name: string)

  datatype Run = Run(stage: Stage, status: Status, upstream: seq<ArtifactId>)

  /** content stands for URI, size and metadata. */
  datatype Artifact = Artifact(id: ArtifactId, stage: Stage, content: string, parents: set<ArtifactId>)

  /** A mission goes on, was cancelled, or is being deleted, successfully or not. */
  datatype Standing = Going | CancelRequested | Deleting

  /** What the orchestrator notes of the Job of a run: reserved, how often dispatched, confirmed to be gone. */
  datatype Job = Job(reserved: bool, attempts: nat, cleaned: bool)

  const NO_JOB := Job(false, 0, false)

  /** Artifacts are listed in creation order. */
  datatype Mission = Mission(standing: Standing, runs: seq<Run>, artifacts: seq<Artifact>, jobs: seq<Job>) {
    predicate Stopped() { standing != Going }
  }

  datatype StageResult = StageResult(kind: string, checksum: string, content: string)

  function Kind(stage: Stage): string {
    match stage
    case Reconstruction => "reconstruction_workspace"
    case GaussianTraining => "gaussian_training_workspace"
    case GaussianFiltering => "gaussian_filtering_workspace"
    case Rasterization => "raster_product_workspace"
    case Detection => "detection_workspace"
    case GaussianViewer => "gaussian_viewer_bundle"
  }

  // ----- Selections -----

  ghost predicate Distinct(stages: seq<Stage>) {
    forall i, j | 0 <= i < j < |stages| :: stages[i] != stages[j]
  }

  function InOrder(stages: seq<Stage>, k: nat): seq<Stage>
    requires k <= |STAGE_ORDER|
  {
    if k == 0 then []
    else InOrder(stages, k - 1) + (if STAGE_ORDER[k - 1] in stages then [STAGE_ORDER[k - 1]] else [])
  }

  /** Each dependency is selected too, or given as an exact artifact. */
  predicate Supplied(stages: seq<Stage>, imported: map<Stage, ArtifactId>) {
    forall s | s in stages :: forall d | d in Dependencies(s) :: d in stages || d in imported
  }

  predicate Waits(stage: Stage, stages: seq<Stage>, imported: map<Stage, ArtifactId>) {
    exists d | d in Dependencies(stage) :: d in stages && d !in imported
  }

  function ExternalInputs(dependencies: seq<Stage>, imported: map<Stage, ArtifactId>): seq<ArtifactId> {
    if dependencies == [] then []
    else ExternalInputs(dependencies[..|dependencies| - 1], imported)
         + (if dependencies[|dependencies| - 1] in imported then [imported[dependencies[|dependencies| - 1]]] else [])
  }

  function RunFor(stage: Stage, stages: seq<Stage>, imported: map<Stage, ArtifactId>): Run {
    Run(stage, if Waits(stage, stages, imported) then Blocked else Queued, ExternalInputs(Dependencies(stage), imported))
  }

  function RunsFor(ordered: seq<Stage>, stages: seq<Stage>, imported: map<Stage, ArtifactId>): seq<Run> {
    seq(|ordered|, i requires 0 <= i < |ordered| => RunFor(ordered[i], stages, imported))
  }

  /** An empty request means every stage. */
  function Requested(phases: seq<Stage>): seq<Stage> {
    if phases == [] then STAGE_ORDER else phases
  }

  /** What the runs of an accepted selection look like. */
  ghost predicate Selected(runs: seq<Run>, stages: seq<Stage>, imported: map<Stage, ArtifactId>) {
    && runs != [] && Supplied(stages, imported)
    && (forall s | s in stages :: exists i :: 0 <= i < |runs| && runs[i].stage == s)
    && (forall i | 0 <= i < |runs| :: runs[i] == RunFor(runs[i].stage, stages, imported) && runs[i].stage in stages)
    && (forall i, j | 0 <= i < j < |runs| :: Position(runs[i].stage) < Position(runs[j].stage))
  }

  method BuildStageRunSpecs(phases: seq<Stage>, imported: map<Stage, ArtifactId>) returns (r: Option<seq<Run>>)
    ensures r.Some? <==> Distinct(Requested(phases)) && Supplied(Requested(phases), imported)
    ensures r.Some? ==> Selected(r.value, Requested(phases), imported)
  {
    var stages := Requested(phases);
    for i := 0 to |stages|
      invariant Distinct(stages[..i])
    {
      Sequences.PrefixSnoc(stages, i);
      if stages[i] in stages[..i] {
        return None;
      }
    }
    Sequences.PrefixAll(stages);
    var ordered := InOrder(stages, |STAGE_ORDER|);
    OrderedMembers(stages, |STAGE_ORDER|);
    AllOrdered(stages);
    if !Supplied(ordered, imported) {
      return None;
    }
    var runs: seq<Run> := [];
    for i := 0 to |ordered|
      invariant runs == RunsFor(ordered[..i], stages, imported)
    {
      Sequences.PrefixSnoc(ordered, i);
      runs := runs + [RunFor(ordered[i], stages, imported)];
    }
    Sequences.PrefixAll(ordered);
    RunsAreSelected(ordered, stages, imported);
    return Some(runs);
  }

  lemma {:induction false} OrderedMembers(stages: seq<Stage>, k: nat)
    requires k <= |STAGE_ORDER|
    ensures forall s :: s in InOrder(stages, k) <==> s in stages && Position(s) < k
    ensures forall i, j | 0 <= i < j < |InOrder(stages, k)| :: Position(InOrder(stages, k)[i]) < Position(InOrder(stages, k)[j])
  {
    if k > 0 {
      OrderedMembers(stages, k - 1);
      PositionOf(k - 1);
      var before := InOrder(stages, k - 1);
      forall i | 0 <= i < |before| ensures Position(before[i]) < k - 1 {
        assert before[i] in before;
      }
      forall s: Stage | Position(s) == k - 1 ensures s == STAGE_ORDER[k - 1] {
      }
    }
  }

  lemma PositionOf(k: nat)
    requires k < |STAGE_ORDER|
    ensures Position(STAGE_ORDER[k]) == k
  {
    assert k == 0 || k == 1 || k == 2 || k == 3 || k == 4 || k == 5;
  }

  lemma AllOrdered(stages: seq<Stage>)
    ensures forall s :: s in InOrder(stages, |STAGE_ORDER|) <==> s in stages
    ensures stages != [] ==> InOrder(stages, |STAGE_ORDER|) != []
    ensures forall imported :: Supplied(InOrder(stages, |STAGE_ORDER|), imported) <==> Supplied(stages, imported)
  {
    OrderedMembers(stages, |STAGE_ORDER|);
    assert stages != [] ==> stages[0] in InOrder(stages, |STAGE_ORDER|);
  }

  lemma RunsAreSelected(ordered: seq<Stage>, stages: seq<Stage>, imported: map<Stage, ArtifactId>)
    requires ordered == InOrder(stages, |STAGE_ORDER|) && stages != [] && Supplied(stages, imported)
    ensures Selected(RunsFor(ordered, stages, imported), stages, imported)
  {
    hide Supplied, RunFor, InOrder;
    OrderedMembers(stages, |STAGE_ORDER|);
    AllOrdered(stages);
    var runs := RunsFor(ordered, stages, imported);
    RunStages(ordered, stages, imported);
    forall s | s in stages ensures exists i :: 0 <= i < |runs| && runs[i].stage == s {
      assert s in ordered;
      var i :| 0 <= i < |ordered| && ordered[i] == s;
      assert runs[i].stage == s;
    }
  }

  lemma RunStages(ordered: seq<Stage>, stages: seq<Stage>, imported: map<Stage, ArtifactId>)
    ensures forall i | 0 <= i < |ordered| :: RunsFor(ordered, stages, imported)[i].stage == ordered[i]
  {
  }

  // ----- Releasing -----

  ghost predicate Available(artifacts: seq<Artifact>, stage: Stage) {
    exists a | a in artifacts :: a.stage == stage
  }

  /** The most recent artifact of a stage. */
  function Latest(artifacts: seq<Artifact>, stage: Stage): Option<Artifact> {
    if artifacts == [] then None
    else if artifacts[|artifacts| - 1].stage == stage then Some(artifacts[|artifacts| - 1])
    else Latest(artifacts[..|artifacts| - 1], stage)
  }

  predicate AllAvailable(artifacts: seq<Artifact>, dependencies: seq<Stage>) {
    forall d | d in dependencies :: Latest(artifacts, d).Some?
  }

  function Inputs(artifacts: seq<Artifact>, dependencies: seq<Stage>): seq<ArtifactId>
    requires AllAvailable(artifacts, dependencies)
  {
    seq(|dependencies|, i requires 0 <= i < |dependencies| => Latest(artifacts, dependencies[i]).value.id)
  }

  function ReleasedRun(run: Run, artifacts: seq<Artifact>): Run {
    if run.status == Blocked && AllAvailable(artifacts, Dependencies(run.stage))
    then run.(status := Queued, upstream := Inputs(artifacts, Dependencies(run.stage)))
    else run
  }

  function Released(runs: seq<Run>, artifacts: seq<Artifact>): seq<Run> {
    seq(|runs|, i requires 0 <= i < |runs| => ReleasedRun(runs[i], artifacts))
  }

  lemma {:induction false} LatestExists(artifacts: seq<Artifact>, stage: Stage)
    ensures var a := Latest(artifacts, stage); a.Some? ==> a.value in artifacts && a.value.stage == stage
    ensures Latest(artifacts, stage).Some? <==> Available(artifacts, stage)
  {
    if artifacts != [] {
      LatestExists(artifacts[..|artifacts| - 1], stage);
      assert artifacts == artifacts[..|artifacts| - 1] + [artifacts[|artifacts| - 1]];
    }
  }

  // ----- The transactions, as functions -----

  predicate HasId(artifacts: seq<Artifact>, id: ArtifactId) {
    exists a | a in artifacts :: a.id == id
  }

  predicate AllExist(artifacts: seq<Artifact>, ids: seq<ArtifactId>) {
    forall id | id in ids :: HasId(artifacts, id)
  }

  predicate Claimable(m: Mission, r: nat) {
    && r < |m.runs| && r < |m.jobs| && m.jobs[r].reserved
    && m.runs[r].status in {Queued, Running} && !m.Stopped()
    && AllExist(m.artifacts, m.runs[r].upstream)
  }

  function SetStatus(m: Mission, r: nat, status: Status): Mission
    requires r < |m.runs|
  {
    m.(runs := m.runs[r := m.runs[r].(status := status)])
  }

  predicate Publishable(m: Mission, r: nat, inputs: seq<ArtifactId>, result: StageResult) {
    && r < |m.runs| && result.kind == Kind(m.runs[r].stage)
    && !m.Stopped() && m.runs[r].status == Running
    && forall a | a in m.artifacts && a.id == Produced(r, result.kind, result.checksum) ::
         a.content == result.content && a.parents == set id | id in inputs
  }

  /** The parents actually linked: those inputs that exist. */
  function ParentsOf(artifacts: seq<Artifact>, inputs: seq<ArtifactId>): set<ArtifactId> {
    set id | id in inputs && HasId(artifacts, id)
  }

  function WithArtifact(m: Mission, r: nat, inputs: seq<ArtifactId>, result: StageResult): seq<Artifact>
    requires r < |m.runs|
  {
    var id := Produced(r, result.kind, result.checksum);
    if HasId(m.artifacts, id) then m.artifacts
    else m.artifacts + [Artifact(id, m.runs[r].stage, result.content, ParentsOf(m.artifacts, inputs))]
  }

  function Published(m: Mission, r: nat, inputs: seq<ArtifactId>, result: StageResult): Mission
    requires r < |m.runs|
  {
    var artifacts := WithArtifact(m, r, inputs, result);
    m.(runs := Released(m.runs[r := m.runs[r].(status := Succeeded)], artifacts), artifacts := artifacts)
  }

  /** A failure of a stopped mission or a cancelled run is recorded as a cancellation. */
  function Effective(m: Mission, r: nat, status: Status): Status
    requires r < |m.runs|
  {
    if status == Failed && (m.Stopped() || m.runs[r].status == Cancelled) then Cancelled else status
  }

  function Beaten(m: Mission, r: nat): Mission
    requires r < |m.runs|
  {
    if m.Stopped() || m.runs[r].status == Cancelled then SetStatus(m, r, Cancelled) else m
  }

  function StopActive(runs: seq<Run>): seq<Run> {
    seq(|runs|, i requires 0 <= i < |runs| =>
      if runs[i].status in {Queued, Running} then runs[i].(status := Cancelled) else runs[i])
  }

  // ----- The orchestrator's transactions, as functions -----

  predicate Pending(status: Status) { status in {Queued, Running} }

  predicate Reservable(m: Mission, r: nat, limit: nat) {
    && r < |m.runs| && r < |m.jobs| && m.runs[r].status == Queued && m.standing == Going
    && !m.jobs[r].reserved && m.jobs[r].attempts < limit
  }

  function WithJob(m: Mission, r: nat, job: Job): Mission
    requires r < |m.jobs|
  {
    m.(jobs := m.jobs[r := job])
  }

  function Reserved(m: Mission, r: nat): Mission
    requires r < |m.jobs|
  {
    WithJob(m, r, m.jobs[r].(reserved := true, attempts := m.jobs[r].attempts + 1))
  }

  /** After its last try a run whose dispatch raised has failed, whatever it was before. */
  function DispatchError(m: Mission, r: nat, limit: nat): Mission
    requires r < |m.runs| && r < |m.jobs|
  {
    if m.jobs[r].attempts >= limit then SetStatus(m, r, Failed)
    else WithJob(m, r, m.jobs[r].(reserved := false))
  }

  /**
   * A Job that was seen: with active Pods, ended without an artifact, complete with every detection shard
   * accounted for, or gone and perhaps created again.
   */
  datatype Seen = JobActive | JobEnded | ShardsDone | JobMissing(created: bool)

  predicate Observable(m: Mission, r: nat) {
    && r < |m.runs| && r < |m.jobs| && m.jobs[r].reserved && !m.jobs[r].cleaned
    && Pending(m.runs[r].status) && !m.Stopped()
  }

  function Observed(m: Mission, r: nat, seen: Seen, limit: nat): Mission
    requires r < |m.runs| && r < |m.jobs|
  {
    match seen
    case JobActive => SetStatus(m, r, Running)
    case JobEnded => SetStatus(m, r, Failed)
    case ShardsDone =>
      if m.runs[r].stage == Detection then WithJob(SetStatus(m, r, Queued), r, NO_JOB) else SetStatus(m, r, Failed)
    case JobMissing(created) =>
      var tried := WithJob(m, r, m.jobs[r].(attempts := m.jobs[r].attempts + 1));
      if tried.jobs[r].attempts > limit || (!created && tried.jobs[r].attempts >= limit)
      then SetStatus(tried, r, Failed) else tried
  }

  /** The Job of a run that is over, or whose mission is, stays a candidate until it is confirmed to be gone. */
  predicate Cleanable(m: Mission, r: nat) {
    && r < |m.runs| && r < |m.jobs| && m.jobs[r].reserved && !m.jobs[r].cleaned
    && (!Pending(m.runs[r].status) || m.Stopped())
  }

  function CleanedUp(m: Mission, r: nat, confirmed: bool): Mission
    requires r < |m.runs| && r < |m.jobs|
  {
    var noted := WithJob(m, r, m.jobs[r].(cleaned := confirmed));
    if Pending(m.runs[r].status) || m.standing == CancelRequested then SetStatus(noted, r, Cancelled) else noted
  }

  // ----- The transactions, as the database sees them -----

  class MissionRecord {
    var standing: Standing
    var runs: seq<Run>
    var artifacts: seq<Artifact>
    var jobs: seq<Job>

    function View(): Mission
      reads this
    {
      Mission(standing, runs, artifacts, jobs)
    }

    /** Claims, or rejoins, one run; answers its exact inputs. */
    method LoadStageExecutionContext(r: nat, expected: Stage) returns (inputs: Option<seq<ArtifactId>>)
      requires r < |runs| == |jobs|
      modifies this
      ensures inputs.Some? <==> old(Claimable(View(), r)) && expected == old(runs[r].stage)
      ensures inputs.Some? ==> inputs.value == old(runs[r].upstream) && View() == SetStatus(old(View()), r, Running)
      ensures inputs.None? ==> View() == old(View())
    {
      var run := runs[r];
      if run.stage != expected {
        return None;
      }
      if !jobs[r].reserved {
        return None;
      }
      if run.status !in {Queued, Running} {
        return None;
      }
      if standing != Going {
        return None;
      }
      if !AllExist(artifacts, run.upstream) {
        return None;
      }
      runs := runs[r := run.(status := Running)];
      return Some(run.upstream);
    }

    /** False, and the run cancelled, once the mission is stopped or the run cancelled. */
    method Heartbeat(r: nat) returns (alive: bool)
      requires r < |runs|
      modifies this
      ensures View() == Beaten(old(View()), r)
      ensures alive <==> old(standing) == Going && old(runs[r].status) != Cancelled
    {
      if standing != Going || runs[r].status == Cancelled {
        runs := runs[r := runs[r].(status := Cancelled)];
        return false;
      }
      assert runs == runs[r := runs[r]];
      return true;
    }

    method PublishResult(r: nat, inputs: seq<ArtifactId>, result: StageResult) returns (id: Option<ArtifactId>)
      requires r < |runs|
      modifies this
      ensures id.Some? <==> old(Publishable(View(), r, inputs, result))
      ensures id.Some? ==> View() == Published(old(View()), r, inputs, result)
      ensures id.Some? ==> id.value == Produced(r, result.kind, result.checksum)
      ensures id.None? ==> View() == old(View())
    {
      if result.kind != Kind(runs[r].stage) {
        return None;
      }
      if standing != Going || runs[r].status == Cancelled {
        return None;
      }
      if runs[r].status != Running {
        return None;
      }
      var artifactId := Produced(r, result.kind, result.checksum);
      if HasId(artifacts, artifactId) {
        if exists a | a in artifacts && a.id == artifactId ::
             a.content != result.content || a.parents != set i | i in inputs {
          return None;
        }
      } else {
        artifacts := artifacts + [Artifact(artifactId, runs[r].stage, result.content, ParentsOf(artifacts, inputs))];
      }
      runs := runs[r := runs[r].(status := Succeeded)];
      ReleaseReady();
      return Some(artifactId);
    }

    /** Releases every blocked run whose dependencies all have an artifact now. */
    method ReleaseReady()
      modifies this
      ensures View() == old(View()).(runs := Released(old(runs), old(artifacts)))
    {
      var latest := LatestByStage(artifacts);
      for i := 0 to |runs|
        invariant standing == old(standing) && artifacts == old(artifacts) && jobs == old(jobs) && |runs| == |old(runs)|
        invariant forall k | 0 <= k < |runs| :: runs[k] == if k < i then ReleasedRun(old(runs)[k], artifacts) else old(runs)[k]
      {
        var dependencies := Dependencies(runs[i].stage);
        if runs[i].status == Blocked && forall d | d in dependencies :: d in latest {
          var upstream := seq(|dependencies|, k requires 0 <= k < |dependencies| => latest[dependencies[k]].id);
          assert upstream == Inputs(artifacts, dependencies);
          runs := runs[i := runs[i].(upstream := upstream, status := Queued)];
        }
      }
      assert runs == Released(old(runs), artifacts);
    }

    /** The status is written whatever it was before. */
    method MarkTerminal(r: nat, status: Status) returns (effective: Status)
      requires r < |runs|
      modifies this
      ensures effective == Effective(old(View()), r, status)
      ensures View() == SetStatus(old(View()), r, effective)
    {
      effective := if status == Failed && (standing != Going || runs[r].status == Cancelled) then Cancelled else status;
      runs := runs[r := runs[r].(status := effective)];
    }

    /** After a dispatch that raised; the status of the run is not looked at. */
    method RecordDispatchError(r: nat, limit: nat)
      requires r < |runs| && r < |jobs|
      modifies this
      ensures View() == DispatchError(old(View()), r, limit)
    {
      if jobs[r].attempts >= limit {
        runs := runs[r := runs[r].(status := Failed)];
      } else {
        jobs := jobs[r := jobs[r].(reserved := false)];
      }
    }

    /** The second transaction of a reconciliation that asked for the Job of the run to be removed. */
    method RecordCleanup(r: nat, confirmed: bool)
      requires r < |runs| && r < |jobs|
      modifies this
      ensures View() == if old(Cleanable(View(), r)) then CleanedUp(old(View()), r, confirmed) else old(View())
    {
      if !jobs[r].reserved || jobs[r].cleaned || (Pending(runs[r].status) && standing == Going) {
        return;
      }
      if confirmed {
        jobs := jobs[r := jobs[r].(cleaned := true)];
      }
      assert jobs == old(jobs)[r := old(jobs)[r].(cleaned := confirmed)];
      if Pending(runs[r].status) || standing == CancelRequested {
        runs := runs[r := runs[r].(status := Cancelled)];
      }
    }
  }

  /** Newest first, the first artifact of a stage is the one that counts. */
  method LatestByStage(artifacts: seq<Artifact>) returns (latest: map<Stage, Artifact>)
    ensures forall s :: s in latest <==> Latest(artifacts, s).Some?
    ensures forall s | s in latest :: latest[s] == Latest(artifacts, s).value
  {
    latest := map[];
    var i := |artifacts|;
    Sequences.PrefixAll(artifacts);
    while i > 0
      invariant 0 <= i <= |artifacts|
      invariant forall s :: Latest(artifacts, s) == if s in latest then Some(latest[s]) else Latest(artifacts[..i], s)
    {
      i := i - 1;
      Sequences.PrefixSnoc(artifacts, i);
      Sequences.DropSnoc(artifacts[..i], artifacts[i]);
      if artifacts[i].stage !in latest {
        latest := latest[artifacts[i].stage := artifacts[i]];
      }
    }
    assert artifacts[..0] == [];
  }

  // ----- Runs of the whole system -----

  /** An executor that claimed a run, with the inputs it was given; its heartbeat may outlast its work. */
  datatype Executor = Executor(run: nat, inputs: seq<ArtifactId>, live: bool, beating: bool)

  /** dispatching: the runs whose Job an orchestrator is creating; limit: the tries a run is given. */
  datatype System = System(mission: Mission, executors: seq<Executor>, dispatching: set<nat>, limit: nat)

  datatype Step =
    | Claim(run: nat)
    | Beat(executor: nat)
    | Publish(executor: nat, result: StageResult, acknowledged: bool)
    | End(executor: nat, status: Status)
    | StopBeat(executor: nat)
    | Crash(executor: nat)
    | CancelMission(stopActive: bool)
    | DeleteMission
    | Reserve(run: nat, valid: bool)
    | DispatchEnds(run: nat)
    | DispatchFails(run: nat)
    | Observe(run: nat, seen: Seen)
    | Cleanup(run: nat, confirmed: bool)

  predicate Live(s: System, e: nat) {
    e < |s.executors| && s.executors[e].live && s.executors[e].run < |s.mission.runs|
  }

  predicate Beats(s: System, e: nat) {
    e < |s.executors| && (s.executors[e].live || s.executors[e].beating) && s.executors[e].run < |s.mission.runs|
  }

  function Retire(s: System, e: nat): seq<Executor>
    requires e < |s.executors|
  {
    s.executors[e := s.executors[e].(live := false)]
  }

  /** An executor that is not told of its commit takes it for a failure and stays at work. */
  function Replied(s: System, e: nat, acknowledged: bool): seq<Executor>
    requires e < |s.executors|
  {
    if acknowledged then Retire(s, e) else s.executors
  }

  /** One transaction; a step that is not possible changes nothing. */
  function Next(s: System, step: Step): System {
    match step
    case Claim(r) =>
      if Claimable(s.mission, r)
      then s.(mission := SetStatus(s.mission, r, Running),
              executors := s.executors + [Executor(r, s.mission.runs[r].upstream, true, true)])
      else s
    case Beat(e) =>
      if Beats(s, e) then s.(mission := Beaten(s.mission, s.executors[e].run)) else s
    case Publish(e, result, acknowledged) =>
      if Live(s, e) && Publishable(s.mission, s.executors[e].run, s.executors[e].inputs, result)
      then s.(mission := Published(s.mission, s.executors[e].run, s.executors[e].inputs, result),
              executors := Replied(s, e, acknowledged))
      else s
    case End(e, status) =>
      if Live(s, e) && status in {Failed, Cancelled}
      then s.(mission := SetStatus(s.mission, s.executors[e].run, Effective(s.mission, s.executors[e].run, status)),
              executors := Retire(s, e))
      else s
    case StopBeat(e) =>
      if e < |s.executors| then s.(executors := s.executors[e := s.executors[e].(beating := false)]) else s
    case Crash(e) =>
      if e < |s.executors| then s.(executors := s.executors[e := s.executors[e].(live := false, beating := false)]) else s
    case CancelMission(stopActive) =>
      s.(mission := s.mission.(standing := CancelRequested,
                               runs := if stopActive then StopActive(s.mission.runs) else s.mission.runs))
    case DeleteMission =>
      s.(mission := s.mission.(standing := Deleting))
    case Reserve(r, valid) =>
      if !Reservable(s.mission, r, s.limit) then s
      else if !valid then s.(mission := SetStatus(s.mission, r, Failed))
      else s.(mission := Reserved(s.mission, r), dispatching := s.dispatching + {r})
    case DispatchEnds(r) =>
      s.(dispatching := s.dispatching - {r})
    case DispatchFails(r) =>
      if r in s.dispatching && r < |s.mission.runs| && r < |s.mission.jobs|
      then s.(mission := DispatchError(s.mission, r, s.limit), dispatching := s.dispatching - {r})
      else s
    case Observe(r, seen) =>
      if Observable(s.mission, r) then s.(mission := Observed(s.mission, r, seen, s.limit)) else s
    case Cleanup(r, confirmed) =>
      if Cleanable(s.mission, r) then s.(mission := CleanedUp(s.mission, r, confirmed)) else s
  }

  function After(s: System, steps: seq<Step>): System {
    if steps == [] then s else Next(After(s, steps[..|steps| - 1]), steps[|steps| - 1])
  }

  /** A mission whose runs were just built, in a database that may already hold artifacts. */
  ghost predicate Start(s: System, stages: seq<Stage>, imported: map<Stage, ArtifactId>) {
    && Selected(s.mission.runs, stages, imported) && s.executors == [] && Lineage(s.mission.artifacts)
    && s.dispatching == {} && |s.mission.jobs| == |s.mission.runs| && (forall j | j in s.mission.jobs :: j == NO_JOB)
    && forall a | a in s.mission.artifacts :: a.id.Imported?
  }

  /** What a run of this mission produced carries the stage of that run. */
  ghost predicate Origins(m: Mission) {
    forall a | a in m.artifacts && a.id.Produced? :: a.id.run < |m.runs| && a.stage == m.runs[a.id.run].stage
  }

  /** Identities are unique, and parents are older. */
  ghost predicate Lineage(artifacts: seq<Artifact>) {
    && (forall i, j | 0 <= i < j < |artifacts| :: artifacts[i].id != artifacts[j].id)
    && (forall i, p | 0 <= i < |artifacts| && p in artifacts[i].parents :: HasId(artifacts[..i], p))
  }

  ghost predicate Stored(artifacts: seq<Artifact>, id: ArtifactId, stage: Stage) {
    exists a | a in artifacts :: a.id == id && a.stage == stage
  }

  /** Input k is the exact artifact that was asked for, or, after a wait, an existing artifact of the dependency. */
  ghost predicate InputNamed(artifacts: seq<Artifact>, run: Run, k: nat, stages: seq<Stage>, imported: map<Stage, ArtifactId>)
    requires k < |run.upstream| == |Dependencies(run.stage)|
  {
    var d := Dependencies(run.stage)[k];
    if Waits(run.stage, stages, imported) then Stored(artifacts, run.upstream[k], d)
    else d in imported && run.upstream[k] == imported[d]
  }

  /** A run that is not blocked names one input per dependency, in order. */
  ghost predicate RunOk(artifacts: seq<Artifact>, run: Run, stages: seq<Stage>, imported: map<Stage, ArtifactId>) {
    if run.status == Blocked then run == RunFor(run.stage, stages, imported)
    else |run.upstream| == |Dependencies(run.stage)|
         && forall k | 0 <= k < |run.upstream| :: InputNamed(artifacts, run, k, stages, imported)
  }

  ghost predicate RunsOk(m: Mission, stages: seq<Stage>, imported: map<Stage, ArtifactId>) {
    forall i | 0 <= i < |m.runs| :: RunOk(m.artifacts, m.runs[i], stages, imported)
  }

  /** Each executor works on the inputs its run names, and they exist. */
  ghost predicate ExecutorOk(m: Mission, e: Executor) {
    && e.run < |m.runs| && m.runs[e.run].status != Blocked && e.inputs == m.runs[e.run].upstream
    && AllExist(m.artifacts, e.inputs)
  }

  ghost predicate ExecutorsOk(s: System) {
    forall e | e in s.executors :: ExecutorOk(s.mission, e)
  }

  /** A run that succeeded left its artifact, linked to exactly its inputs. */
  ghost predicate Evidence(artifacts: seq<Artifact>, run: Run, r: nat) {
    exists a | a in artifacts ::
      a.id.Produced? && a.id.run == r && a.id.kind == Kind(run.stage) && a.stage == run.stage
      && a.parents == set id | id in run.upstream
  }

  ghost predicate SuccessProved(m: Mission) {
    forall r | 0 <= r < |m.runs| && m.runs[r].status == Succeeded :: Evidence(m.artifacts, m.runs[r], r)
  }

  /** No run waits for artifacts that are all there. */
  ghost predicate Drained(m: Mission) {
    forall r | 0 <= r < |m.runs| && m.runs[r].status == Blocked :: !AllAvailable(m.artifacts, Dependencies(m.runs[r].stage))
  }

  ghost predicate DrainedOnceSucceeded(m: Mission) {
    (exists r :: 0 <= r < |m.runs| && m.runs[r].status == Succeeded) ==> Drained(m)
  }

  ghost predicate SameStages(a: seq<Run>, b: seq<Run>) {
    |a| == |b| && forall i | 0 <= i < |a| :: a[i].stage == b[i].stage
  }

  /** A blocked run has no Job, and only a run that is over has its Job confirmed to be gone. */
  ghost predicate JobsOk(s: System) {
    && |s.mission.jobs| == |s.mission.runs|
    && forall r | 0 <= r < |s.mission.runs| ::
         && (s.mission.runs[r].status == Blocked ==> s.mission.jobs[r] == NO_JOB && r !in s.dispatching)
         && (s.mission.jobs[r].cleaned ==> s.mission.runs[r].status in {Succeeded, Failed, Cancelled})
  }

  ghost predicate Inv(s: System, stages: seq<Stage>, imported: map<Stage, ArtifactId>) {
    && Lineage(s.mission.artifacts) && Origins(s.mission) && RunsOk(s.mission, stages, imported) && ExecutorsOk(s)
    && SuccessProved(s.mission) && DrainedOnceSucceeded(s.mission) && JobsOk(s)
  }

  // ----- Steps that only change statuses -----

  /** Statuses change, but none becomes blocked, leaves blocked, or newly succeeds. */
  ghost predicate Restatus(a: seq<Run>, b: seq<Run>) {
    && |a| == |b|
    && forall i | 0 <= i < |a| ::
         && b[i] == a[i].(status := b[i].status)
         && (b[i].status == Blocked <==> a[i].status == Blocked) && (b[i].status == Succeeded ==> a[i].status == Succeeded)
  }

  lemma RestatusKeeps(s: System, s': System, stages: seq<Stage>, imported: map<Stage, ArtifactId>)
    requires Inv(s, stages, imported) && Restatus(s.mission.runs, s'.mission.runs)
    requires s'.mission.artifacts == s.mission.artifacts && ExecutorsOk(s') && JobsOk(s')
    ensures Inv(s', stages, imported)
  {
    hide AllAvailable, Evidence, AllExist, Stored, Lineage, ExecutorsOk, JobsOk;
    var m, m' := s.mission, s'.mission;
    forall i | 0 <= i < |m'.runs| ensures RunOk(m'.artifacts, m'.runs[i], stages, imported) {
      assert RunOk(m.artifacts, m.runs[i], stages, imported);
      StatusIrrelevant(m.artifacts, m.runs[i], m'.runs[i].status, stages, imported);
    }
    forall r | 0 <= r < |m'.runs| && m'.runs[r].status == Succeeded ensures Evidence(m'.artifacts, m'.runs[r], r) {
      assert Evidence(m.artifacts, m.runs[r], r);
      EvidenceKept(m.artifacts, m.artifacts, m.runs[r], m'.runs[r], r);
    }
  }

  lemma StatusIrrelevant(artifacts: seq<Artifact>, run: Run, status: Status, stages: seq<Stage>, imported: map<Stage, ArtifactId>)
    requires RunOk(artifacts, run, stages, imported) && (run.status == Blocked <==> status == Blocked)
    ensures RunOk(artifacts, run.(status := status), stages, imported)
  {
    if status != Blocked {
      forall k | 0 <= k < |run.upstream| ensures InputNamed(artifacts, run.(status := status), k, stages, imported) {
        assert InputNamed(artifacts, run, k, stages, imported);
      }
    }
  }

  lemma EvidenceKept(artifacts: seq<Artifact>, more: seq<Artifact>, run: Run, run': Run, r: nat)
    requires Evidence(artifacts, run, r) && run'.stage == run.stage && run'.upstream == run.upstream
    requires forall a | a in artifacts :: a in more
    ensures Evidence(more, run', r)
  {
  }

  /** Executors stay as they were, but for what they are doing. */
  ghost predicate SameClaims(a: seq<Executor>, b: seq<Executor>) {
    |a| == |b| && forall e | 0 <= e < |a| :: a[e].run == b[e].run && a[e].inputs == b[e].inputs
  }

  lemma ExecutorsKept(s: System, s': System)
    requires ExecutorsOk(s) && Restatus(s.mission.runs, s'.mission.runs) && s'.mission.artifacts == s.mission.artifacts
    requires SameClaims(s.executors, s'.executors)
    ensures ExecutorsOk(s')
  {
    hide AllExist;
    forall x | x in s'.executors ensures ExecutorOk(s'.mission, x) {
      var e :| 0 <= e < |s'.executors| && s'.executors[e] == x;
      assert ExecutorOk(s.mission, s.executors[e]);
    }
  }

  lemma ClaimKeeps(s: System, r: nat, stages: seq<Stage>, imported: map<Stage, ArtifactId>)
    requires Inv(s, stages, imported)
    ensures Inv(Next(s, Claim(r)), stages, imported)
  {
    hide Lineage, RunsOk, SuccessProved, DrainedOnceSucceeded, AllExist, JobsOk;
    JobsKept(s, Claim(r));
    if Claimable(s.mission, r) {
      var s' := Next(s, Claim(r));
      ExecutorsKept(s, s.(mission := s'.mission));
      RestatusKeeps(s, s', stages, imported);
    }
  }

  lemma OthersKeep(s: System, step: Step, stages: seq<Stage>, imported: map<Stage, ArtifactId>)
    requires Inv(s, stages, imported) && !step.Claim? && !step.Publish?
    ensures Inv(Next(s, step), stages, imported)
  {
    hide Lineage, Origins, RunsOk, SuccessProved, DrainedOnceSucceeded, ExecutorsOk, JobsOk, Next, Restatus;
    JobsKept(s, step);
    OnlyStatuses(s, step);
    ExecutorsKept(s, Next(s, step));
    RestatusKeeps(s, Next(s, step), stages, imported);
  }

  lemma OnlyStatuses(s: System, step: Step)
    requires ExecutorsOk(s) && JobsOk(s) && !step.Claim? && !step.Publish?
    ensures var s' := Next(s, step);
            && Restatus(s.mission.runs, s'.mission.runs) && SameClaims(s.executors, s'.executors)
            && s'.mission.artifacts == s.mission.artifacts
  {
    if ByOrchestrator(step) {
      OnlyStatusesThere(s, step);
    } else {
      OnlyStatusesHere(s, step);
    }
  }

  predicate ByOrchestrator(step: Step) {
    step.Reserve? || step.DispatchEnds? || step.DispatchFails? || step.Observe? || step.Cleanup?
  }

  lemma OnlyStatusesThere(s: System, step: Step)
    requires JobsOk(s) && ByOrchestrator(step)
    ensures var s' := Next(s, step);
            && Restatus(s.mission.runs, s'.mission.runs) && s'.executors == s.executors
            && s'.mission.artifacts == s.mission.artifacts
  {
    hide Observed;
    if step.Observe? && Observable(s.mission, step.run) {
      ObservedStatuses(s.mission, step.run, step.seen, s.limit);
    }
  }

  lemma ObservedStatuses(m: Mission, r: nat, seen: Seen, limit: nat)
    requires Observable(m, r)
    ensures Restatus(m.runs, Observed(m, r, seen, limit).runs) && Observed(m, r, seen, limit).artifacts == m.artifacts
  {
  }

  lemma OnlyStatusesHere(s: System, step: Step)
    requires ExecutorsOk(s) && !step.Claim? && !step.Publish? && !ByOrchestrator(step)
    ensures var s' := Next(s, step);
            && Restatus(s.mission.runs, s'.mission.runs) && SameClaims(s.executors, s'.executors)
            && s'.mission.artifacts == s.mission.artifacts
  {
    hide AllExist;
    assert forall e | 0 <= e < |s.executors| :: ExecutorOk(s.mission, s.executors[e]);
  }

  lemma JobsKept(s: System, step: Step)
    requires JobsOk(s)
    ensures JobsOk(Next(s, step))
  {
    if step.Publish? {
      PublishKeepsJobs(s, step);
    } else if step.Observe? {
      ObserveKeepsJobs(s, step);
    } else if ByOrchestrator(step) {
      OrchestratorKeepsJobs(s, step);
    } else {
      OthersKeepJobs(s, step);
    }
  }

  lemma PublishKeepsJobs(s: System, step: Step)
    requires JobsOk(s) && step.Publish?
    ensures JobsOk(Next(s, step))
  {
    hide AllExist, AllAvailable, WithArtifact, Inputs;
  }

  lemma ObserveKeepsJobs(s: System, step: Step)
    requires JobsOk(s) && step.Observe?
    ensures JobsOk(Next(s, step))
  {
  }

  lemma OrchestratorKeepsJobs(s: System, step: Step)
    requires JobsOk(s) && ByOrchestrator(step) && !step.Observe?
    ensures JobsOk(Next(s, step))
  {
  }

  lemma OthersKeepJobs(s: System, step: Step)
    requires JobsOk(s) && !step.Publish? && !ByOrchestrator(step)
    ensures JobsOk(Next(s, step))
  {
    hide AllExist;
  }

  // ----- Publishing -----

  lemma PublishKeeps(s: System, e: nat, result: StageResult, acknowledged: bool, stages: seq<Stage>, imported: map<Stage, ArtifactId>)
    requires Inv(s, stages, imported)
    ensures Inv(Next(s, Publish(e, result, acknowledged)), stages, imported)
  {
    hide Lineage, RunsOk, SuccessProved, Drained, DrainedOnceSucceeded, ExecutorsOk, Publishable, Published, JobsOk;
    JobsKept(s, Publish(e, result, acknowledged));
    if Live(s, e) && Publishable(s.mission, s.executors[e].run, s.executors[e].inputs, result) {
      var x := s.executors[e];
      var m := Published(s.mission, x.run, x.inputs, result);
      LiveOk(s, e);
      PublishLineage(s.mission, x, result);
      PublishRuns(s.mission, x, result, stages, imported);
      PublishExecutors(s, e, result, acknowledged);
      PublishSuccess(s.mission, x, result);
      PublishDrains(s.mission, x.run, x.inputs, result);
      DrainedEnough(m);
    }
  }

  lemma DrainedEnough(m: Mission)
    requires Drained(m)
    ensures DrainedOnceSucceeded(m)
  {
  }

  lemma LiveOk(s: System, e: nat)
    requires ExecutorsOk(s) && Live(s, e)
    ensures ExecutorOk(s.mission, s.executors[e])
  {
    assert s.executors[e] in s.executors;
  }

  /** The artifacts after a publication: those before, and the new one unless it was there. */
  lemma ArtifactsGrow(m: Mission, r: nat, inputs: seq<ArtifactId>, result: StageResult)
    requires r < |m.runs|
    ensures forall a | a in m.artifacts :: a in WithArtifact(m, r, inputs, result)
    ensures HasId(WithArtifact(m, r, inputs, result), Produced(r, result.kind, result.checksum))
  {
    var all := WithArtifact(m, r, inputs, result);
    if !HasId(m.artifacts, Produced(r, result.kind, result.checksum)) {
      assert all[|m.artifacts|] in all;
    }
  }

  lemma PublishLineage(m: Mission, x: Executor, result: StageResult)
    requires Lineage(m.artifacts) && ExecutorOk(m, x)
    ensures Lineage(Published(m, x.run, x.inputs, result).artifacts)
  {
    var id := Produced(x.run, result.kind, result.checksum);
    if !HasId(m.artifacts, id) {
      var all := WithArtifact(m, x.run, x.inputs, result);
      var n := |m.artifacts|;
      forall i | 0 <= i < n ensures all[i].id != id {
        assert m.artifacts[i] in m.artifacts;
      }
      forall i, p | 0 <= i < |all| && p in all[i].parents ensures HasId(all[..i], p) {
        assert all[..i] == m.artifacts[..i];
        Sequences.PrefixAll(m.artifacts);
      }
    }
  }

  lemma MoreArtifacts(artifacts: seq<Artifact>, more: seq<Artifact>, run: Run, stages: seq<Stage>, imported: map<Stage, ArtifactId>)
    requires RunOk(artifacts, run, stages, imported) && forall a | a in artifacts :: a in more
    ensures RunOk(more, run, stages, imported)
  {
    if run.status != Blocked {
      forall k | 0 <= k < |run.upstream| ensures InputNamed(more, run, k, stages, imported) {
        assert InputNamed(artifacts, run, k, stages, imported);
      }
    }
  }

  lemma ReleaseNames(artifacts: seq<Artifact>, run: Run, stages: seq<Stage>, imported: map<Stage, ArtifactId>)
    requires RunOk(artifacts, run, stages, imported)
    ensures RunOk(artifacts, ReleasedRun(run, artifacts), stages, imported)
  {
    var next := ReleasedRun(run, artifacts);
    if next != run {
      forall k | 0 <= k < |next.upstream| ensures InputNamed(artifacts, next, k, stages, imported) {
        LatestExists(artifacts, Dependencies(run.stage)[k]);
        assert Dependencies(run.stage)[k] in Dependencies(run.stage);
      }
    }
  }

  lemma PublishRuns(m: Mission, x: Executor, result: StageResult, stages: seq<Stage>, imported: map<Stage, ArtifactId>)
    requires RunsOk(m, stages, imported) && ExecutorOk(m, x)
    ensures RunsOk(Published(m, x.run, x.inputs, result), stages, imported)
  {
    hide RunOk, WithArtifact, ReleasedRun;
    var m' := Published(m, x.run, x.inputs, result);
    ArtifactsGrow(m, x.run, x.inputs, result);
    var marked := m.runs[x.run := m.runs[x.run].(status := Succeeded)];
    forall i | 0 <= i < |m'.runs| ensures RunOk(m'.artifacts, m'.runs[i], stages, imported) {
      assert RunOk(m.artifacts, m.runs[i], stages, imported);
      if i == x.run {
        StatusIrrelevant(m.artifacts, m.runs[i], Succeeded, stages, imported);
      }
      MoreArtifacts(m.artifacts, m'.artifacts, marked[i], stages, imported);
      ReleaseNames(m'.artifacts, marked[i], stages, imported);
    }
  }

  /** Only blocked runs are released. */
  lemma ReleaseTouchesBlocked(run: Run, artifacts: seq<Artifact>)
    ensures run.status != Blocked ==> ReleasedRun(run, artifacts) == run
    ensures ReleasedRun(run, artifacts).stage == run.stage
    ensures ReleasedRun(run, artifacts).status == Succeeded ==> run.status == Succeeded
    ensures ReleasedRun(run, artifacts).status == Blocked ==>
              ReleasedRun(run, artifacts) == run && !AllAvailable(artifacts, Dependencies(run.stage))
  {
  }

  lemma PublishExecutors(s: System, e: nat, result: StageResult, acknowledged: bool)
    requires ExecutorsOk(s) && Live(s, e)
    ensures ExecutorsOk(s.(mission := Published(s.mission, s.executors[e].run, s.executors[e].inputs, result),
                           executors := Replied(s, e, acknowledged)))
  {
    hide ReleasedRun, WithArtifact;
    var x := s.executors[e];
    var m' := Published(s.mission, x.run, x.inputs, result);
    ArtifactsGrow(s.mission, x.run, x.inputs, result);
    forall y | y in Replied(s, e, acknowledged) ensures ExecutorOk(m', y) {
      var i :| 0 <= i < |s.executors| && Replied(s, e, acknowledged)[i] == y;
      assert ExecutorOk(s.mission, s.executors[i]);
      ReleaseTouchesBlocked(s.mission.runs[x.run := s.mission.runs[x.run].(status := Succeeded)][y.run], m'.artifacts);
    }
  }

  lemma PublishSuccess(m: Mission, x: Executor, result: StageResult)
    requires SuccessProved(m) && Origins(m) && ExecutorOk(m, x) && Publishable(m, x.run, x.inputs, result)
    ensures SuccessProved(Published(m, x.run, x.inputs, result)) && Origins(Published(m, x.run, x.inputs, result))
  {
    hide ReleasedRun, Evidence;
    var m' := Published(m, x.run, x.inputs, result);
    var marked := m.runs[x.run := m.runs[x.run].(status := Succeeded)];
    ArtifactsGrow(m, x.run, x.inputs, result);
    forall i | 0 <= i < |m.runs| ensures m'.runs[i].stage == m.runs[i].stage {
      ReleaseTouchesBlocked(marked[i], m'.artifacts);
    }
    forall r | 0 <= r < |m'.runs| && m'.runs[r].status == Succeeded ensures Evidence(m'.artifacts, m'.runs[r], r) {
      ReleaseTouchesBlocked(marked[r], m'.artifacts);
      if r == x.run {
        NewEvidence(m, x, result);
      } else {
        assert Evidence(m.artifacts, m.runs[r], r);
        EvidenceKept(m.artifacts, m'.artifacts, m.runs[r], m'.runs[r], r);
      }
    }
  }

  lemma NewEvidence(m: Mission, x: Executor, result: StageResult)
    requires Origins(m) && ExecutorOk(m, x) && Publishable(m, x.run, x.inputs, result)
    ensures Evidence(WithArtifact(m, x.run, x.inputs, result), m.runs[x.run].(status := Succeeded), x.run)
  {
    var all := WithArtifact(m, x.run, x.inputs, result);
    ArtifactsGrow(m, x.run, x.inputs, result);
    if !HasId(m.artifacts, Produced(x.run, result.kind, result.checksum)) {
      assert all[|m.artifacts|] in all;
    }
  }

  /** After a publication nothing waits for artifacts that are all there. */
  lemma PublishDrains(m: Mission, r: nat, inputs: seq<ArtifactId>, result: StageResult)
    requires r < |m.runs|
    ensures Drained(Published(m, r, inputs, result))
  {
    hide ReleasedRun, WithArtifact, AllAvailable;
    var m' := Published(m, r, inputs, result);
    forall i | 0 <= i < |m'.runs| && m'.runs[i].status == Blocked ensures !AllAvailable(m'.artifacts, Dependencies(m'.runs[i].stage)) {
      ReleaseTouchesBlocked(m.runs[r := m.runs[r].(status := Succeeded)][i], m'.artifacts);
    }
  }

  // ----- What every run of the system keeps -----

  lemma StartInv(s: System, stages: seq<Stage>, imported: map<Stage, ArtifactId>)
    requires Start(s, stages, imported)
    ensures Inv(s, stages, imported)
  {
    hide Lineage, RunOk, AllAvailable, RunFor;
    var m := s.mission;
    forall i | 0 <= i < |m.runs| ensures RunOk(m.artifacts, m.runs[i], stages, imported) {
      assert m.runs[i] == RunFor(m.runs[i].stage, stages, imported);
      FreshRun(m.artifacts, m.runs[i].stage, stages, imported);
    }
    StartStatuses(s, stages, imported);
  }

  lemma StartStatuses(s: System, stages: seq<Stage>, imported: map<Stage, ArtifactId>)
    requires Start(s, stages, imported)
    ensures JobsOk(s) && forall i | 0 <= i < |s.mission.runs| :: Waiting(s.mission.runs[i])
  {
    hide Lineage, Supplied;
    forall i | 0 <= i < |s.mission.runs| ensures Waiting(s.mission.runs[i]) {
      assert s.mission.runs[i] == RunFor(s.mission.runs[i].stage, stages, imported);
    }
    assert forall i | 0 <= i < |s.mission.jobs| :: s.mission.jobs[i] in s.mission.jobs;
  }

  predicate Waiting(run: Run) { run.status in {Blocked, Queued} }

  lemma FreshRun(artifacts: seq<Artifact>, stage: Stage, stages: seq<Stage>, imported: map<Stage, ArtifactId>)
    requires Supplied(stages, imported) && stage in stages
    ensures RunOk(artifacts, RunFor(stage, stages, imported), stages, imported)
  {
    if !Waits(stage, stages, imported) {
      AllExternal(Dependencies(stage), imported);
    }
  }

  lemma {:induction false} AllExternal(dependencies: seq<Stage>, imported: map<Stage, ArtifactId>)
    requires forall d | d in dependencies :: d in imported
    ensures var ids := ExternalInputs(dependencies, imported);
            |ids| == |dependencies| && forall k | 0 <= k < |ids| :: ids[k] == imported[dependencies[k]]
  {
    if dependencies != [] {
      assert dependencies[|dependencies| - 1] in dependencies;
      AllExternal(dependencies[..|dependencies| - 1], imported);
    }
  }

  lemma StepKeeps(s: System, step: Step, stages: seq<Stage>, imported: map<Stage, ArtifactId>)
    requires Inv(s, stages, imported)
    ensures Inv(Next(s, step), stages, imported) && SameStages(s.mission.runs, Next(s, step).mission.runs)
  {
    hide Inv;
    StagesKept(s, step);
    if step.Claim? {
      ClaimKeeps(s, step.run, stages, imported);
    } else if step.Publish? {
      PublishKeeps(s, step.executor, step.result, step.acknowledged, stages, imported);
    } else {
      OthersKeep(s, step, stages, imported);
    }
  }

  lemma StagesKept(s: System, step: Step)
    ensures SameStages(s.mission.runs, Next(s, step).mission.runs)
  {
  }

  /** In every reachable state: inputs exist and are named in order, lineage is acyclic, success left evidence. */
  lemma {:induction false} RunsStayConsistent(s: System, steps: seq<Step>, stages: seq<Stage>, imported: map<Stage, ArtifactId>)
    requires Start(s, stages, imported)
    ensures Inv(After(s, steps), stages, imported) && SameStages(s.mission.runs, After(s, steps).mission.runs)
  {
    if steps == [] {
      StartInv(s, stages, imported);
    } else {
      hide Inv, Start, Next;
      RunsStayConsistent(s, steps[..|steps| - 1], stages, imported);
      StepKeeps(After(s, steps[..|steps| - 1]), steps[|steps| - 1], stages, imported);
    }
  }

  /** Following parents leads to ever older artifacts. */
  ghost predicate Descends(artifacts: seq<Artifact>, path: seq<nat>) {
    && path != [] && (forall i | 0 <= i < |path| :: path[i] < |artifacts|)
    && forall i | 0 <= i < |path| - 1 :: artifacts[path[i + 1]].id in artifacts[path[i]].parents
  }

  lemma {:induction false} LineageAcyclic(artifacts: seq<Artifact>, path: seq<nat>)
    requires Lineage(artifacts) && Descends(artifacts, path)
    ensures path[|path| - 1] <= path[0] && (|path| > 1 ==> path[|path| - 1] < path[0])
  {
    if |path| > 1 {
      LineageAcyclic(artifacts, path[1..]);
      ParentOlder(artifacts, path[0], path[1]);
    }
  }

  lemma ParentOlder(artifacts: seq<Artifact>, child: nat, parent: nat)
    requires Lineage(artifacts) && child < |artifacts| && parent < |artifacts| && artifacts[parent].id in artifacts[child].parents
    ensures parent < child
  {
    var a :| a in artifacts[..child] && a.id == artifacts[parent].id;
    var j :| 0 <= j < child && artifacts[j] == a;
    assert artifacts[j].id == artifacts[parent].id;
  }

  /** A stage depends on at most one other. */
  lemma OneDependency(stage: Stage)
    ensures |Dependencies(stage)| <= 1
  {
  }

  /** When nothing is left to run and nothing failed, every selected stage has succeeded. */
  lemma NothingFailedAllSucceeded(s: System, steps: seq<Step>, stages: seq<Stage>, imported: map<Stage, ArtifactId>)
    requires Start(s, stages, imported)
    requires forall r | r in After(s, steps).mission.runs :: r.status in {Blocked, Succeeded}
    ensures forall r | r in After(s, steps).mission.runs :: r.status == Succeeded
  {
    RunsStayConsistent(s, steps, stages, imported);
    hide Inv, After;
    var m := After(s, steps).mission;
    forall k | 0 <= k < |m.runs| ensures m.runs[k].status == Succeeded {
      UpToHere(s, After(s, steps), k, stages, imported);
    }
  }

  /** Induction along the published order of the stages. */
  lemma {:induction false} UpToHere(s: System, t: System, k: nat, stages: seq<Stage>, imported: map<Stage, ArtifactId>)
    requires Start(s, stages, imported) && Inv(t, stages, imported) && SameStages(s.mission.runs, t.mission.runs)
    requires forall r | r in t.mission.runs :: r.status in {Blocked, Succeeded}
    requires k < |t.mission.runs|
    ensures forall i | 0 <= i <= k :: t.mission.runs[i].status == Succeeded
  {
    hide Start, Inv, Selected, RunsOk;
    if k > 0 {
      UpToHere(s, t, k - 1, stages, imported);
    }
    assert t.mission.runs[k] in t.mission.runs;
    if t.mission.runs[k].status == Blocked {
      InvRuns(s, t, stages, imported);
      var i := WaitsFor(s, t, k, stages, imported);
      NotBlocked(t, i, k, stages, imported);
      assert false;
    }
  }

  lemma LaterIsLater(runs: seq<Run>, stages: seq<Stage>, imported: map<Stage, ArtifactId>, k: nat, j: nat)
    requires Selected(runs, stages, imported) && k < |runs| && j < |runs|
    ensures k <= j ==> Position(runs[k].stage) <= Position(runs[j].stage)
  {
  }

  lemma InvRuns(s: System, t: System, stages: seq<Stage>, imported: map<Stage, ArtifactId>)
    requires Start(s, stages, imported) && Inv(t, stages, imported)
    ensures Selected(s.mission.runs, stages, imported) && RunsOk(t.mission, stages, imported)
  {
  }

  /** A blocked run waits for an earlier run. */
  lemma WaitsFor(s: System, t: System, k: nat, stages: seq<Stage>, imported: map<Stage, ArtifactId>) returns (i: nat)
    requires Selected(s.mission.runs, stages, imported) && RunsOk(t.mission, stages, imported)
    requires SameStages(s.mission.runs, t.mission.runs)
    requires k < |t.mission.runs| && t.mission.runs[k].status == Blocked
    ensures i < k && Dependencies(t.mission.runs[k].stage) == [t.mission.runs[i].stage]
  {
    hide RunsOk, RunOk, Dependencies, Selected;
    var run := t.mission.runs[k];
    var d := BlockedWaits(t, k, stages, imported);
    i := RunOfStage(s.mission.runs, stages, imported, d);
    DependencyEarlier(d, run.stage);
    LaterIsLater(s.mission.runs, stages, imported, k, i);
  }

  lemma BlockedWaits(t: System, k: nat, stages: seq<Stage>, imported: map<Stage, ArtifactId>) returns (d: Stage)
    requires RunsOk(t.mission, stages, imported) && k < |t.mission.runs| && t.mission.runs[k].status == Blocked
    ensures Dependencies(t.mission.runs[k].stage) == [d] && d in Dependencies(t.mission.runs[k].stage) && d in stages
  {
    var run := t.mission.runs[k];
    assert RunOk(t.mission.artifacts, run, stages, imported);
    d :| d in Dependencies(run.stage) && d in stages;
    OneDependency(run.stage);
  }

  lemma RunOfStage(runs: seq<Run>, stages: seq<Stage>, imported: map<Stage, ArtifactId>, d: Stage) returns (j: nat)
    requires Selected(runs, stages, imported) && d in stages
    ensures j < |runs| && runs[j].stage == d
  {
    j :| 0 <= j < |runs| && runs[j].stage == d;
  }

  lemma NotBlocked(t: System, i: nat, k: nat, stages: seq<Stage>, imported: map<Stage, ArtifactId>)
    requires Inv(t, stages, imported) && i < |t.mission.runs| && k < |t.mission.runs|
    requires t.mission.runs[i].status == Succeeded && Dependencies(t.mission.runs[k].stage) == [t.mission.runs[i].stage]
    ensures t.mission.runs[k].status != Blocked
  {
    hide Lineage, Origins, ExecutorsOk, RunsOk;
    var m := t.mission;
    assert Evidence(m.artifacts, m.runs[i], i);
    LatestExists(m.artifacts, m.runs[i].stage);
  }

  /**
   * A queued run whose mission goes on can be claimed, once the artifacts it was given from outside exist and
   * its Job is reserved, which takes one step while it has a try left.
   */
  lemma QueuedIsClaimable(s: System, r: nat, stages: seq<Stage>, imported: map<Stage, ArtifactId>)
    requires Inv(s, stages, imported) && r < |s.mission.runs| && s.mission.runs[r].status == Queued && !s.mission.Stopped()
    requires forall d | d in imported :: HasId(s.mission.artifacts, imported[d])
    ensures |s.mission.jobs| == |s.mission.runs|
    ensures s.mission.jobs[r].reserved ==> Claimable(s.mission, r)
    ensures !s.mission.jobs[r].reserved && s.mission.jobs[r].attempts < s.limit ==>
              Claimable(Next(s, Reserve(r, true)).mission, r)
  {
    hide Lineage, Origins, ExecutorsOk, SuccessProved, DrainedOnceSucceeded;
    var run := s.mission.runs[r];
    assert RunOk(s.mission.artifacts, run, stages, imported);
    forall id | id in run.upstream ensures HasId(s.mission.artifacts, id) {
      var k :| 0 <= k < |run.upstream| && run.upstream[k] == id;
      assert InputNamed(s.mission.artifacts, run, k, stages, imported);
    }
  }
}
