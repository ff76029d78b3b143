/** For each transaction that may undo the success of a stage run, a run of the system in which it does. */
module StageOverwrites {
  import opened StageContracts
  import opened StageRuns
  import opened StageSuccess
  import Sequences

  /** A mission of one stage, whose Job has a single try. */
  function One(standing: Standing, status: Status, artifacts: seq<Artifact>, executors: seq<Executor>, job: Job,
               dispatching: set<nat>): System
  {
    System(Mission(standing, [Run(Reconstruction, status, [])], artifacts, [job]), executors, dispatching, 1)
  }

  const QUEUED := One(Going, Queued, [], [], NO_JOB, {})
  const HELD := Job(true, 1, false)
  const BUSY := Executor(0, [], true, true)
  const QUIET := Executor(0, [], true, false)
  const GONE := Executor(0, [], false, false)

  const OUTPUT := StageResult(Kind(Reconstruction), "checksum", "uri")
  const OUTPUT_ARTIFACT := Artifact(Produced(0, OUTPUT.kind, OUTPUT.checksum), Reconstruction, OUTPUT.content, {})

  /** A run that succeeded in the first steps and ends with another status after the others. */
  ghost predicate Overwritten(won: seq<Step>, undone: seq<Step>, status: Status) {
    && Start(QUEUED, [Reconstruction], map[])
    && After(QUEUED, won).mission.runs == [Run(Reconstruction, Succeeded, [])]
    && After(QUEUED, won + undone).mission.runs == [Run(Reconstruction, status, [])]
  }

  lemma QueuedStarts()
    ensures Start(QUEUED, [Reconstruction], map[])
  {
    assert [Reconstruction][0] == Reconstruction;
    assert RunFor(Reconstruction, [Reconstruction], map[]) == Run(Reconstruction, Queued, []);
    assert QUEUED.mission.runs[0].stage == Reconstruction;
  }

  /** Reserved, its Job created, and claimed. */
  const CLAIMED := [Reserve(0, true), DispatchEnds(0), Claim(0)]

  lemma Reserves()
    ensures After(QUEUED, [Reserve(0, true)]) == One(Going, Queued, [], [], HELD, {0})
  {
    assert Next(QUEUED, Reserve(0, true)) == One(Going, Queued, [], [], HELD, {0});
    AfterNone(QUEUED);
    AfterOne(QUEUED, [], Reserve(0, true));
    assert [] + [Reserve(0, true)] == [Reserve(0, true)];
  }

  lemma Claims(dispatching: set<nat>)
    ensures Next(One(Going, Queued, [], [], HELD, dispatching), Claim(0)) == One(Going, Running, [], [BUSY], HELD, dispatching)
  {
  }

  lemma Quiets(dispatching: set<nat>)
    ensures Next(One(Going, Running, [], [BUSY], HELD, dispatching), StopBeat(0))
            == One(Going, Running, [], [QUIET], HELD, dispatching)
  {
  }

  lemma ClaimedState()
    ensures After(QUEUED, CLAIMED) == One(Going, Running, [], [BUSY], HELD, {})
    ensures Exclusive(QUEUED, CLAIMED)
  {
    var first, second := [Reserve(0, true)], [Reserve(0, true), DispatchEnds(0)];
    Reserves();
    assert Next(One(Going, Queued, [], [], HELD, {0}), DispatchEnds(0)) == One(Going, Queued, [], [], HELD, {});
    Claims({});
    hide Next;
    AfterOne(QUEUED, first, DispatchEnds(0));
    assert first + [DispatchEnds(0)] == second;
    AfterOne(QUEUED, second, Claim(0));
    assert second + [Claim(0)] == CLAIMED;
    assert CLAIMED[..2] == second && second[..1] == first && first[..0] == [];
  }

  lemma AtOnceState()
    ensures After(QUEUED, [Reserve(0, true), Claim(0)]) == One(Going, Running, [], [BUSY], HELD, {0})
    ensures Exclusive(QUEUED, [Reserve(0, true), Claim(0)])
  {
    var first := [Reserve(0, true)];
    Reserves();
    Claims({0});
    hide Next;
    AfterOne(QUEUED, first, Claim(0));
    assert first + [Claim(0)] == [Reserve(0, true), Claim(0)];
    assert [Reserve(0, true), Claim(0)][..1] == first && first[..0] == [];
  }

  /** The first executor publishes. */
  lemma Publishes(executors: seq<Executor>, dispatching: set<nat>, acknowledged: bool)
    requires |executors| > 0 && executors[0].run == 0 && executors[0].inputs == [] && executors[0].live
    ensures Next(One(Going, Running, [], executors, HELD, dispatching), Publish(0, OUTPUT, acknowledged))
            == One(Going, Succeeded, [OUTPUT_ARTIFACT], executors[0 := executors[0].(live := !acknowledged)], HELD, dispatching)
  {
    var s := One(Going, Running, [], executors, HELD, dispatching);
    assert Publishable(s.mission, 0, [], OUTPUT);
    assert ParentsOf([], []) == {};
    assert WithArtifact(s.mission, 0, [], OUTPUT) == [OUTPUT_ARTIFACT];
    assert Released([Run(Reconstruction, Succeeded, [])], [OUTPUT_ARTIFACT]) == [Run(Reconstruction, Succeeded, [])];
    assert executors[0 := executors[0]] == executors;
  }

  /** Two executors of one run: the slower one overwrites the success of the faster. */
  lemma TwoExecutorsOverwrite()
    ensures Overwritten(CLAIMED + [Claim(0), Publish(0, OUTPUT, true)], [End(1, Failed)], Failed)
  {
    var two := One(Going, Running, [], [BUSY, BUSY], HELD, {});
    assert Next(One(Going, Running, [], [BUSY], HELD, {}), Claim(0)) == two;
    Publishes([BUSY, BUSY], {}, true);
    assert Next(Next(two, Publish(0, OUTPUT, true)), End(1, Failed)).mission.runs == [Run(Reconstruction, Failed, [])];
    ThenTwo(Claim(0), Publish(0, OUTPUT, true));
    FinallyOne(CLAIMED + [Claim(0), Publish(0, OUTPUT, true)], End(1, Failed));
  }

  /** A lone executor that loses the reply to its commit overwrites its own success. */
  lemma LostReplyOverwrites()
    ensures Overwritten(CLAIMED + [StopBeat(0), Publish(0, OUTPUT, false)], [End(0, Failed)], Failed)
    ensures Exclusive(QUEUED, CLAIMED + [StopBeat(0), Publish(0, OUTPUT, false)])
  {
    ClaimedAlone(StopBeat(0), Publish(0, OUTPUT, false));
    Quiets({});
    Publishes([QUIET], {}, false);
    assert Next(One(Going, Succeeded, [OUTPUT_ARTIFACT], [QUIET], HELD, {}), End(0, Failed)).mission.runs
           == [Run(Reconstruction, Failed, [])];
    ThenTwo(StopBeat(0), Publish(0, OUTPUT, false));
    FinallyOne(CLAIMED + [StopBeat(0), Publish(0, OUTPUT, false)], End(0, Failed));
  }

  /** A heartbeat that outlasted the publication finds the mission cancelled. */
  lemma LateHeartbeatOverwrites()
    ensures Overwritten(CLAIMED + [Beat(0), Publish(0, OUTPUT, true)], [CancelMission(false), Beat(0)], Cancelled)
    ensures Orderly(CLAIMED + [Beat(0), Publish(0, OUTPUT, true)])
  {
    ClaimedAlone(Beat(0), Publish(0, OUTPUT, true));
    var beating := Executor(0, [], false, true);
    assert Next(One(Going, Running, [], [BUSY], HELD, {}), Beat(0)) == One(Going, Running, [], [BUSY], HELD, {});
    Publishes([BUSY], {}, true);
    var won := One(Going, Succeeded, [OUTPUT_ARTIFACT], [beating], HELD, {});
    assert Next(won, CancelMission(false)) == One(CancelRequested, Succeeded, [OUTPUT_ARTIFACT], [beating], HELD, {});
    assert Next(Next(won, CancelMission(false)), Beat(0)).mission.runs == [Run(Reconstruction, Cancelled, [])];
    ThenTwo(Beat(0), Publish(0, OUTPUT, true));
    FinallyTwo(CLAIMED + [Beat(0), Publish(0, OUTPUT, true)], CancelMission(false), Beat(0));
  }

  /** Ordinary operation: the mission is cancelled before the Job of the run is confirmed to be gone. */
  lemma CleanupOverwrites()
    ensures Overwritten(CLAIMED + [StopBeat(0), Publish(0, OUTPUT, true)], [CancelMission(false), Cleanup(0, true)], Cancelled)
    ensures Orderly(CLAIMED + [StopBeat(0), Publish(0, OUTPUT, true)])
  {
    ClaimedAlone(StopBeat(0), Publish(0, OUTPUT, true));
    Quiets({});
    Publishes([QUIET], {}, true);
    var won := One(Going, Succeeded, [OUTPUT_ARTIFACT], [GONE], HELD, {});
    assert Next(won, CancelMission(false)) == One(CancelRequested, Succeeded, [OUTPUT_ARTIFACT], [GONE], HELD, {});
    assert Next(Next(won, CancelMission(false)), Cleanup(0, true)).mission.runs == [Run(Reconstruction, Cancelled, [])];
    ThenTwo(StopBeat(0), Publish(0, OUTPUT, true));
    FinallyTwo(CLAIMED + [StopBeat(0), Publish(0, OUTPUT, true)], CancelMission(false), Cleanup(0, true));
  }

  /** The Job was created although the call that created it raised, and it was the last try. */
  lemma LateDispatchOverwrites()
    ensures Overwritten([Reserve(0, true), Claim(0), StopBeat(0), Publish(0, OUTPUT, true)], [DispatchFails(0)], Failed)
    ensures Orderly([Reserve(0, true), Claim(0), StopBeat(0), Publish(0, OUTPUT, true)])
  {
    hide Next, Exclusive, Start, After;
    var first, second := [Reserve(0, true), Claim(0)], [StopBeat(0), Publish(0, OUTPUT, true)];
    AtOnceState();
    Quiets({0});
    Publishes([QUIET], {0}, true);
    LateFailure();
    assert [QUIET][0 := QUIET.(live := false)] == [GONE];
    AfterTwo(After(QUEUED, first), StopBeat(0), Publish(0, OUTPUT, true));
    AfterBoth(QUEUED, first, second);
    assert first + second == [Reserve(0, true), Claim(0), StopBeat(0), Publish(0, OUTPUT, true)];
    FinallyOne(first + second, DispatchFails(0));
    ExclusiveMore(first, second);
  }

  lemma LateFailure()
    ensures Next(One(Going, Succeeded, [OUTPUT_ARTIFACT], [GONE], HELD, {0}), DispatchFails(0)).mission.runs
            == [Run(Reconstruction, Failed, [])]
  {
  }

  /** One executor, and no reply lost. */
  ghost predicate Orderly(steps: seq<Step>) { Exclusive(QUEUED, steps) && Acknowledged(steps) }

  lemma {:induction false} ExclusiveMore(steps: seq<Step>, more: seq<Step>)
    requires Exclusive(QUEUED, steps) && forall step | step in more :: !step.Claim?
    ensures Exclusive(QUEUED, steps + more)
  {
    if more == [] {
      Sequences.AppendNothing(steps);
    } else {
      var init, last := more[..|more| - 1], more[|more| - 1];
      ExclusiveMore(steps, init);
      Sequences.DropSnoc(steps + init, last);
      assert steps + more == (steps + init) + [last];
    }
  }

  lemma ClaimedAlone(a: Step, b: Step)
    requires !a.Claim? && !b.Claim?
    ensures Exclusive(QUEUED, CLAIMED + [a, b])
  {
    ClaimedState();
    ExclusiveMore(CLAIMED, [a, b]);
  }

  lemma ThenTwo(a: Step, b: Step)
    ensures After(QUEUED, CLAIMED + [a, b]) == Next(Next(One(Going, Running, [], [BUSY], HELD, {}), a), b)
  {
    hide Next;
    ClaimedState();
    AfterBoth(QUEUED, CLAIMED, [a, b]);
    AfterTwo(After(QUEUED, CLAIMED), a, b);
  }

  lemma FinallyOne(won: seq<Step>, a: Step)
    ensures Start(QUEUED, [Reconstruction], map[])
    ensures After(QUEUED, won + [a]) == Next(After(QUEUED, won), a)
  {
    QueuedStarts();
    AfterOne(QUEUED, won, a);
  }

  lemma FinallyTwo(won: seq<Step>, a: Step, b: Step)
    ensures Start(QUEUED, [Reconstruction], map[])
    ensures After(QUEUED, won + [a, b]) == Next(Next(After(QUEUED, won), a), b)
  {
    hide Next;
    QueuedStarts();
    AfterBoth(QUEUED, won, [a, b]);
    AfterTwo(After(QUEUED, won), a, b);
  }
}
