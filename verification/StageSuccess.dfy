/**
 * Whether the success of a stage run is final (shared/stage_execution.py,
 * app4-dashboard/api/stage_orchestrator.py): four transactions write a status without looking at the old one.
 */
module StageSuccess {
  import opened StageContracts
  import opened StageRuns
  import Sequences

  /** An executor may still report how its work on the run ended. */
  ghost predicate Working(s: System, r: nat) {
    exists e: nat :: Live(s, e) && s.executors[e].run == r
  }

  /** A heartbeat for the run may still be on its way. */
  ghost predicate Beating(s: System, r: nat) {
    exists e: nat :: Beats(s, e) && s.executors[e].run == r
  }

  /** An orchestrator may still report that its last try to create the Job raised. */
  predicate LastTry(s: System, r: nat) {
    r in s.dispatching && r < |s.mission.jobs| && s.mission.jobs[r].attempts >= s.limit
  }

  /** The Job is not yet confirmed to be gone. */
  predicate Unconfirmed(s: System, r: nat) {
    r < |s.mission.jobs| && s.mission.jobs[r].reserved && !s.mission.jobs[r].cleaned
  }

  ghost predicate Settled(s: System, r: nat) {
    !Beating(s, r) && !LastTry(s, r) && !Unconfirmed(s, r)
  }

  ghost predicate SucceededRun(s: System, r: nat) {
    r < |s.mission.runs| == |s.mission.jobs| && s.mission.runs[r].status == Succeeded
  }

  ghost predicate SucceededAfter(s: System, steps: seq<Step>, r: nat) {
    SucceededRun(After(s, steps), r)
  }

  // ----- The next step -----

  /** Nothing that may happen next changes the success. */
  ghost predicate Safe(s: System, r: nat) {
    && !Working(s, r) && !(Beating(s, r) && s.mission.Stopped())
    && !LastTry(s, r) && !(Unconfirmed(s, r) && s.mission.standing == CancelRequested)
  }

  /** A success is safe from every next step exactly when none of the four writers can act now. */
  lemma SuccessSafeExactly(s: System, r: nat)
    requires SucceededRun(s, r)
    ensures (forall step :: SucceededRun(Next(s, step), r)) <==> Safe(s, r)
  {
    if Safe(s, r) {
      forall step ensures SucceededRun(Next(s, step), r) {
        SafeKept(s, step, r);
      }
    } else {
      Undone(s, r);
    }
  }

  lemma SafeKept(s: System, step: Step, r: nat)
    requires SucceededRun(s, r) && Safe(s, r)
    ensures SucceededRun(Next(s, step), r)
  {
    hide AllExist, Publishable, WithArtifact, AllAvailable, Inputs;
    assert step.Beat? && Beats(s, step.executor) && s.executors[step.executor].run == r ==> Beating(s, r);
    assert step.End? && Live(s, step.executor) ==> s.executors[step.executor].run != r;
  }

  lemma Undone(s: System, r: nat)
    requires SucceededRun(s, r) && !Safe(s, r)
    ensures exists step :: !SucceededRun(Next(s, step), r)
  {
    if e: nat :| Live(s, e) && s.executors[e].run == r {
      assert !SucceededRun(Next(s, End(e, Failed)), r);
    } else if Beating(s, r) && s.mission.Stopped() {
      var e: nat :| Beats(s, e) && s.executors[e].run == r;
      assert !SucceededRun(Next(s, Beat(e)), r);
    } else if LastTry(s, r) {
      assert !SucceededRun(Next(s, DispatchFails(r)), r);
    } else {
      assert !SucceededRun(Next(s, Cleanup(r, false)), r);
    }
  }

  // ----- Every later run -----

  /**
   * A success is final, whatever happens later, exactly when no executor or heartbeat of the run is left, no last
   * try to create its Job may still fail, and its Job is confirmed to be gone.
   */
  lemma SuccessFinalExactly(s: System, r: nat)
    requires SucceededRun(s, r)
    ensures (forall later :: SucceededAfter(s, later, r)) <==> Settled(s, r)
  {
    hide After, Next;
    if Settled(s, r) {
      forall later ensures SucceededAfter(s, later, r) {
        SettledForever(s, later, r);
      }
    } else {
      AfterNone(s);
      var stopped := Next(s, CancelMission(false));
      CancelUnsettles(s, r);
      SuccessSafeExactly(stopped, r);
      var step :| !SucceededRun(Next(stopped, step), r);
      AfterTwo(s, CancelMission(false), step);
      assert !SucceededAfter(s, [CancelMission(false), step], r);
    }
  }

  lemma CancelUnsettles(s: System, r: nat)
    requires SucceededRun(s, r) && !Settled(s, r)
    ensures SucceededRun(Next(s, CancelMission(false)), r) && !Safe(Next(s, CancelMission(false)), r)
  {
    var stopped := Next(s, CancelMission(false));
    if e: nat :| Beats(s, e) && s.executors[e].run == r {
      assert Beats(stopped, e);
    }
  }

  lemma {:induction false} SettledForever(s: System, later: seq<Step>, r: nat)
    requires SucceededRun(s, r) && Settled(s, r)
    ensures SucceededAfter(s, later, r) && Settled(After(s, later), r)
  {
    hide Next, Settled;
    if later != [] {
      SettledForever(s, later[..|later| - 1], r);
      SettledKept(After(s, later[..|later| - 1]), later[|later| - 1], r);
    }
  }

  lemma SettledKept(s: System, step: Step, r: nat)
    requires SucceededRun(s, r) && Settled(s, r)
    ensures SucceededRun(Next(s, step), r) && Settled(Next(s, step), r)
  {
    hide Settled, Safe, Next;
    SettledIsSafe(s, r);
    SafeKept(s, step, r);
    NoneReturns(s, step, r);
    JobRests(s, step, r);
    assert Settled(Next(s, step), r) by {
      SettledParts(Next(s, step), r);
    }
  }

  lemma SettledParts(s: System, r: nat)
    ensures Settled(s, r) <==> !Beating(s, r) && !LastTry(s, r) && !Unconfirmed(s, r)
  {
  }

  lemma SettledIsSafe(s: System, r: nat)
    requires Settled(s, r)
    ensures Safe(s, r) && !Beating(s, r) && !LastTry(s, r) && !Unconfirmed(s, r)
  {
    forall e: nat | Live(s, e) ensures Beats(s, e) {
    }
  }

  /** Who was done with a run that succeeded stays done. */
  lemma NoneReturns(s: System, step: Step, r: nat)
    requires SucceededRun(s, r)
    ensures !Working(s, r) ==> !Working(Next(s, step), r)
    ensures !Beating(s, r) ==> !Beating(Next(s, step), r)
  {
    hide AllExist, Publishable, WithArtifact, AllAvailable, Inputs;
    var s' := Next(s, step);
    forall e: nat | Beats(s', e) && s'.executors[e].run == r ensures Beats(s, e) && s.executors[e].run == r {
    }
    forall e: nat | Live(s', e) && s'.executors[e].run == r ensures Live(s, e) && s.executors[e].run == r {
    }
  }

  lemma JobRests(s: System, step: Step, r: nat)
    requires SucceededRun(s, r)
    ensures !LastTry(s, r) ==> !LastTry(Next(s, step), r)
    ensures !Unconfirmed(s, r) ==> !Unconfirmed(Next(s, step), r)
  {
    hide AllExist, Publishable, WithArtifact, AllAvailable, Inputs;
  }

  // ----- Runs in which it is -----

  /** A confirmation that the Job is gone finds no executor or heartbeat of the run left. */
  predicate Honest(s: System, steps: seq<Step>) {
    steps == [] || (Honest(s, steps[..|steps| - 1])
                    && (steps[|steps| - 1].Cleanup? && steps[|steps| - 1].confirmed ==>
                          Deserted(After(s, steps[..|steps| - 1]), steps[|steps| - 1].run)))
  }

  predicate Deserted(s: System, r: nat) {
    forall e: nat | e < |s.executors| :: !(Beats(s, e) && s.executors[e].run == r)
  }

  ghost predicate GoneIsDeserted(s: System) {
    forall r | 0 <= r < |s.mission.jobs| && s.mission.jobs[r].cleaned :: !Beating(s, r)
  }

  lemma GoneStep(s: System, step: Step)
    requires JobsOk(s) && GoneIsDeserted(s)
    requires step.Cleanup? && step.confirmed ==> Deserted(s, step.run)
    ensures GoneIsDeserted(Next(s, step))
  {
    hide Next;
    var s' := Next(s, step);
    NewlyGone(s, step);
    NewlyBeating(s, step);
    forall r | 0 <= r < |s'.mission.jobs| && s'.mission.jobs[r].cleaned ensures !Beating(s', r) {
      forall e: nat | Beats(s', e) && Runs(s', e) == r ensures Beats(s, e) && Runs(s, e) == r {
      }
    }
  }

  function Runs(s: System, e: nat): nat {
    if e < |s.executors| then s.executors[e].run else 0
  }

  lemma NewlyGone(s: System, step: Step)
    ensures |Next(s, step).mission.jobs| == |s.mission.jobs|
    ensures forall r | 0 <= r < |s.mission.jobs| && Next(s, step).mission.jobs[r].cleaned && !s.mission.jobs[r].cleaned ::
              step == Cleanup(r, true)
  {
    hide AllExist, Publishable, WithArtifact, AllAvailable, Inputs, Released;
  }

  /** A new heartbeat is that of a claim, and a claimed run is not over. */
  lemma NewlyBeating(s: System, step: Step)
    requires JobsOk(s)
    ensures var s' := Next(s, step);
            forall e: nat | Beats(s', e) ::
              (Beats(s, e) && Runs(s, e) == Runs(s', e))
              || (Runs(s', e) < |s'.mission.jobs| && !s'.mission.jobs[Runs(s', e)].cleaned)
  {
    hide AllExist, Publishable, WithArtifact, AllAvailable, Inputs;
  }

  lemma {:induction false} GoneAfter(s: System, steps: seq<Step>, stages: seq<Stage>, imported: map<Stage, ArtifactId>)
    requires Start(s, stages, imported) && Honest(s, steps)
    ensures GoneIsDeserted(After(s, steps)) && JobsOk(After(s, steps))
  {
    hide Start, Next, JobsOk;
    RunsStayConsistent(s, steps, stages, imported);
    if steps == [] {
      NoneGone(s, stages, imported);
    } else {
      GoneAfter(s, steps[..|steps| - 1], stages, imported);
      GoneStep(After(s, steps[..|steps| - 1]), steps[|steps| - 1]);
    }
  }

  lemma NoneGone(s: System, stages: seq<Stage>, imported: map<Stage, ArtifactId>)
    requires Start(s, stages, imported)
    ensures GoneIsDeserted(s)
  {
    hide Selected, Lineage;
  }

  /**
   * Where confirmations are honest, a success whose Job is confirmed to be gone, and not being created, is final,
   * however many executors there were and whatever replies they lost.
   */
  lemma ConfirmedSuccessFinal(s: System, before: seq<Step>, r: nat, stages: seq<Stage>, imported: map<Stage, ArtifactId>)
    requires Start(s, stages, imported) && Honest(s, before) && SucceededAfter(s, before, r)
    requires After(s, before).mission.jobs[r].cleaned && r !in After(s, before).dispatching
    ensures forall later :: SucceededAfter(After(s, before), later, r)
  {
    hide After, Next, Start;
    GoneAfter(s, before, stages, imported);
    SuccessFinalExactly(After(s, before), r);
  }

  /** Every publication was told of its commit. */
  predicate Acknowledged(steps: seq<Step>) {
    forall step | step in steps && step.Publish? :: step.acknowledged
  }

  /** Every claim found no other executor at work on the run. */
  predicate Exclusive(s: System, steps: seq<Step>) {
    steps == [] || (Exclusive(s, steps[..|steps| - 1])
                    && (steps[|steps| - 1].Claim? ==> Unattended(After(s, steps[..|steps| - 1]), steps[|steps| - 1].run)))
  }

  predicate Unattended(s: System, r: nat) {
    forall e: nat | e < |s.executors| :: !(Live(s, e) && s.executors[e].run == r)
  }

  /** At most one executor works on each run, and none on a run that succeeded. */
  ghost predicate OneEach(s: System) {
    && |s.mission.jobs| == |s.mission.runs|
    && (forall e: nat, e': nat | e < e' && Live(s, e) && Live(s, e') :: s.executors[e].run != s.executors[e'].run)
    && (forall r | 0 <= r < |s.mission.runs| && s.mission.runs[r].status == Succeeded :: !Working(s, r))
  }

  lemma OneEachStep(s: System, step: Step)
    requires OneEach(s) && (step.Claim? ==> Unattended(s, step.run)) && (step.Publish? ==> step.acknowledged)
    ensures OneEach(Next(s, step))
  {
    hide AllExist, Publishable, WithArtifact, AllAvailable, Inputs;
    var s' := Next(s, step);
    LiveBefore(s, step);
    forall r | 0 <= r < |s'.mission.runs| && s'.mission.runs[r].status == Succeeded ensures !Working(s', r) {
      if s.mission.runs[r].status == Succeeded {
        NoneReturns(s, step, r);
      } else {
        OnlyPublishSucceeds(s, step, r);
        var e := step.executor;
        forall e': nat | Live(s', e') ensures s'.executors[e'].run != r {
          assert Live(s, e') && e' != e;
        }
      }
    }
  }

  lemma LiveBefore(s: System, step: Step)
    requires OneEach(s) && (step.Claim? ==> Unattended(s, step.run))
    ensures var s' := Next(s, step);
            && |s'.mission.jobs| == |s'.mission.runs| == |s.mission.runs|
            && forall e: nat, e': nat | e < e' && Live(s', e) && Live(s', e') :: s'.executors[e].run != s'.executors[e'].run
  {
    hide AllExist, Publishable, WithArtifact, AllAvailable, Inputs, Working;
    var s' := Next(s, step);
    forall e: nat, e': nat | e < e' && Live(s', e) && Live(s', e') ensures s'.executors[e].run != s'.executors[e'].run {
      assert e' < |s.executors| ==> Live(s, e) && Live(s, e');
      assert e < |s.executors| ==> Live(s, e);
    }
  }

  lemma OnlyPublishSucceeds(s: System, step: Step, r: nat)
    requires r < |s.mission.runs| && s.mission.runs[r].status != Succeeded
    requires r < |Next(s, step).mission.runs| && Next(s, step).mission.runs[r].status == Succeeded
    ensures step.Publish? && Live(s, step.executor) && s.executors[step.executor].run == r
    ensures Next(s, step).executors == Replied(s, step.executor, step.acknowledged)
  {
  }

  lemma {:induction false} OneEachAfter(s: System, steps: seq<Step>)
    requires s.executors == [] && (forall x | x in s.mission.runs :: x.status != Succeeded)
    requires |s.mission.jobs| == |s.mission.runs| && Exclusive(s, steps) && Acknowledged(steps)
    ensures OneEach(After(s, steps))
  {
    hide Next;
    if steps != [] {
      var init, last := steps[..|steps| - 1], steps[|steps| - 1];
      assert last in steps && forall step | step in init :: step in steps;
      OneEachAfter(s, init);
      OneEachStep(After(s, init), last);
    }
  }

  /**
   * With one live executor per run, and no reply lost, only a late heartbeat, a last try to create the Job and the
   * cleanup of the Job are left to undo a success.
   */
  lemma SuccessFinal(s: System, before: seq<Step>, r: nat)
    requires s.executors == [] && (forall x | x in s.mission.runs :: x.status != Succeeded)
    requires |s.mission.jobs| == |s.mission.runs|
    requires Exclusive(s, before) && Acknowledged(before) && SucceededAfter(s, before, r)
    ensures var t := After(s, before);
            (forall later :: SucceededAfter(t, later, r))
            <==> (forall e: nat | e < |t.executors| && t.executors[e].run == r :: !t.executors[e].beating)
                 && !LastTry(t, r) && !Unconfirmed(t, r)
  {
    hide After, Next, LastTry, Unconfirmed;
    var t := After(s, before);
    OneEachAfter(s, before);
    SuccessFinalExactly(t, r);
    OnlyBeating(t, r);
  }

  lemma OnlyBeating(t: System, r: nat)
    requires r < |t.mission.runs| && !Working(t, r)
    ensures Beating(t, r) <==> exists e: nat :: e < |t.executors| && t.executors[e].run == r && t.executors[e].beating
  {
    forall e: nat | Beats(t, e) && t.executors[e].run == r ensures t.executors[e].beating {
      assert !Live(t, e);
    }
    forall e: nat | e < |t.executors| && t.executors[e].run == r && t.executors[e].beating ensures Beats(t, e) {
    }
  }

  lemma AfterNone(s: System)
    ensures After(s, []) == s
  {
  }

  lemma AfterOne(s: System, steps: seq<Step>, step: Step)
    ensures After(s, steps + [step]) == Next(After(s, steps), step)
  {
    Sequences.DropSnoc(steps, step);
  }

  lemma AfterTwo(s: System, a: Step, b: Step)
    ensures After(s, [a, b]) == Next(Next(s, a), b)
  {
    hide Next;
    assert [a, b][..1] == [a] && [a][..0] == [];
    assert After(s, [a]) == Next(s, a);
  }

  lemma {:induction false} AfterBoth(s: System, a: seq<Step>, b: seq<Step>)
    ensures After(s, a + b) == After(After(s, a), b)
  {
    hide Next;
    if b == [] {
      Sequences.AppendNothing(a);
    } else {
      var init, last := b[..|b| - 1], b[|b| - 1];
      AfterBoth(s, a, init);
      assert b == init + [last] && a + b == (a + init) + [last];
      AfterOne(s, a + init, last);
    }
  }
}
