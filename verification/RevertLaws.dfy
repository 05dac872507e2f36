/**
 When reverting fails, said in terms of what the hosts answer: when an operator rollback
 is refused, and when an automatic one strands hosts under a finished action.
 */
module RevertLaws {
  import opened Basics
  import opened Remediation
  import opened BridgeLaws

  /** Reverting the targets one after another, some host does not let go. */
  ghost predicate SomeRevertFails(h: Host, calls: seq<ExecCall>, action: Action, targets: seq<string>)
    decreases |targets|
  {
    targets != [] &&
    (!h.reverts(calls, action, targets[0]) ||
     SomeRevertFails(h, calls + [Revert(action, targets[0], true)], action, targets[1..]))
  }

  lemma {:induction false} RevertFailsExactly(h: Host, j: Job, targets: seq<string>, actor: string)
    ensures RevertTargets(h, j, targets, actor).1 != [] <==> SomeRevertFails(h, j.calls, j.rec.action, targets)
    decreases |targets|
  {
    if targets != [] {
      var (j1, ok) := RevertOne(h, j, targets[0], actor);
      if ok { RevertFailsExactly(h, j1, targets[1..], actor); }
    }
  }

  /** What an operator rollback goes over: the applied targets, or all when none is recorded. */
  function ToRevert(rec: Record): seq<string> { if rec.applied == [] then rec.action.targets else rec.applied }

  /** From a state it accepts, an operator rollback is refused exactly when some host does not let go. */
  lemma RollbackRefusesExactly(h: Host, j: Job, actor: string)
    requires j.rec.state in Revertible
    ensures RollbackJob(h, j, actor).1.Refuse? <==> SomeRevertFails(h, j.calls, j.rec.action, ToRevert(j.rec))
  {
    var j1 := if j.rec.applied == [] then j.(rec := j.rec.(applied := j.rec.action.targets)) else j;
    RevertFailsExactly(h, j1, j1.rec.applied, actor);
  }

  lemma {:induction false} RevertsOnly(h: Host, j: Job, targets: seq<string>, actor: string)
    ensures var j' := RevertTargets(h, j, targets, actor).0;
            j.calls <= j'.calls && forall i :: |j.calls| <= i < |j'.calls| ==> j'.calls[i].Revert?
    decreases |targets|
  {
    if targets != [] {
      var j1 := RevertOne(h, j, targets[0], actor).0;
      RevertsOnly(h, j1, targets[1..], actor);
    }
  }

  /** An operator rollback never applies anything. */
  lemma RollbackOnlyReverts(h: Host, w: World, id: string, actor: string)
    ensures var w' := RunStage(h, w, id, RollbackStage, actor).0;
            w.calls <= w'.calls && forall i :: |w.calls| <= i < |w'.calls| ==> w'.calls[i].Revert?
  {
    if id in w.actions {
      var j := Open(w, id);
      var j1 := if j.rec.applied == [] then j.(rec := j.rec.(applied := j.rec.action.targets)) else j;
      RevertsOnly(h, j1, j1.rec.applied, actor);
    }
  }

  // ----- automatic rollback -----

  /** A stage when its targets have been tried and its verdict is due. */
  function Tried(h: Host, j: Job, stage: Stage, actor: string): Job {
    match stage
    case CanaryStage =>
      Move(ApplyTargets(h, Move(j, Canary, actor, Ok), Cohort(j.rec.action), Canary, actor).0, CanaryVerify, actor, Ok)
    case RolloutStage =>
      Move(ApplyTargets(h, j, Missing(j.rec.action.targets, j.rec.applied), Rollout, actor).0, Verify, actor, Ok)
    case RollbackStage => j
  }

  lemma TriedSound(h: Host, j: Job, stage: Stage, actor: string)
    requires JobSound(j) && stage != RollbackStage
    requires j.rec.state == (if stage == CanaryStage then Approved else Rollout)
    ensures JobSound(Tried(h, j, stage, actor)) && Tried(h, j, stage, actor).rec.state != RollbackIncomplete
    ensures Tried(h, j, stage, actor).id == j.id
  {
    hide Continues, ApplyTargets, ReplayedState, Live;
    if stage == CanaryStage {
      MoveKeeps(j, Canary, actor, Ok);
      var j1 := Move(j, Canary, actor, Ok);
      CohortWithin(j1);
      ApplyTargetsKeeps(h, j1, Cohort(j.rec.action), Canary, actor);
      MoveKeeps(ApplyTargets(h, j1, Cohort(j.rec.action), Canary, actor).0, CanaryVerify, actor, Ok);
      SameJob(h, j1, Cohort(j.rec.action), Canary, actor);
    } else {
      var remaining := Missing(j.rec.action.targets, j.rec.applied);
      ApplyTargetsKeeps(h, j, remaining, Rollout, actor);
      MoveKeeps(ApplyTargets(h, j, remaining, Rollout, actor).0, Verify, actor, Ok);
      SameJob(h, j, remaining, Rollout, actor);
    }
  }

  lemma CohortWithin(j: Job)
    ensures Within(Cohort(j.rec.action), j.rec.action.targets)
  {
  }

  lemma {:induction false} SameJob(h: Host, j: Job, targets: seq<string>, stage: ActionState, actor: string)
    ensures ApplyTargets(h, j, targets, stage, actor).0.id == j.id
    decreases |targets|
  {
    if targets != [] { SameJob(h, ApplyOne(h, j, targets[0], stage, actor).0, targets[1..], stage, actor); }
  }

  lemma RevertStageStrands(h: Host, j: Job, actor: string)
    requires JobSound(j) && j.rec.state != RollbackIncomplete
    ensures var j' := RevertStage(h, j, actor).0;
            Live(j'.calls, j.id) != multiset{} <==> SomeRevertFails(h, j.calls, j.rec.action, j.rec.applied)
  {
    RevertStageKeeps(h, j, actor);
    RevertFailsExactly(h, j, j.rec.applied, actor);
    var j' := RevertStage(h, j, actor).0;
    var failed := RevertTargets(h, j, j.rec.applied, actor).1;
    assert j'.rec.applied == failed;
    assert failed != [] ==> failed[0] in multiset(failed);
  }

  /** A stage that gave up is the tried stage reverted. */
  lemma RevertedIsTried(h: Host, j: Job, stage: Stage, actor: string)
    requires StageJob(h, j, stage, actor).1 == Done(Reverted)
    ensures stage != RollbackStage && j.rec.state == (if stage == CanaryStage then Approved else Rollout)
    ensures StageJob(h, j, stage, actor) == RevertStage(h, Tried(h, j, stage, actor), actor)
  {
    hide ApplyTargets, RollbackApplied, Missing, Cohort;
  }

  /**
   A canary or rollout that gives up ends in RolledBack whatever its reverts did. Hosts are
   left carrying the change exactly when one of them did not let go.
   */
  lemma AutomaticRevertExactly(h: Host, j: Job, stage: Stage, actor: string)
    requires JobSound(j) && StageJob(h, j, stage, actor).1 == Done(Reverted)
    ensures var j' := StageJob(h, j, stage, actor).0;
            var tried := Tried(h, j, stage, actor);
            && j'.rec.state == RolledBack
            && (Live(j'.calls, j.id) != multiset{} <==>
                SomeRevertFails(h, tried.calls, tried.rec.action, tried.rec.applied))
  {
    hide JobSound, StageJob, Tried, RevertStage;
    RevertedIsTried(h, j, stage, actor);
    TriedSound(h, j, stage, actor);
    var tried := Tried(h, j, stage, actor);
    RevertStageStrands(h, tried, actor);
    RevertStageKeeps(h, tried, actor);
  }
}
