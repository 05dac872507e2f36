/**
 Which hosts a stage touches and when it gives up, read off the executor's own log: the
 calls a stage adds, target by target, and how many of them failed.
 */
module StageCalls {
  import opened Basics
  import opened Remediation
  import opened BridgeLaws
  import opened RevertLaws

  /** The targets of the Apply calls from position `from` on, in order. */
  ghost function AppliedTo(calls: seq<ExecCall>, from: nat): seq<string>
    decreases |calls|
  {
    if |calls| <= from then []
    else
      var c := calls[|calls| - 1];
      AppliedTo(calls[..|calls| - 1], from) + if c.Apply? then [c.target] else []
  }

  /** The targets of the Revert calls from position `from` on, in order. */
  ghost function RevertedOn(calls: seq<ExecCall>, from: nat): seq<string>
    decreases |calls|
  {
    if |calls| <= from then []
    else
      var c := calls[|calls| - 1];
      RevertedOn(calls[..|calls| - 1], from) + if c.Revert? then [c.target] else []
  }

  /** How many of the Apply calls from position `from` on failed. */
  ghost function FailedSince(calls: seq<ExecCall>, from: nat): nat
    decreases |calls|
  {
    if |calls| <= from then 0
    else
      var c := calls[|calls| - 1];
      FailedSince(calls[..|calls| - 1], from) + if c.Apply? && !c.ok then 1 else 0
  }

  lemma OneMoreCall(calls: seq<ExecCall>, c: ExecCall, from: nat)
    requires from <= |calls|
    ensures AppliedTo(calls + [c], from) == AppliedTo(calls, from) + if c.Apply? then [c.target] else []
    ensures RevertedOn(calls + [c], from) == RevertedOn(calls, from) + if c.Revert? then [c.target] else []
    ensures FailedSince(calls + [c], from) == FailedSince(calls, from) + if c.Apply? && !c.ok then 1 else 0
  {
    assert (calls + [c])[..|calls|] == calls;
  }

  /** Applying to a list adds one Apply per target, in order, and counts the failed ones. */
  lemma {:induction false} ApplyCalls(h: Host, j: Job, targets: seq<string>, stage: ActionState, actor: string, from: nat)
    requires from <= |j.calls|
    ensures var (j', failures) := ApplyTargets(h, j, targets, stage, actor);
            && |j'.calls| == |j.calls| + |targets|
            && AppliedTo(j'.calls, from) == AppliedTo(j.calls, from) + targets
            && RevertedOn(j'.calls, from) == RevertedOn(j.calls, from)
            && FailedSince(j'.calls, from) == FailedSince(j.calls, from) + failures
            && j'.rec.action == j.rec.action
    decreases |targets|
  {
    hide AppliedTo, RevertedOn, FailedSince;
    if targets == [] {
      assert AppliedTo(j.calls, from) + targets == AppliedTo(j.calls, from);
    } else {
      var t := targets[0];
      var j1 := ApplyOne(h, j, t, stage, actor).0;
      OneMoreCall(j.calls, Apply(j.rec.action, t, h.applies(j.calls, j.rec.action, t)), from);
      ApplyCalls(h, j1, targets[1..], stage, actor, from);
      assert AppliedTo(j.calls, from) + targets == (AppliedTo(j.calls, from) + [t]) + targets[1..];
      assert RevertedOn(j.calls, from) + [] == RevertedOn(j.calls, from);
    }
  }

  lemma {:induction false} RevertCalls(h: Host, j: Job, targets: seq<string>, actor: string, from: nat)
    requires from <= |j.calls|
    ensures var j' := RevertTargets(h, j, targets, actor).0;
            && |j'.calls| == |j.calls| + |targets|
            && AppliedTo(j'.calls, from) == AppliedTo(j.calls, from)
            && RevertedOn(j'.calls, from) == RevertedOn(j.calls, from) + targets
            && FailedSince(j'.calls, from) == FailedSince(j.calls, from)
    decreases |targets|
  {
    hide AppliedTo, RevertedOn, FailedSince;
    if targets == [] {
      assert RevertedOn(j.calls, from) + targets == RevertedOn(j.calls, from);
    } else {
      var t := targets[0];
      var j1 := RevertOne(h, j, t, actor).0;
      OneMoreCall(j.calls, Revert(j.rec.action, t, h.reverts(j.calls, j.rec.action, t)), from);
      RevertCalls(h, j1, targets[1..], actor, from);
      assert RevertedOn(j.calls, from) + targets == (RevertedOn(j.calls, from) + [t]) + targets[1..];
      assert AppliedTo(j.calls, from) + [] == AppliedTo(j.calls, from);
    }
  }

  lemma NothingSince(calls: seq<ExecCall>)
    ensures AppliedTo(calls, |calls|) == [] && RevertedOn(calls, |calls|) == [] && FailedSince(calls, |calls|) == 0
  {
  }

  // ----- which hosts -----

  /** The first hosts of an action: at least one, at most the wanted number, at most all. */
  ghost predicate IsCohort(action: Action, hosts: seq<string>) {
    && hosts <= action.targets
    && |hosts| == if action.cohortSize <= 1 then (if |action.targets| < 1 then 0 else 1)
                  else if action.cohortSize < |action.targets| then action.cohortSize else |action.targets|
  }

  /** `hosts` are the targets outside `applied`, in order. */
  ghost function Outside(targets: seq<string>, applied: seq<string>): seq<string>
    decreases |targets|
  {
    if targets == [] then []
    else
      var t := targets[|targets| - 1];
      Outside(targets[..|targets| - 1], applied) + if t in applied then [] else [t]
  }

  lemma {:induction false} OutsideFirst(targets: seq<string>, applied: seq<string>)
    requires targets != []
    ensures Outside(targets, applied) == (if targets[0] in applied then [] else [targets[0]]) + Outside(targets[1..], applied)
    decreases |targets|
  {
    if |targets| == 1 {
      assert targets[1..] == [] && targets[..0] == [];
    } else {
      var front := targets[..|targets| - 1];
      OutsideFirst(front, applied);
      assert targets[1..][..|targets[1..]| - 1] == front[1..];
    }
  }

  lemma {:induction false} MissingIsOutside(targets: seq<string>, applied: seq<string>)
    ensures Missing(targets, applied) == Outside(targets, applied)
  {
    if targets != [] {
      OutsideFirst(targets, applied);
      MissingIsOutside(targets[1..], applied);
    }
  }

  lemma StageRevertCalls(h: Host, j: Job, actor: string, from: nat)
    requires from <= |j.calls|
    ensures var j' := RevertStage(h, j, actor).0;
            AppliedTo(j'.calls, from) == AppliedTo(j.calls, from) && FailedSince(j'.calls, from) == FailedSince(j.calls, from)
            && RevertedOn(j'.calls, from) == RevertedOn(j.calls, from) + j.rec.applied
  {
    hide AppliedTo, RevertedOn, FailedSince;
    RevertCalls(h, j, j.rec.applied, actor, from);
  }

  /**
   A canary applies to its first hosts alone, as many as the cohort asks for but at least one,
   in order; where it gives up it reverts every host it had applied to.
   */
  lemma CanaryTouches(h: Host, j: Job, actor: string)
    requires j.rec.state == Approved
    ensures var (j', r) := CanaryJob(h, j, actor);
            && IsCohort(j.rec.action, AppliedTo(j'.calls, |j.calls|))
            && RevertedOn(j'.calls, |j.calls|) == if r == Done(Reverted) then Tried(h, j, CanaryStage, actor).rec.applied else []
  {
    hide AppliedTo, RevertedOn, FailedSince, ApplyTargets, RevertStage;
    var j1 := Move(j, Canary, actor, Ok);
    var cohort := Cohort(j.rec.action);
    NothingSince(j.calls);
    ApplyCalls(h, j1, cohort, Canary, actor, |j.calls|);
    var (j2, failures) := ApplyTargets(h, j1, cohort, Canary, actor);
    var j3 := Move(j2, CanaryVerify, actor, Ok);
    assert CanaryJob(h, j, actor) == FinishCanary(h, j3, FailureRate(failures, |cohort|), actor);
    StageRevertCalls(h, j3, actor, |j.calls|);
    RevertStageDone(h, j3, actor);
    assert [] + cohort == cohort && [] + j3.rec.applied == j3.rec.applied;
    CohortIsCohort(j.rec.action);
  }

  lemma CohortIsCohort(action: Action)
    ensures IsCohort(action, Cohort(action))
  {
  }

  /** A rollout applies to the targets not yet applied, in order, and to no other; where it gives
      up it reverts every host the action had reached. */
  lemma RolloutTouches(h: Host, j: Job, actor: string)
    requires j.rec.state == Rollout
    ensures var (j', r) := RolloutJob(h, j, actor);
            && AppliedTo(j'.calls, |j.calls|) == Outside(j.rec.action.targets, j.rec.applied)
            && RevertedOn(j'.calls, |j.calls|) == if r == Done(Reverted) then Tried(h, j, RolloutStage, actor).rec.applied else []
  {
    hide AppliedTo, RevertedOn, FailedSince, ApplyTargets, RevertStage, Missing;
    var remaining := Missing(j.rec.action.targets, j.rec.applied);
    NothingSince(j.calls);
    ApplyCalls(h, j, remaining, Rollout, actor, |j.calls|);
    var (j2, failures) := ApplyTargets(h, j, remaining, Rollout, actor);
    var j3 := Move(j2, Verify, actor, Ok);
    assert RolloutJob(h, j, actor) == FinishRollout(h, j3, FailureRate(failures, |remaining|), actor);
    StageRevertCalls(h, j3, actor, |j.calls|);
    RevertStageDone(h, j3, actor);
    MissingIsOutside(j.rec.action.targets, j.rec.applied);
    assert [] + remaining == remaining && [] + j3.rec.applied == j3.rec.applied;
  }

  /** An operator rollback reverts the applied targets, or all where none is recorded. */
  lemma RollbackTouches(h: Host, j: Job, actor: string)
    requires j.rec.state in {Closed, Verify, Rollout, RollbackIncomplete}
    ensures var j' := RollbackJob(h, j, actor).0;
            && AppliedTo(j'.calls, |j.calls|) == []
            && RevertedOn(j'.calls, |j.calls|) == if j.rec.applied != [] then j.rec.applied else j.rec.action.targets
  {
    hide AppliedTo, RevertedOn, FailedSince, RevertTargets;
    var j1 := if j.rec.applied == [] then j.(rec := j.rec.(applied := j.rec.action.targets)) else j;
    NothingSince(j.calls);
    RevertCalls(h, j1, j1.rec.applied, actor, |j.calls|);
    assert [] + j1.rec.applied == j1.rec.applied;
  }

  // ----- when it gives up -----

  /** Too many of the calls a stage made failed. With nothing to try the failure rate counts as zero. */
  ghost predicate TooManyFailed(action: Action, tried: nat, failed: nat) {
    if tried == 0 then action.failureThreshold < 0.0
    else failed as real > action.failureThreshold * tried as real
  }

  lemma RateMeans(action: Action, tried: nat, failed: nat)
    ensures FailureRate(failed, tried) > action.failureThreshold <==> TooManyFailed(action, tried, failed)
  {
    if tried > 0 {
      var f, t, n := failed as real, action.failureThreshold, tried as real;
      var rate := f / n;
      assert rate * n == f;
      if rate > t { Scaled(t, rate, n); } else { ScaledEq(rate, t, n); }
    }
  }

  lemma Scaled(a: real, b: real, n: real)
    requires a < b && n > 0.0
    ensures a * n < b * n
  {
    assert (b - a) * n > 0.0;
  }

  lemma ScaledEq(a: real, b: real, n: real)
    requires a <= b && n > 0.0
    ensures a * n <= b * n
  {
    assert (b - a) * n >= 0.0;
  }

  /**
   A canary gives up exactly when more of its calls failed than its threshold allows, or the
   re-score of what it applied does not find the issue fixed.
   */
  lemma CanaryGivesUpExactly(h: Host, j: Job, actor: string)
    requires j.rec.state == Approved
    ensures var j3 := Tried(h, j, CanaryStage, actor);
            var tried := |AppliedTo(j3.calls, |j.calls|)|;
            CanaryJob(h, j, actor).1 == Done(Reverted) <==>
              || TooManyFailed(j.rec.action, tried, FailedSince(j3.calls, |j.calls|))
              || !h.fixed(|j3.audit|, j3.calls, j.rec.action, j3.rec.applied)
  {
    hide AppliedTo, RevertedOn, FailedSince, ApplyTargets, RevertStage, FailureRate, TooManyFailed;
    var j1 := Move(j, Canary, actor, Ok);
    var cohort := Cohort(j.rec.action);
    NothingSince(j.calls);
    ApplyCalls(h, j1, cohort, Canary, actor, |j.calls|);
    var (j2, failures) := ApplyTargets(h, j1, cohort, Canary, actor);
    var j3 := Tried(h, j, CanaryStage, actor);
    assert j3 == Move(j2, CanaryVerify, actor, Ok);
    assert [] + cohort == cohort;
    RateMeans(j.rec.action, |cohort|, failures);
    assert CanaryJob(h, j, actor) == FinishCanary(h, j3, FailureRate(failures, |cohort|), actor);
    RevertStageDone(h, j3, actor);
  }

  lemma RevertStageDone(h: Host, j: Job, actor: string)
    ensures RevertStage(h, j, actor).1 == Done(Reverted)
  {
  }

  /**
   A rollout gives up exactly when more of its calls failed than its threshold allows. Else it
   closes exactly when the re-score finds the issue fixed, and stays unverified otherwise.
   */
  lemma RolloutGivesUpExactly(h: Host, j: Job, actor: string)
    requires j.rec.state == Rollout
    ensures var j3 := Tried(h, j, RolloutStage, actor);
            var tooMany := TooManyFailed(j.rec.action, |AppliedTo(j3.calls, |j.calls|)|, FailedSince(j3.calls, |j.calls|));
            var isFixed := h.fixed(|j3.audit|, j3.calls, j.rec.action, j3.rec.applied);
            && (RolloutJob(h, j, actor).1 == Done(Reverted) <==> tooMany)
            && (RolloutJob(h, j, actor).1 == Done(Finished) <==> !tooMany && isFixed)
            && (RolloutJob(h, j, actor).1 == Done(AppliedUnverified) <==> !tooMany && !isFixed)
  {
    hide AppliedTo, RevertedOn, FailedSince, ApplyTargets, RevertStage, FailureRate, TooManyFailed, Missing;
    var remaining := Missing(j.rec.action.targets, j.rec.applied);
    NothingSince(j.calls);
    ApplyCalls(h, j, remaining, Rollout, actor, |j.calls|);
    var (j2, failures) := ApplyTargets(h, j, remaining, Rollout, actor);
    var j3 := Tried(h, j, RolloutStage, actor);
    assert j3 == Move(j2, Verify, actor, Ok);
    assert [] + remaining == remaining;
    RateMeans(j.rec.action, |remaining|, failures);
    assert RolloutJob(h, j, actor) == FinishRollout(h, j3, FailureRate(failures, |remaining|), actor);
    RevertStageDone(h, j3, actor);
  }
}
