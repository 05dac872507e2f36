/**
 The audit trail of a stage, whole and in order: one entry per executor call that says how
 the call went, between the entries of the moves.
 */
module StageTrail {
  import opened Basics
  import opened Remediation

  /** What an entry says besides its number, action and actor. */
  type Line = (Option<ActionState>, ActionState, Outcome)

  ghost function Numbered(n: nat, id: string, actor: string, lines: seq<Line>): (r: seq<AuditEvent>)
    ensures |r| == |lines|
  {
    seq(|lines|, i requires 0 <= i < |lines| => AuditEvent(n + i, id, lines[i].0, lines[i].1, actor, lines[i].2))
  }

  /** From `j` to `j'` exactly these lines were written, by this actor, under the next numbers. */
  ghost predicate Writes(j: Job, j': Job, actor: string, lines: seq<Line>) {
    j'.id == j.id && j'.audit == j.audit + Numbered(|j.audit|, j.id, actor, lines)
  }

  lemma WritesOn(j: Job, j1: Job, j2: Job, actor: string, a: seq<Line>, b: seq<Line>)
    requires Writes(j, j1, actor, a) && Writes(j1, j2, actor, b)
    ensures Writes(j, j2, actor, a + b)
  {
    assert Numbered(|j.audit|, j.id, actor, a + b) ==
           Numbered(|j.audit|, j.id, actor, a) + Numbered(|j1.audit|, j.id, actor, b);
  }

  lemma WritesNothing(j: Job, actor: string)
    ensures Writes(j, j, actor, [])
  {
    assert j.audit + Numbered(|j.audit|, j.id, actor, []) == j.audit;
  }

  lemma WritesOne(j: Job, j': Job, actor: string, from: Option<ActionState>, to: ActionState, outcome: Outcome)
    requires j'.id == j.id && j'.audit == j.audit + [AuditEvent(|j.audit|, j.id, from, to, actor, outcome)]
    ensures Writes(j, j', actor, [(from, to, outcome)])
  {
    assert Numbered(|j.audit|, j.id, actor, [(from, to, outcome)]) ==
           [AuditEvent(|j.audit|, j.id, from, to, actor, outcome)];
  }

  // ----- calls -----

  /** An apply is logged under its stage, a revert under RolledBack: Ok where the call succeeded, else Failed. */
  ghost function CallLine(c: ExecCall, stage: ActionState): Line {
    var outcome := if c.ok then Ok else Failed;
    if c.Apply? then (Some(stage), stage, outcome) else (None, RolledBack, outcome)
  }

  ghost function CallLines(calls: seq<ExecCall>, stage: ActionState): (r: seq<Line>)
    ensures |r| == |calls|
  {
    seq(|calls|, i requires 0 <= i < |calls| => CallLine(calls[i], stage))
  }

  /** From `j` to `j'` exactly these calls were made, each with its line. */
  ghost predicate Logs(j: Job, j': Job, calls: seq<ExecCall>, stage: ActionState, actor: string) {
    j'.calls == j.calls + calls && Writes(j, j', actor, CallLines(calls, stage))
  }

  lemma LogsNothing(j: Job, stage: ActionState, actor: string)
    ensures Logs(j, j, [], stage, actor)
  {
    WritesNothing(j, actor);
    assert CallLines([], stage) == [];
  }

  lemma LogsOn(j: Job, j1: Job, j2: Job, a: seq<ExecCall>, b: seq<ExecCall>, stage: ActionState, actor: string)
    requires Logs(j, j1, a, stage, actor) && Logs(j1, j2, b, stage, actor)
    ensures Logs(j, j2, a + b, stage, actor)
  {
    hide Writes;
    WritesOn(j, j1, j2, actor, CallLines(a, stage), CallLines(b, stage));
    assert CallLines(a + b, stage) == CallLines(a, stage) + CallLines(b, stage);
    assert (j.calls + a) + b == j.calls + (a + b);
  }

  lemma LogsOne(j: Job, j': Job, c: ExecCall, stage: ActionState, actor: string)
    requires j'.calls == j.calls + [c] && Writes(j, j', actor, [CallLine(c, stage)])
    ensures Logs(j, j', [c], stage, actor)
  {
    assert CallLines([c], stage) == [CallLine(c, stage)];
  }

  ghost predicate AllApply(calls: seq<ExecCall>) { forall i :: 0 <= i < |calls| ==> calls[i].Apply? }

  ghost predicate AllRevert(calls: seq<ExecCall>) { forall i :: 0 <= i < |calls| ==> calls[i].Revert? }

  /** How many of the calls failed. */
  ghost function FailedOf(calls: seq<ExecCall>): nat
    decreases |calls|
  {
    if calls == [] then 0 else (if calls[0].ok then 0 else 1) + FailedOf(calls[1..])
  }

  lemma ApplyOneLogs(h: Host, j: Job, target: string, stage: ActionState, actor: string) returns (c: ExecCall)
    ensures c.Apply? && Logs(j, ApplyOne(h, j, target, stage, actor).0, [c], stage, actor)
  {
    c := Apply(j.rec.action, target, h.applies(j.calls, j.rec.action, target));
    var j' := ApplyOne(h, j, target, stage, actor).0;
    WritesOne(j, j', actor, Some(stage), stage, if c.ok then Ok else Failed);
    LogsOne(j, j', c, stage, actor);
  }

  lemma {:induction false} ApplyLogs(h: Host, j: Job, targets: seq<string>, stage: ActionState, actor: string)
    returns (calls: seq<ExecCall>)
    ensures AllApply(calls) && Logs(j, ApplyTargets(h, j, targets, stage, actor).0, calls, stage, actor)
    decreases |targets|
  {
    hide Logs, ApplyOne;
    if targets == [] {
      calls := [];
      LogsNothing(j, stage, actor);
    } else {
      var j1 := ApplyOne(h, j, targets[0], stage, actor).0;
      var c := ApplyOneLogs(h, j, targets[0], stage, actor);
      var rest := ApplyLogs(h, j1, targets[1..], stage, actor);
      calls := [c] + rest;
      LogsOn(j, j1, ApplyTargets(h, j, targets, stage, actor).0, [c], rest, stage, actor);
    }
  }

  lemma RevertOneLogs(h: Host, j: Job, target: string, stage: ActionState, actor: string) returns (c: ExecCall)
    ensures c.Revert? && c.ok == RevertOne(h, j, target, actor).1
    ensures Logs(j, RevertOne(h, j, target, actor).0, [c], stage, actor)
  {
    c := Revert(j.rec.action, target, h.reverts(j.calls, j.rec.action, target));
    var j' := RevertOne(h, j, target, actor).0;
    WritesOne(j, j', actor, None, RolledBack, if c.ok then Ok else Failed);
    LogsOne(j, j', c, stage, actor);
  }

  lemma {:induction false} RevertLogs(h: Host, j: Job, targets: seq<string>, stage: ActionState, actor: string)
    returns (calls: seq<ExecCall>)
    ensures var (j', failed) := RevertTargets(h, j, targets, actor);
            AllRevert(calls) && Logs(j, j', calls, stage, actor) && |failed| == FailedOf(calls)
    decreases |targets|
  {
    hide Logs, RevertOne;
    if targets == [] {
      calls := [];
      LogsNothing(j, stage, actor);
    } else {
      var j1 := RevertOne(h, j, targets[0], actor).0;
      var c := RevertOneLogs(h, j, targets[0], stage, actor);
      var rest := RevertLogs(h, j1, targets[1..], stage, actor);
      calls := [c] + rest;
      assert calls[1..] == rest;
      LogsOn(j, j1, RevertTargets(h, j, targets, actor).0, [c], rest, stage, actor);
    }
  }

  // ----- the stages -----

  lemma MoveWrites(j: Job, to: ActionState, actor: string, outcome: Outcome)
    ensures var j' := Move(j, to, actor, outcome);
            Writes(j, j', actor, [(Some(j.rec.state), to, outcome)]) && j'.calls == j.calls
  {
    WritesOne(j, Move(j, to, actor, outcome), actor, Some(j.rec.state), to, outcome);
  }

  /** Giving up: the reverts, and the move to RolledBack. */
  lemma RevertStageWrites(h: Host, j: Job, actor: string) returns (reverts: seq<ExecCall>)
    ensures var j' := RevertStage(h, j, actor).0;
            && AllRevert(reverts) && j'.calls == j.calls + reverts
            && Writes(j, j', actor, CallLines(reverts, RolledBack) + [(Some(j.rec.state), RolledBack, Ok)])
  {
    reverts := RevertLogs(h, j, j.rec.applied, RolledBack, actor);
    RevertKeepsState(h, j, j.rec.applied, actor);
    var j1 := RollbackApplied(h, j, actor);
    MoveWrites(j1, RolledBack, actor, Ok);
    hide Writes, RevertTargets;
    assert Writes(j, j1, actor, CallLines(reverts, RolledBack)) by { SameTrail(j, RevertTargets(h, j, j.rec.applied, actor).0, j1, actor, CallLines(reverts, RolledBack)); }
    WritesOn(j, j1, Move(j1, RolledBack, actor, Ok), actor, CallLines(reverts, RolledBack), [(Some(j.rec.state), RolledBack, Ok)]);
  }

  /** Writing is about the trail alone. */
  lemma SameTrail(j: Job, j1: Job, j2: Job, actor: string, lines: seq<Line>)
    requires Writes(j, j1, actor, lines) && j2.id == j1.id && j2.audit == j1.audit
    ensures Writes(j, j2, actor, lines)
  {
  }

  lemma {:induction false} RevertKeepsState(h: Host, j: Job, targets: seq<string>, actor: string)
    ensures RevertTargets(h, j, targets, actor).0.rec == j.rec
    decreases |targets|
  {
    if targets != [] { RevertKeepsState(h, RevertOne(h, j, targets[0], actor).0, targets[1..], actor); }
  }

  lemma {:induction false} ApplyKeepsState(h: Host, j: Job, targets: seq<string>, stage: ActionState, actor: string)
    ensures ApplyTargets(h, j, targets, stage, actor).0.rec.state == j.rec.state
    decreases |targets|
  {
    if targets != [] { ApplyKeepsState(h, ApplyOne(h, j, targets[0], stage, actor).0, targets[1..], stage, actor); }
  }

  /** Applying to the targets, and moving on to the verdict. */
  lemma TriedWrites(h: Host, j: Job, targets: seq<string>, stage: ActionState, to: ActionState, actor: string)
    returns (applies: seq<ExecCall>)
    requires j.rec.state == stage
    ensures var j' := Move(ApplyTargets(h, j, targets, stage, actor).0, to, actor, Ok);
            && AllApply(applies) && j'.calls == j.calls + applies && j'.rec.state == to
            && Writes(j, j', actor, CallLines(applies, stage) + [(Some(stage), to, Ok)])
  {
    applies := ApplyLogs(h, j, targets, stage, actor);
    ApplyKeepsState(h, j, targets, stage, actor);
    var j1 := ApplyTargets(h, j, targets, stage, actor).0;
    MoveWrites(j1, to, actor, Ok);
    hide Writes, ApplyTargets;
    WritesOn(j, j1, Move(j1, to, actor, Ok), actor, CallLines(applies, stage), [(Some(stage), to, Ok)]);
  }

  /** The lines of a verdict: the move it makes, after the reverts where it gives up. */
  ghost function VerdictLines(r: Reply<StageOutcome, Refusal>, from: ActionState, reverts: seq<ExecCall>): seq<Line> {
    if r == Done(Promoted) then [(Some(from), Rollout, Ok)]
    else if r == Done(Finished) then [(Some(from), Closed, Ok)]
    else if r == Done(AppliedUnverified) then [(Some(from), from, Outcome.Rejected)]
    else CallLines(reverts, RolledBack) + [(Some(from), RolledBack, Ok)]
  }

  lemma FinishCanaryWrites(h: Host, j: Job, rate: real, actor: string) returns (reverts: seq<ExecCall>)
    ensures var (j', r) := FinishCanary(h, j, rate, actor);
            && AllRevert(reverts) && j'.calls == j.calls + reverts && (r == Done(Reverted) || r == Done(Promoted))
            && (r == Done(Promoted) ==> reverts == [])
            && Writes(j, j', actor, VerdictLines(r, j.rec.state, reverts))
  {
    hide Writes, RevertStage;
    var r := FinishCanary(h, j, rate, actor).1;
    var revert := RevertStageWrites(h, j, actor);
    MoveWrites(j, Rollout, actor, Ok);
    RevertStageSays(h, j, actor);
    reverts := if r == Done(Promoted) then [] else revert;
    assert j.calls + [] == j.calls;
  }

  lemma RevertStageSays(h: Host, j: Job, actor: string)
    ensures RevertStage(h, j, actor).1 == Done(Reverted)
  {
  }

  lemma FinishRolloutWrites(h: Host, j: Job, rate: real, actor: string) returns (reverts: seq<ExecCall>)
    requires j.rec.state == Verify
    ensures var (j', r) := FinishRollout(h, j, rate, actor);
            && AllRevert(reverts) && j'.calls == j.calls + reverts
            && (r == Done(Reverted) || r == Done(Finished) || r == Done(AppliedUnverified))
            && (r != Done(Reverted) ==> reverts == [])
            && Writes(j, j', actor, VerdictLines(r, Verify, reverts))
  {
    hide Writes, RevertStage;
    var r := FinishRollout(h, j, rate, actor).1;
    var revert := RevertStageWrites(h, j, actor);
    MoveWrites(j, Closed, actor, Ok);
    RevertStageSays(h, j, actor);
    WritesOne(j, Log(j, Some(Verify), Verify, actor, Outcome.Rejected), actor, Some(Verify), Verify, Outcome.Rejected);
    reverts := if r == Done(Reverted) then revert else [];
    assert j.calls + [] == j.calls;
  }

  /** The whole trail of a canary. */
  lemma CanaryTrail(h: Host, j: Job, actor: string) returns (applies: seq<ExecCall>, reverts: seq<ExecCall>)
    requires j.rec.state == Approved
    ensures var (j', r) := CanaryJob(h, j, actor);
            && AllApply(applies) && AllRevert(reverts) && j'.calls == j.calls + applies + reverts
            && (r == Done(Reverted) || r == Done(Promoted)) && (r == Done(Promoted) ==> reverts == [])
            && Writes(j, j', actor, [(Some(Approved), Canary, Ok)] + (CallLines(applies, Canary) + [(Some(Canary), CanaryVerify, Ok)])
                                    + VerdictLines(r, CanaryVerify, reverts))
  {
    hide Writes, FinishCanary, ApplyTargets, Cohort, FailureRate;
    MoveWrites(j, Canary, actor, Ok);
    var j1 := Move(j, Canary, actor, Ok);
    var cohort := Cohort(j.rec.action);
    applies := TriedWrites(h, j1, cohort, Canary, CanaryVerify, actor);
    var (j2, failures) := ApplyTargets(h, j1, cohort, Canary, actor);
    var j3 := Move(j2, CanaryVerify, actor, Ok);
    var rate := FailureRate(failures, |cohort|);
    reverts := FinishCanaryWrites(h, j3, rate, actor);
    assert CanaryJob(h, j, actor) == FinishCanary(h, j3, rate, actor);
    var j4 := CanaryJob(h, j, actor).0;
    var first, second: seq<Line> := [(Some(Approved), Canary, Ok)], CallLines(applies, Canary) + [(Some(Canary), CanaryVerify, Ok)];
    hide VerdictLines, CallLines;
    WritesOn(j, j1, j3, actor, first, second);
    WritesOn(j, j3, j4, actor, first + second, VerdictLines(CanaryJob(h, j, actor).1, CanaryVerify, reverts));
  }

  /** The whole trail of a rollout. */
  lemma RolloutTrail(h: Host, j: Job, actor: string) returns (applies: seq<ExecCall>, reverts: seq<ExecCall>)
    requires j.rec.state == Rollout
    ensures var (j', r) := RolloutJob(h, j, actor);
            && AllApply(applies) && AllRevert(reverts) && j'.calls == j.calls + applies + reverts
            && (r == Done(Reverted) || r == Done(Finished) || r == Done(AppliedUnverified))
            && (r != Done(Reverted) ==> reverts == [])
            && Writes(j, j', actor, CallLines(applies, Rollout) + [(Some(Rollout), Verify, Ok)] + VerdictLines(r, Verify, reverts))
  {
    hide Writes, FinishRollout, ApplyTargets, Missing, FailureRate;
    var remaining := Missing(j.rec.action.targets, j.rec.applied);
    applies := TriedWrites(h, j, remaining, Rollout, Verify, actor);
    var (j2, failures) := ApplyTargets(h, j, remaining, Rollout, actor);
    var j3 := Move(j2, Verify, actor, Ok);
    var rate := FailureRate(failures, |remaining|);
    reverts := FinishRolloutWrites(h, j3, rate, actor);
    assert RolloutJob(h, j, actor) == FinishRollout(h, j3, rate, actor);
    var first: seq<Line> := CallLines(applies, Rollout) + [(Some(Rollout), Verify, Ok)];
    hide VerdictLines, CallLines;
    WritesOn(j, j3, RolloutJob(h, j, actor).0, actor, first, VerdictLines(RolloutJob(h, j, actor).1, Verify, reverts));
  }

  /** The whole trail of an operator rollback, and its answer: it counts the hosts that did not let go. */
  lemma RollbackTrail(h: Host, j: Job, actor: string) returns (reverts: seq<ExecCall>)
    requires j.rec.state in {Closed, Verify, Rollout, RollbackIncomplete}
    ensures var (j', r) := RollbackJob(h, j, actor);
            var n := FailedOf(reverts);
            && AllRevert(reverts) && j'.calls == j.calls + reverts
            && r == (if n == 0 then Done(RolledBackByOperator) else Refuse(RollbackFailed(n)))
            && Writes(j, j', actor, CallLines(reverts, RolledBack)
                                    + [(Some(j.rec.state), if n == 0 then RolledBack else RollbackIncomplete, if n == 0 then Ok else Failed)])
  {
    var j1 := if j.rec.applied == [] then j.(rec := j.rec.(applied := j.rec.action.targets)) else j;
    reverts := RevertLogs(h, j1, j1.rec.applied, RolledBack, actor);
    RevertKeepsState(h, j1, j1.rec.applied, actor);
    var n := FailedOf(reverts);
    var (j2, failed) := RevertTargets(h, j1, j1.rec.applied, actor);
    var j3 := RollbackApplied(h, j1, actor);
    hide RevertTargets, FailedOf, CallLines;
    assert Writes(j, j3, actor, CallLines(reverts, RolledBack)) && j3.rec.state == j.rec.state && |j3.rec.applied| == n;
    hide Writes, RollbackApplied;
    MoveWrites(j3, RolledBack, actor, Ok);
    MoveWrites(j3, RollbackIncomplete, actor, Failed);
    var to, outcome := if n == 0 then RolledBack else RollbackIncomplete, if n == 0 then Ok else Failed;
    assert RollbackJob(h, j, actor).0 == Move(j3, to, actor, outcome);
    WritesOn(j, j3, Move(j3, to, actor, outcome), actor, CallLines(reverts, RolledBack), [(Some(j.rec.state), to, outcome)]);
  }

  /** A stage refused for the state of its action says so, in its answer and in one entry, and calls nothing. */
  lemma RefusedStageTrail(h: Host, j: Job, stage: Stage, actor: string)
    requires match stage
             case CanaryStage => j.rec.state != Approved
             case RolloutStage => j.rec.state != Rollout
             case RollbackStage => j.rec.state !in {Closed, Verify, Rollout, RollbackIncomplete}
    ensures var (j', r) := StageJob(h, j, stage, actor);
            var to := match stage case CanaryStage => Canary case RolloutStage => Rollout case RollbackStage => RolledBack;
            && j'.calls == j.calls && j'.rec == j.rec
            && r == Refuse(match stage
                           case CanaryStage => IllegalMove(j.id, j.rec.state, Canary)
                           case RolloutStage => NotInRollout(j.id)
                           case RollbackStage => NotApplied(j.id))
            && Writes(j, j', actor, [(Some(j.rec.state), to, Outcome.Rejected)])
  {
    var j' := StageJob(h, j, stage, actor).0;
    match stage {
      case CanaryStage => WritesOne(j, j', actor, Some(j.rec.state), Canary, Outcome.Rejected);
      case RolloutStage => WritesOne(j, j', actor, Some(j.rec.state), Rollout, Outcome.Rejected);
      case RollbackStage => WritesOne(j, j', actor, Some(j.rec.state), RolledBack, Outcome.Rejected);
    }
  }
}
