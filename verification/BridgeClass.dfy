/** The bridge as the program keeps it: one object whose operations update its records and
    audit trail in place, calling an executor target by target. Every operation is proved
    to do what the state machine in `Remediation` says. */
module BridgeClass {
  import opened Basics
  import opened Remediation

  lemma {:induction false} ApplyKeepsAction(h: Host, j: Job, targets: seq<string>, stage: ActionState, actor: string)
    ensures ApplyTargets(h, j, targets, stage, actor).0.rec.action == j.rec.action
    decreases |targets|
  {
    if targets != [] {
      ApplyKeepsAction(h, ApplyOne(h, j, targets[0], stage, actor).0, targets[1..], stage, actor);
    }
  }

  /** The seam to the hosts. It remembers every call made on it. */
  lemma ApplyFirst(h: Host, j: Job, targets: seq<string>, stage: ActionState, actor: string)
    requires targets != []
    ensures ApplyTargets(h, j, targets, stage, actor) ==
            var (j1, ok) := ApplyOne(h, j, targets[0], stage, actor);
            var (j2, failures) := ApplyTargets(h, j1, targets[1..], stage, actor);
            (j2, if ok then failures else failures + 1)
  {
  }

  lemma ApplyNone(h: Host, j: Job, stage: ActionState, actor: string)
    ensures ApplyTargets(h, j, [], stage, actor) == (j, 0)
  {
  }

  class Executor {
    const host: Host
    var calls: seq<ExecCall>

    constructor (host: Host)
      ensures this.host == host && calls == []
    {
      this.host := host;
      calls := [];
    }

    method ApplyTo(action: Action, target: string) returns (ok: bool)
      modifies this
      ensures ok == host.applies(old(calls), action, target)
      ensures calls == old(calls) + [Apply(action, target, ok)]
    {
      ok := host.applies(calls, action, target);
      calls := calls + [Apply(action, target, ok)];
    }

    method RevertOn(action: Action, target: string) returns (ok: bool)
      modifies this
      ensures ok == host.reverts(old(calls), action, target)
      ensures calls == old(calls) + [Revert(action, target, ok)]
    {
      ok := host.reverts(calls, action, target);
      calls := calls + [Revert(action, target, ok)];
    }
  }

  class Bridge {
    var actions: map<string, Record>
    var audit: seq<AuditEvent>
    var next: nat

    ghost predicate Valid()
      reads this
    {
      next == |audit|
    }

    /** The bridge beside an executor that has made `calls`. */
    ghost function State(calls: seq<ExecCall>): World
      reads this
    {
      World(actions, audit, calls)
    }

    ghost function JobOf(id: string, calls: seq<ExecCall>): Job
      requires id in actions
      reads this
    {
      Job(id, actions[id], audit, calls)
    }

    constructor ()
      ensures Valid() && State([]) == EmptyWorld
    {
      actions, audit, next := map[], [], 0;
    }

    method Record(id: string, from: Option<ActionState>, to: ActionState, actor: string, outcome: Outcome)
      requires Valid()
      modifies this
      ensures Valid() && actions == old(actions)
      ensures audit == old(audit) + [Event(old(audit), id, from, to, actor, outcome)]
    {
      audit := audit + [AuditEvent(next, id, from, to, actor, outcome)];
      next := next + 1;
    }

    method AuditRejectedCommand(id: string, actor: string, ghost calls: seq<ExecCall>)
      requires Valid()
      modifies this
      ensures Valid() && State(calls) == AuditRejected(old(State(calls)), id, actor)
    {
      Record(id, None, ActionState.Aborted, actor, Rejected);
    }

    method AuditExecutionFailure(id: string, actor: string, ghost calls: seq<ExecCall>)
      requires Valid()
      modifies this
      ensures Valid() && State(calls) == AuditFailure(old(State(calls)), id, actor)
    {
      var to := if id in actions then actions[id].state else ActionState.Aborted;
      Record(id, None, to, actor, Failed);
    }

    method SetState(id: string, to: ActionState, actor: string, outcome: Outcome, ghost calls: seq<ExecCall>)
      requires Valid() && id in actions
      modifies this
      ensures Valid() && id in actions && JobOf(id, calls) == Move(old(JobOf(id, calls)), to, actor, outcome)
      ensures actions == old(actions)[id := actions[id]]
    {
      var from := actions[id].state;
      actions := actions[id := actions[id].(state := to)];
      Record(id, Some(from), to, actor, outcome);
    }

    method MoveGuarded(id: string, allowed: set<ActionState>, to: ActionState, actor: string, ghost calls: seq<ExecCall>)
      returns (r: Reply<(), Refusal>)
      requires Valid()
      modifies this
      ensures Valid() && (State(calls), r) == Transition(old(State(calls)), id, allowed, to, actor)
    {
      if id !in actions {
        return Refuse(NoAction(id));
      }
      var from := actions[id].state;
      if from in allowed {
        SetState(id, to, actor, Ok, calls);
        r := Done(());
      } else {
        Record(id, Some(from), to, actor, Rejected);
        assert actions == actions[id := actions[id]];
        r := Refuse(IllegalMove(id, from, to));
      }
    }

    method StoreDraft(action: Action, actor: string, ghost calls: seq<ExecCall>) returns (r: Reply<(), Refusal>)
      requires Valid()
      modifies this
      ensures Valid() && (State(calls), r) == Draft(old(State(calls)), action, actor)
    {
      if action.targets == [] {
        Record(action.id, None, Drafted, actor, Rejected);
        return Refuse(NoTargets(action.id));
      }
      actions := actions[action.id := Remediation.Record(action, Drafted, [])];
      Record(action.id, None, Drafted, actor, Ok);
      r := Done(());
    }

    method Preview(id: string, actor: string, ghost calls: seq<ExecCall>) returns (r: Reply<(), Refusal>)
      requires Valid()
      modifies this
      ensures Valid() && (State(calls), r) == DryRunAction(old(State(calls)), id, actor)
    {
      if id !in actions {
        return Refuse(NoAction(id));
      }
      var from := actions[id].state;
      if from != Drafted && from != Mapped {
        Record(id, Some(from), DryRun, actor, Rejected);
        assert actions == actions[id := actions[id]];
        return Refuse(CannotDryRun(id, from));
      }
      SetState(id, DryRun, actor, Ok, calls);
      r := Done(());
    }

    method ApplyEach(id: string, x: Executor, targets: seq<string>, stage: ActionState, actor: string)
      returns (rate: real)
      requires Valid() && id in actions
      modifies this, x
      ensures Valid() && actions.Keys == old(actions).Keys
      ensures var (j, failures) := ApplyTargets(x.host, old(JobOf(id, x.calls)), targets, stage, actor);
              && JobOf(id, x.calls) == j && actions == old(actions)[id := j.rec]
              && rate == FailureRate(failures, |targets|)
    {
      hide ApplyTargets;
      var action := actions[id].action;
      var failures := 0;
      ghost var first := JobOf(id, x.calls);
      assert targets[0..] == targets;
      for i := 0 to |targets|
        invariant Valid() && id in actions && actions == old(actions)[id := actions[id]]
        invariant actions[id].action == action
        invariant ApplyTargets(x.host, first, targets, stage, actor) ==
                  var (j, more) := ApplyTargets(x.host, JobOf(id, x.calls), targets[i..], stage, actor);
                  (j, failures + more)
      {
        ghost var rest := targets[i..];
        assert rest[1..] == targets[i + 1..];
        ApplyFirst(x.host, JobOf(id, x.calls), rest, stage, actor);
        var ok := x.ApplyTo(action, targets[i]);
        if ok {
          actions := actions[id := actions[id].(applied := actions[id].applied + [targets[i]])];
          Record(id, Some(stage), stage, actor, Ok);
        } else {
          failures := failures + 1;
          Record(id, Some(stage), stage, actor, Failed);
        }
      }
      ApplyNone(x.host, JobOf(id, x.calls), stage, actor);
      rate := if |targets| == 0 then 0.0 else failures as real / |targets| as real;
    }

    method RevertApplied(id: string, x: Executor, actor: string) returns (failed: seq<string>)
      requires Valid() && id in actions
      modifies this, x
      ensures Valid() && id in actions && actions == old(actions)[id := actions[id]]
      ensures JobOf(id, x.calls) == RollbackApplied(x.host, old(JobOf(id, x.calls)), actor)
      ensures failed == actions[id].applied
    {
      var action := actions[id].action;
      var applied := actions[id].applied;
      failed := [];
      ghost var first := JobOf(id, x.calls);
      assert applied[0..] == applied && forall more: seq<string> :: failed + more == more;
      for i := 0 to |applied|
        invariant Valid() && actions == old(actions)
        invariant RevertTargets(x.host, first, applied, actor) ==
                  var (j, more) := RevertTargets(x.host, JobOf(id, x.calls), applied[i..], actor);
                  (j, failed + more)
      {
        ghost var rest := applied[i..];
        assert rest[1..] == applied[i + 1..];
        var ok := x.RevertOn(action, applied[i]);
        if !ok {
          ghost var before := failed;
          failed := failed + [applied[i]];
          assert forall more :: before + ([applied[i]] + more) == failed + more;
        }
        Record(id, None, RolledBack, actor, if ok then Ok else Failed);
      }
      actions := actions[id := actions[id].(applied := failed)];
    }

    method RevertAndClose(id: string, x: Executor, actor: string) returns (r: Reply<StageOutcome, Refusal>)
      requires Valid() && id in actions
      modifies this, x
      ensures Valid() && id in actions && actions == old(actions)[id := actions[id]]
      ensures (JobOf(id, x.calls), r) == RevertStage(x.host, old(JobOf(id, x.calls)), actor)
    {
      var failed := RevertApplied(id, x, actor);
      SetState(id, RolledBack, actor, Ok, x.calls);
      r := Done(Reverted);
    }

    /** The part of run_canary after the entry guard. */
    method ApplyCohort(id: string, x: Executor, actor: string) returns (r: Reply<StageOutcome, Refusal>)
      requires Valid() && id in actions
      modifies this, x
      ensures Valid() && id in actions && actions == old(actions)[id := actions[id]]
      ensures (JobOf(id, x.calls), r) == ApplyCanary(x.host, old(JobOf(id, x.calls)), actor)
    {
      hide ApplyTargets, FailureRate, FinishCanary, Cohort;
      var action := actions[id].action;
      var rate := ApplyEach(id, x, Cohort(action), Canary, actor);
      SetState(id, CanaryVerify, actor, Ok, x.calls);
      ApplyKeepsAction(x.host, old(JobOf(id, x.calls)), Cohort(action), Canary, actor);
      r := JudgeCohort(id, x, rate, actor);
    }

    /** The verdict on the cohort: promote, or revert. */
    method JudgeCohort(id: string, x: Executor, rate: real, actor: string) returns (r: Reply<StageOutcome, Refusal>)
      requires Valid() && id in actions
      modifies this, x
      ensures Valid() && id in actions && actions == old(actions)[id := actions[id]]
      ensures (JobOf(id, x.calls), r) == FinishCanary(x.host, old(JobOf(id, x.calls)), rate, actor)
    {
      var action := actions[id].action;
      if rate > action.failureThreshold {
        r := RevertAndClose(id, x, actor);
      } else if x.host.fixed(next, x.calls, action, actions[id].applied) {
        SetState(id, Rollout, actor, Ok, x.calls);
        r := Done(Promoted);
      } else {
        r := RevertAndClose(id, x, actor);
      }
    }

    method RunCanary(id: string, x: Executor, actor: string) returns (r: Reply<StageOutcome, Refusal>)
      requires Valid()
      modifies this, x
      ensures Valid() && (State(x.calls), r) == RunStage(x.host, old(State(x.calls)), id, CanaryStage, actor)
    {
      hide ApplyCanary;
      var entry := MoveGuarded(id, {Approved}, Canary, actor, x.calls);
      if entry.Refuse? {
        return Refuse(entry.why);
      }
      r := ApplyCohort(id, x, actor);
      assert actions == old(actions)[id := actions[id]];
    }

    /** The part of run_rollout after the entry guard. */
    method ApplyRemaining(id: string, x: Executor, actor: string) returns (r: Reply<StageOutcome, Refusal>)
      requires Valid() && id in actions
      modifies this, x
      ensures Valid() && id in actions && actions == old(actions)[id := actions[id]]
      ensures (JobOf(id, x.calls), r) == ApplyRollout(x.host, old(JobOf(id, x.calls)), actor)
    {
      hide ApplyTargets, FailureRate, FinishRollout, Missing;
      var action := actions[id].action;
      var remaining := Missing(action.targets, actions[id].applied);
      var rate := ApplyEach(id, x, remaining, Rollout, actor);
      SetState(id, Verify, actor, Ok, x.calls);
      ApplyKeepsAction(x.host, old(JobOf(id, x.calls)), remaining, Rollout, actor);
      r := JudgeRollout(id, x, rate, actor);
    }

    /** The verdict on the rollout: close, leave applied but unverified, or revert. */
    method JudgeRollout(id: string, x: Executor, rate: real, actor: string) returns (r: Reply<StageOutcome, Refusal>)
      requires Valid() && id in actions
      modifies this, x
      ensures Valid() && id in actions && actions == old(actions)[id := actions[id]]
      ensures (JobOf(id, x.calls), r) == FinishRollout(x.host, old(JobOf(id, x.calls)), rate, actor)
    {
      var action := actions[id].action;
      if rate > action.failureThreshold {
        r := RevertAndClose(id, x, actor);
      } else if x.host.fixed(next, x.calls, action, actions[id].applied) {
        SetState(id, Closed, actor, Ok, x.calls);
        r := Done(Finished);
      } else {
        Record(id, Some(Verify), Verify, actor, Rejected);
        r := Done(AppliedUnverified);
      }
    }

    method RunRollout(id: string, x: Executor, actor: string) returns (r: Reply<StageOutcome, Refusal>)
      requires Valid()
      modifies this, x
      ensures Valid() && (State(x.calls), r) == RunStage(x.host, old(State(x.calls)), id, RolloutStage, actor)
    {
      hide ApplyRollout;
      if id !in actions {
        return Refuse(NoAction(id));
      }
      if actions[id].state != Rollout {
        Record(id, Some(actions[id].state), Rollout, actor, Rejected);
        assert actions == actions[id := actions[id]];
        return Refuse(NotInRollout(id));
      }
      r := ApplyRemaining(id, x, actor);
    }

    method RunRollback(id: string, x: Executor, actor: string) returns (r: Reply<StageOutcome, Refusal>)
      requires Valid()
      modifies this, x
      ensures Valid() && (State(x.calls), r) == RunStage(x.host, old(State(x.calls)), id, RollbackStage, actor)
    {
      if id !in actions {
        return Refuse(NoAction(id));
      }
      if actions[id].state !in Revertible {
        Record(id, Some(actions[id].state), RolledBack, actor, Rejected);
        assert actions == actions[id := actions[id]];
        return Refuse(NotApplied(id));
      }
      if actions[id].applied == [] {
        actions := actions[id := actions[id].(applied := actions[id].action.targets)];
      }
      var failed := RevertApplied(id, x, actor);
      if failed != [] {
        SetState(id, RollbackIncomplete, actor, Failed, x.calls);
        r := Refuse(RollbackFailed(|failed|));
      } else {
        SetState(id, RolledBack, actor, Ok, x.calls);
        r := Done(RolledBackByOperator);
      }
      assert actions == old(actions)[id := actions[id]];
    }
  }
}
