/**
 The remediation bridge as a state machine over values: what each operation does to
 the recorded actions, the audit trail and the calls made on the executor.
 The class in BridgeClass.dfy performs the same operations in place.
 */
module Remediation {
  import opened Basics

  datatype DeliveryMethod = Shell | PackageMgr | Ansible | CustomTool | Webhook

  /** A user-authored action. `targets` is the explicit asset selector. */
  datatype Action = Action(
    id: string, name: string, delivery: DeliveryMethod, payload: string, targets: seq<string>,
    requiresApproval: bool, dryRunSupported: bool, rollback: Option<string>,
    findings: seq<string>, cohortSize: nat, failureThreshold: real)

  datatype ActionState =
    | Drafted | Mapped | DryRun | PendingApproval | Approved | Canary | CanaryVerify
    | Rollout | Verify | Closed | Aborted | RolledBack | RollbackIncomplete

  datatype StageOutcome =
    Promoted | Finished | Reverted | AppliedUnverified | RolledBackByOperator

  datatype Outcome = Ok | Rejected | Failed

  datatype AuditEvent = AuditEvent(
    number: nat, actionId: string, from: Option<ActionState>, to: ActionState,
    actor: string, outcome: Outcome)

  datatype Record = Record(action: Action, state: ActionState, applied: seq<string>)

  /** One call that reached the executor, and whether it succeeded on that target. */
  datatype ExecCall =
    | Apply(action: Action, target: string, ok: bool)
    | Revert(action: Action, target: string, ok: bool)

  /** The outside world. Whether a call succeeds may depend on everything the executor was
      asked before; whether a re-score finds the issue fixed also on when it is made, counted
      in audit events, so that two re-scores without a call in between may differ. */
  datatype Host = Host(
    applies: (seq<ExecCall>, Action, string) -> bool,
    reverts: (seq<ExecCall>, Action, string) -> bool,
    fixed: (nat, seq<ExecCall>, Action, seq<string>) -> bool)

  datatype World = World(actions: map<string, Record>, audit: seq<AuditEvent>, calls: seq<ExecCall>)

  datatype Refusal =
    | NoTargets(id: string)
    | NoAction(id: string)
    | IllegalMove(id: string, from: ActionState, to: ActionState)
    | CannotDryRun(id: string, from: ActionState)
    | NotInRollout(id: string)
    | NotApplied(id: string)
    | RollbackFailed(count: nat)

  const EmptyWorld := World(map[], [], [])

  /** One recorded action taken out to be worked on, with the two logs it writes to. */
  datatype Job = Job(id: string, rec: Record, audit: seq<AuditEvent>, calls: seq<ExecCall>)

  function Open(w: World, id: string): Job
    requires id in w.actions
  {
    Job(id, w.actions[id], w.audit, w.calls)
  }

  function Put(w: World, j: Job): World {
    World(w.actions[j.id := j.rec], j.audit, j.calls)
  }

  function StateOf(w: World, id: string): Option<ActionState> {
    if id in w.actions then Some(w.actions[id].state) else None
  }


  // ----- the audit trail -----

  function Event(audit: seq<AuditEvent>, id: string, from: Option<ActionState>, to: ActionState,
                 actor: string, outcome: Outcome): AuditEvent {
    AuditEvent(|audit|, id, from, to, actor, outcome)
  }

  function AuditRejected(w: World, id: string, actor: string): World {
    w.(audit := w.audit + [Event(w.audit, id, None, ActionState.Aborted, actor, Rejected)])
  }

  function AuditFailure(w: World, id: string, actor: string): World {
    var to := if id in w.actions then w.actions[id].state else ActionState.Aborted;
    w.(audit := w.audit + [Event(w.audit, id, None, to, actor, Failed)])
  }

  function Log(j: Job, from: Option<ActionState>, to: ActionState, actor: string, outcome: Outcome): Job {
    j.(audit := j.audit + [Event(j.audit, j.id, from, to, actor, outcome)])
  }

  // ----- state changes of one action -----

  /** Moves the action and audits the move. */
  function Move(j: Job, to: ActionState, actor: string, outcome: Outcome): Job {
    Log(j.(rec := j.rec.(state := to)), Some(j.rec.state), to, actor, outcome)
  }

  function Guarded(j: Job, allowed: set<ActionState>, to: ActionState, actor: string)
    : (Job, Reply<(), Refusal>)
  {
    if j.rec.state in allowed then (Move(j, to, actor, Ok), Done(()))
    else (Log(j, Some(j.rec.state), to, actor, Rejected), Refuse(IllegalMove(j.id, j.rec.state, to)))
  }

  function DryRunJob(j: Job, actor: string): (Job, Reply<(), Refusal>) {
    if j.rec.state == Drafted || j.rec.state == Mapped then (Move(j, DryRun, actor, Ok), Done(()))
    else (Log(j, Some(j.rec.state), DryRun, actor, Rejected), Refuse(CannotDryRun(j.id, j.rec.state)))
  }

  // ----- execution of one action -----

  function ApplyOne(h: Host, j: Job, target: string, stage: ActionState, actor: string): (Job, bool) {
    var ok := h.applies(j.calls, j.rec.action, target);
    var called := j.(calls := j.calls + [Apply(j.rec.action, target, ok)]);
    if ok then
      (Log(called.(rec := j.rec.(applied := j.rec.applied + [target])), Some(stage), stage, actor, Ok), true)
    else
      (Log(called, Some(stage), stage, actor, Failed), false)
  }

  /** Applies the payload to each target in turn; returns the number of failures. */
  function ApplyTargets(h: Host, j: Job, targets: seq<string>, stage: ActionState, actor: string): (Job, nat)
    decreases |targets|
  {
    if targets == [] then (j, 0)
    else
      var (j1, ok) := ApplyOne(h, j, targets[0], stage, actor);
      var (j2, failures) := ApplyTargets(h, j1, targets[1..], stage, actor);
      (j2, if ok then failures else failures + 1)
  }

  function RevertOne(h: Host, j: Job, target: string, actor: string): (Job, bool) {
    var ok := h.reverts(j.calls, j.rec.action, target);
    var called := j.(calls := j.calls + [Revert(j.rec.action, target, ok)]);
    (Log(called, None, RolledBack, actor, if ok then Ok else Failed), ok)
  }

  /** Reverts each target in turn; returns the targets on which the rollback failed. */
  function RevertTargets(h: Host, j: Job, targets: seq<string>, actor: string): (Job, seq<string>)
    decreases |targets|
  {
    if targets == [] then (j, [])
    else
      var (j1, ok) := RevertOne(h, j, targets[0], actor);
      var (j2, failed) := RevertTargets(h, j1, targets[1..], actor);
      (j2, if ok then failed else [targets[0]] + failed)
  }

  /** Reverts the applied targets and keeps exactly those whose rollback failed. */
  function RollbackApplied(h: Host, j: Job, actor: string): Job {
    var (j1, failed) := RevertTargets(h, j, j.rec.applied, actor);
    j1.(rec := j1.rec.(applied := failed))
  }

  function FailureRate(failures: nat, total: nat): real {
    if total == 0 then 0.0 else failures as real / total as real
  }

  function Cohort(action: Action): seq<string> {
    var wanted := if action.cohortSize < 1 then 1 else action.cohortSize;
    if wanted < |action.targets| then action.targets[..wanted] else action.targets
  }

  function RevertStage(h: Host, j: Job, actor: string): (Job, Reply<StageOutcome, Refusal>) {
    (Move(RollbackApplied(h, j, actor), RolledBack, actor, Ok), Done(Reverted))
  }

  function FinishCanary(h: Host, j: Job, rate: real, actor: string): (Job, Reply<StageOutcome, Refusal>) {
    if rate > j.rec.action.failureThreshold then RevertStage(h, j, actor)
    else if h.fixed(|j.audit|, j.calls, j.rec.action, j.rec.applied) then (Move(j, Rollout, actor, Ok), Done(Promoted))
    else RevertStage(h, j, actor)
  }

  function CanaryJob(h: Host, j: Job, actor: string): (Job, Reply<StageOutcome, Refusal>) {
    var (j1, entry) := Guarded(j, {Approved}, Canary, actor);
    if entry.Refuse? then (j1, Refuse(entry.why)) else ApplyCanary(h, j1, actor)
  }

  function ApplyCanary(h: Host, j: Job, actor: string): (Job, Reply<StageOutcome, Refusal>) {
    var cohort := Cohort(j.rec.action);
    var (j1, failures) := ApplyTargets(h, j, cohort, Canary, actor);
    FinishCanary(h, Move(j1, CanaryVerify, actor, Ok), FailureRate(failures, |cohort|), actor)
  }

  /** The targets in `targets` not yet in `applied`, in order. */
  function Missing(targets: seq<string>, applied: seq<string>): (r: seq<string>)
    ensures forall t :: t in r <==> t in targets && t !in applied
  {
    if targets == [] then []
    else if targets[0] in applied then Missing(targets[1..], applied)
    else [targets[0]] + Missing(targets[1..], applied)
  }

  function FinishRollout(h: Host, j: Job, rate: real, actor: string): (Job, Reply<StageOutcome, Refusal>) {
    if rate > j.rec.action.failureThreshold then RevertStage(h, j, actor)
    else if h.fixed(|j.audit|, j.calls, j.rec.action, j.rec.applied) then (Move(j, Closed, actor, Ok), Done(Finished))
    else (Log(j, Some(Verify), Verify, actor, Rejected), Done(AppliedUnverified))
  }

  function RolloutJob(h: Host, j: Job, actor: string): (Job, Reply<StageOutcome, Refusal>) {
    if j.rec.state != Rollout then
      (Log(j, Some(j.rec.state), Rollout, actor, Rejected), Refuse(NotInRollout(j.id)))
    else ApplyRollout(h, j, actor)
  }

  function ApplyRollout(h: Host, j: Job, actor: string): (Job, Reply<StageOutcome, Refusal>) {
    var remaining := Missing(j.rec.action.targets, j.rec.applied);
    var (j1, failures) := ApplyTargets(h, j, remaining, Rollout, actor);
    FinishRollout(h, Move(j1, Verify, actor, Ok), FailureRate(failures, |remaining|), actor)
  }

  /** The states an operator-commanded rollback accepts. */
  const Revertible: set<ActionState> := {Closed, Verify, Rollout, RollbackIncomplete}

  function RollbackJob(h: Host, j: Job, actor: string): (Job, Reply<StageOutcome, Refusal>) {
    if j.rec.state !in Revertible then
      (Log(j, Some(j.rec.state), RolledBack, actor, Rejected), Refuse(NotApplied(j.id)))
    else
      // A lost applied set falls back to every target of the action.
      var j1 := if j.rec.applied == [] then j.(rec := j.rec.(applied := j.rec.action.targets)) else j;
      var j2 := RollbackApplied(h, j1, actor);
      if j2.rec.applied != [] then
        (Move(j2, RollbackIncomplete, actor, Failed), Refuse(RollbackFailed(|j2.rec.applied|)))
      else
        (Move(j2, RolledBack, actor, Ok), Done(RolledBackByOperator))
  }

  // ----- the operations of the bridge -----

  function Transition(w: World, id: string, allowed: set<ActionState>, to: ActionState, actor: string)
    : (World, Reply<(), Refusal>)
  {
    if id !in w.actions then (w, Refuse(NoAction(id)))
    else var (j, r) := Guarded(Open(w, id), allowed, to, actor); (Put(w, j), r)
  }

  function Draft(w: World, action: Action, actor: string): (World, Reply<(), Refusal>) {
    if action.targets == [] then
      (w.(audit := w.audit + [Event(w.audit, action.id, None, Drafted, actor, Rejected)]),
       Refuse(NoTargets(action.id)))
    else
      (World(w.actions[action.id := Record(action, Drafted, [])],
             w.audit + [Event(w.audit, action.id, None, Drafted, actor, Ok)], w.calls),
       Done(()))
  }

  function DryRunAction(w: World, id: string, actor: string): (World, Reply<(), Refusal>) {
    if id !in w.actions then (w, Refuse(NoAction(id)))
    else var (j, r) := DryRunJob(Open(w, id), actor); (Put(w, j), r)
  }

  function Submit(w: World, id: string, actor: string): (World, Reply<(), Refusal>) {
    Transition(w, id, {DryRun}, PendingApproval, actor)
  }

  function Approve(w: World, id: string, actor: string): (World, Reply<(), Refusal>) {
    Transition(w, id, {PendingApproval}, Approved, actor)
  }

  function RejectAction(w: World, id: string, actor: string): (World, Reply<(), Refusal>) {
    Transition(w, id, {PendingApproval}, ActionState.Aborted, actor)
  }

  /** The states the kill switch accepts. */
  const InFlight: set<ActionState> := {Approved, Canary, CanaryVerify, Rollout, Verify}

  function Abort(w: World, id: string, actor: string): (World, Reply<(), Refusal>) {
    Transition(w, id, InFlight, ActionState.Aborted, actor)
  }

  datatype Stage = CanaryStage | RolloutStage | RollbackStage

  function StageJob(h: Host, j: Job, stage: Stage, actor: string): (Job, Reply<StageOutcome, Refusal>) {
    match stage
    case CanaryStage => CanaryJob(h, j, actor)
    case RolloutStage => RolloutJob(h, j, actor)
    case RollbackStage => RollbackJob(h, j, actor)
  }

  /** run_canary, run_rollout and run_rollback. */
  function RunStage(h: Host, w: World, id: string, stage: Stage, actor: string)
    : (World, Reply<StageOutcome, Refusal>)
  {
    if id !in w.actions then (w, Refuse(NoAction(id)))
    else var (j, r) := StageJob(h, Open(w, id), stage, actor); (Put(w, j), r)
  }
}
