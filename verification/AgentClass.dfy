/** The agent's control loop as the program keeps it: a replay guard, a scheduler, an
    executor and the served bridge, each updated in place, proved to refine `Control`. */
module AgentClass {
  import opened Basics
  import opened Remediation
  import opened BridgeClass
  import opened Control

  class ReplayGuard {
    var seen: Marks

    constructor ()
      ensures seen == map[]
    {
      seen := map[];
    }

    method Open(session: string, from: nat)
      modifies this
      ensures seen == old(seen)[session := from]
    {
      seen := seen[session := from];
    }

    method TryAdmit(session: string, number: nat) returns (admitted: bool)
      modifies this
      ensures (seen, admitted) == Admit(old(seen), session, number)
    {
      if session in seen && number > seen[session] {
        seen := seen[session := number];
        return true;
      }
      return false;
    }
  }

  class AgentControlLoop {
    const policy: Policy
    const guard: ReplayGuard
    const executor: Executor
    var pending: seq<Pending>

    ghost predicate Valid(bridge: Bridge)
      reads this, bridge
    {
      bridge.Valid() && executor.host == policy.host
    }

    /** The loop together with the bridge it serves. */
    ghost function View(bridge: Bridge): Agent
      reads this, bridge, guard, executor
    {
      Agent(bridge.State(executor.calls), guard.seen, pending)
    }

    constructor (policy: Policy)
      ensures this.policy == policy && fresh(guard) && fresh(executor)
      ensures executor.host == policy.host && executor.calls == [] && guard.seen == map[] && pending == []
    {
      this.policy := policy;
      guard := new ReplayGuard();
      executor := new Executor(policy.host);
      pending := [];
    }

    method Open(session: string, from: nat, ghost bridge: Bridge)
      requires Valid(bridge)
      modifies guard
      ensures Valid(bridge) && View(bridge) == Step(policy, old(View(bridge)), OpenSession(session, from))
    {
      guard.Open(session, from);
    }

    method CheckAuthenticAndFresh(bridge: Bridge, cmd: ControlCommand) returns (r: Reply<(), Denial>)
      requires Valid(bridge)
      modifies bridge, guard
      ensures Valid(bridge) && (View(bridge), r) == AdmitAuthentic(policy, old(View(bridge)), cmd)
    {
      if !Verifies(policy.trusted, cmd.Unsigned(), cmd.signature, cmd.actor) {
        bridge.AuditRejectedCommand(cmd.actionId, cmd.actor, executor.calls);
        return Refuse(BadSignature(Label(cmd.kind), cmd.actionId));
      }
      var admitted := guard.TryAdmit(cmd.session, cmd.number);
      if !admitted {
        bridge.AuditRejectedCommand(cmd.actionId, cmd.actor, executor.calls);
        return Refuse(Stale(cmd.session, cmd.number, cmd.actionId));
      }
      r := Done(());
    }

    method DispatchCommand(bridge: Bridge, cmd: ControlCommand) returns (r: Reply<(), Denial>)
      requires Valid(bridge)
      modifies bridge
      ensures Valid(bridge)
      ensures (bridge.State(executor.calls), r) == Dispatch(policy, old(bridge.State(executor.calls)), cmd)
    {
      var id, actor := cmd.actionId, cmd.actor;
      if !Verifies(policy.trusted, cmd.Unsigned(), cmd.signature, actor) {
        bridge.AuditRejectedCommand(id, actor, executor.calls);
        return Refuse(BadSignature(Label(cmd.kind), id));
      }
      if !policy.permits(actor, cmd.kind) {
        bridge.AuditRejectedCommand(id, actor, executor.calls);
        return Refuse(NotPermitted(actor, Label(cmd.kind), id));
      }
      var done: Reply<(), Refusal>;
      match cmd.kind {
        case Draft(action) =>
          if action.id != id {
            bridge.AuditRejectedCommand(id, actor, executor.calls);
            return Refuse(DraftMismatch(id, action.id));
          }
          if action.id in bridge.actions {
            bridge.AuditRejectedCommand(action.id, actor, executor.calls);
            return Refuse(AlreadyExists(action.id));
          }
          done := bridge.StoreDraft(action, actor, executor.calls);
        case Submit => done := bridge.MoveGuarded(id, {DryRun}, PendingApproval, actor, executor.calls);
        case Approve => done := bridge.MoveGuarded(id, {PendingApproval}, Approved, actor, executor.calls);
        case Reject(_) => done := bridge.MoveGuarded(id, {PendingApproval}, ActionState.Aborted, actor, executor.calls);
        case Abort(_) => done := bridge.MoveGuarded(id, InFlight, ActionState.Aborted, actor, executor.calls);
        case _ => return Refuse(NeedsOrchestrator(Label(cmd.kind)));
      }
      r := Lift(done);
    }

    method DispatchGuarded(bridge: Bridge, cmd: ControlCommand) returns (r: Reply<(), Denial>)
      requires Valid(bridge)
      modifies bridge, guard
      ensures Valid(bridge) && (View(bridge), r) == DispatchFresh(policy, old(View(bridge)), cmd)
    {
      hide Dispatch, AdmitAuthentic;
      r := CheckAuthenticAndFresh(bridge, cmd);
      if r.Done? {
        r := DispatchCommand(bridge, cmd);
      }
    }

    method CheckExecution(bridge: Bridge, cmd: ControlCommand) returns (r: Reply<(), Denial>)
      requires Valid(bridge)
      modifies bridge, guard
      ensures Valid(bridge) && (View(bridge), r) == GateExecution(policy, old(View(bridge)), cmd)
    {
      hide AdmitAuthentic;
      r := CheckAuthenticAndFresh(bridge, cmd);
      if r.Refuse? {
        return;
      }
      if !policy.permits(cmd.actor, cmd.kind) {
        bridge.AuditRejectedCommand(cmd.actionId, cmd.actor, executor.calls);
        return Refuse(NotPermitted(cmd.actor, Label(cmd.kind), cmd.actionId));
      }
      if !IsExecution(cmd.kind) {
        return Refuse(NotExecution);
      }
      r := Done(());
    }

    method RunKind(bridge: Bridge, id: string, kind: CommandKind, actor: string)
      returns (r: Reply<StageOutcome, Refusal>)
      requires Valid(bridge) && IsExecution(kind)
      modifies bridge, executor
      ensures Valid(bridge)
      ensures (bridge.State(executor.calls), r) ==
              RunStage(policy.host, old(bridge.State(executor.calls)), id, StageOf(kind), actor)
    {
      if kind.Canary? {
        r := bridge.RunCanary(id, executor, actor);
      } else if kind.Rollout? {
        r := bridge.RunRollout(id, executor, actor);
      } else {
        r := bridge.RunRollback(id, executor, actor);
      }
    }

    method Execute(bridge: Bridge, cmd: ControlCommand) returns (result: CommandResult)
      requires Valid(bridge)
      modifies bridge, guard, executor
      ensures Valid(bridge) && (View(bridge), result) == ExecuteFresh(policy, old(View(bridge)), cmd)
    {
      hide GateExecution, RunStage;
      var gate := CheckExecution(bridge, cmd);
      if gate.Refuse? {
        return SignOutcome(policy, cmd, CommandOutcome.Rejected, DeniedText(gate.why), None);
      }
      if cmd.schedule.Some? {
        bridge.AuditRejectedCommand(cmd.actionId, cmd.actor, executor.calls);
        return SignOutcome(policy, cmd, CommandOutcome.Rejected, DeniedText(OnlyInWindow), None);
      }
      if !IsExecution(cmd.kind) {
        return SignOutcome(policy, cmd, CommandOutcome.Rejected, DeniedText(NotExecution), None);
      }
      var r := RunKind(bridge, cmd.actionId, cmd.kind, cmd.actor);
      match r {
        case Done(stage) => result := SignOutcome(policy, cmd, Applied, StageText(stage), Some(stage));
        case Refuse(why) => result := SignOutcome(policy, cmd, CommandOutcome.Rejected, DeniedText(ByBridge(why)), None);
      }
    }

    method Hold(bridge: Bridge, cmd: ControlCommand, now: nat) returns (result: CommandResult)
      requires Valid(bridge)
      modifies this, bridge, guard
      ensures Valid(bridge) && (View(bridge), result) == EnqueueFresh(policy, old(View(bridge)), cmd, now)
    {
      hide GateExecution;
      var gate := CheckExecution(bridge, cmd);
      if gate.Refuse? {
        return SignOutcome(policy, cmd, CommandOutcome.Rejected, DeniedText(gate.why), None);
      }
      if cmd.schedule.None? {
        bridge.AuditRejectedCommand(cmd.actionId, cmd.actor, executor.calls);
        return SignOutcome(policy, cmd, CommandOutcome.Rejected, DeniedText(NoWindow(Label(cmd.kind), cmd.actionId)), None);
      }
      var window := cmd.schedule.value;
      if now > window.notAfter {
        bridge.AuditRejectedCommand(cmd.actionId, cmd.actor, executor.calls);
        return SignOutcome(policy, cmd, CommandOutcome.Rejected,
                           DeniedText(Expired(Label(cmd.kind), cmd.actionId, window, now)), None);
      }
      pending := pending + [Pending(cmd, window)];
      result := SignOutcome(policy, cmd, Applied, ScheduledText(window), None);
    }

    method HandleDraft(bridge: Bridge, cmd: ControlCommand) returns (result: CommandResult)
      requires Valid(bridge)
      modifies bridge, guard
      ensures Valid(bridge) && (View(bridge), result) == HandleDraftFresh(policy, old(View(bridge)), cmd)
    {
      hide DispatchFresh, DryRunAction;
      var r := DispatchGuarded(bridge, cmd);
      if r.Refuse? {
        return SignOutcome(policy, cmd, CommandOutcome.Rejected, DeniedText(r.why), None);
      }
      var d := bridge.Preview(cmd.actionId, cmd.actor, executor.calls);
      match d {
        case Done(_) => result := SignOutcome(policy, cmd, Applied, PreviewText, None);
        case Refuse(why) => result := SignOutcome(policy, cmd, CommandOutcome.Rejected, DeniedText(ByBridge(why)), None);
      }
    }

    /** Drops every held command for `id`, auditing each. */
    method CancelFor(bridge: Bridge, id: string)
      requires Valid(bridge)
      modifies this, bridge
      ensures Valid(bridge) && View(bridge) == Cancel(old(View(bridge)), id)
    {
      var keep: seq<Pending> := [];
      ghost var w0 := bridge.State(executor.calls);
      assert pending[0..] == pending;
      for i := 0 to |pending|
        invariant Valid(bridge) && pending == old(pending)
        invariant NotFor(pending, id) == keep + NotFor(pending[i..], id)
        invariant AuditCancelled(w0, pending, id) == AuditCancelled(bridge.State(executor.calls), pending[i..], id)
      {
        ghost var rest := pending[i..];
        assert rest[0] == pending[i] && rest[1..] == pending[i + 1..];
        if pending[i].cmd.actionId == id {
          bridge.AuditRejectedCommand(id, pending[i].cmd.actor, executor.calls);
        } else {
          assert keep + ([pending[i]] + NotFor(rest[1..], id)) == (keep + [pending[i]]) + NotFor(rest[1..], id);
          keep := keep + [pending[i]];
        }
      }
      pending := keep;
    }

    method Handle(bridge: Bridge, cmd: ControlCommand) returns (result: CommandResult)
      requires Valid(bridge)
      modifies this, bridge, guard
      ensures Valid(bridge) && (View(bridge), result) == HandleLifecycle(policy, old(View(bridge)), cmd)
    {
      hide DispatchFresh, Cancel;
      var r := DispatchGuarded(bridge, cmd);
      match r {
        case Done(_) =>
          result := SignOutcome(policy, cmd, Applied, AppliedText, None);
          if cmd.kind.Abort? {
            CancelFor(bridge, cmd.actionId);
          }
        case Refuse(why) =>
          result := SignOutcome(policy, cmd, CommandOutcome.Rejected, DeniedText(why), None);
      }
    }

    /** Handles one inbound frame. */
    method ServeFrame(bridge: Bridge, wire: Wire, now: nat) returns (answer: Option<CommandResult>)
      requires Valid(bridge)
      modifies this, bridge, guard, executor
      ensures Valid(bridge) && (View(bridge), answer) == ServeOne(policy, old(View(bridge)), wire, now)
    {
      hide EnqueueFresh, ExecuteFresh, HandleDraftFresh, HandleLifecycle;
      match wire {
        case Malformed => return None;
        case Result(_) => return None;
        case Command(cmd) =>
          var result;
          if IsExecution(cmd.kind) {
            if cmd.schedule.Some? {
              result := Hold(bridge, cmd, now);
            } else {
              result := Execute(bridge, cmd);
            }
          } else if cmd.kind.Draft? {
            result := HandleDraft(bridge, cmd);
          } else {
            result := Handle(bridge, cmd);
          }
          return Some(result);
      }
    }

    method ReleaseHeld(bridge: Bridge, e: Pending, now: nat) returns (verdict: Verdict)
      requires Valid(bridge)
      modifies bridge, executor
      ensures Valid(bridge)
      ensures (bridge.State(executor.calls), verdict) ==
              ReleaseOne(policy.host, old(bridge.State(executor.calls)), e, now)
    {
      hide RunStage;
      var id, actor := e.cmd.actionId, e.cmd.actor;
      if now > e.schedule.notAfter {
        bridge.AuditRejectedCommand(id, actor, executor.calls);
        return Missed;
      }
      if now < e.schedule.notBefore {
        return Waiting;
      }
      if !IsExecution(e.cmd.kind) {
        bridge.AuditRejectedCommand(id, actor, executor.calls);
        return Dropped;
      }
      var before := if id in bridge.actions then Some(bridge.actions[id].state) else None;
      var r := RunKind(bridge, id, e.cmd.kind, actor);
      if r.Done? {
        return Fired(r.value);
      }
      var after := if id in bridge.actions then Some(bridge.actions[id].state) else None;
      if after != before {
        bridge.AuditExecutionFailure(id, actor, executor.calls);
        return RanAndFailed;
      }
      bridge.AuditRejectedCommand(id, actor, executor.calls);
      return Dropped;
    }

    /** Releases, discards or keeps every held command. */
    method TickClock(bridge: Bridge, now: nat) returns (fired: seq<(string, StageOutcome)>)
      requires Valid(bridge)
      modifies this, bridge, executor
      ensures Valid(bridge) && (View(bridge), fired) == Tick(policy, old(View(bridge)), now)
    {
      hide ReleaseOne;
      var held := pending;
      var kept: seq<Pending> := [];
      fired := [];
      ghost var w0 := bridge.State(executor.calls);
      assert held[0..] == held;
      ghost var whole := ReleaseAll(policy.host, w0, held, now);
      assert kept + whole.1 == whole.1 && fired + whole.2 == whole.2;
      for i := 0 to |held|
        invariant Valid(bridge) && guard.seen == old(guard.seen)
        invariant whole == var (w, k, f) := ReleaseAll(policy.host, bridge.State(executor.calls), held[i..], now);
                           (w, kept + k, fired + f)
      {
        ghost var rest := held[i..];
        assert rest[0] == held[i] && rest[1..] == held[i + 1..];
        ghost var kept0, fired0 := kept, fired;
        var verdict := ReleaseHeld(bridge, held[i], now);
        if verdict == Waiting {
          kept := kept + [held[i]];
          assert forall k :: kept0 + ([held[i]] + k) == kept + k;
        } else if verdict.Fired? {
          fired := fired + [(held[i].cmd.actionId, verdict.outcome)];
          assert forall f :: fired0 + ([(held[i].cmd.actionId, verdict.outcome)] + f) == fired + f;
        }
      }
      assert kept + [] == kept && fired + [] == fired;
      pending := kept;
    }
  }
}
