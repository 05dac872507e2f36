/** Whose doing every audit entry is: over whole runs each names a delivered command. */
module AuditActors {
  import opened Basics
  import opened Remediation
  import opened BridgeLaws
  import opened RevertLaws
  import opened Control
  import opened AgentLaws
  import opened AgentRuns
  import opened AgentOrders

  /** One of the commands is by this actor, on this action. */
  ghost predicate Named(cmds: seq<ControlCommand>, e: AuditEvent) {
    exists i :: 0 <= i < |cmds| && cmds[i].actor == e.actor && cmds[i].actionId == e.actionId
  }

  /** The trail only grew, and every new entry names one of the commands. */
  ghost predicate Adds(before: seq<AuditEvent>, after: seq<AuditEvent>, cmds: seq<ControlCommand>) {
    before <= after && forall i :: |before| <= i < |after| ==> Named(cmds, after[i])
  }

  lemma AddsTrans(a: seq<AuditEvent>, b: seq<AuditEvent>, c: seq<AuditEvent>, cmds: seq<ControlCommand>)
    requires Adds(a, b, cmds) && Adds(b, c, cmds)
    ensures Adds(a, c, cmds)
  {
    forall i | |a| <= i < |c| ensures Named(cmds, c[i]) {
      if i < |b| { assert c[i] == b[i]; }
    }
  }

  lemma AddsOne(audit: seq<AuditEvent>, e: AuditEvent, cmds: seq<ControlCommand>)
    requires Named(cmds, e)
    ensures Adds(audit, audit + [e], cmds)
  {
  }

  lemma AddsMore(a: seq<AuditEvent>, b: seq<AuditEvent>, few: seq<ControlCommand>, many: seq<ControlCommand>)
    requires Adds(a, b, few) && forall c :: c in few ==> c in many
    ensures Adds(a, b, many)
  {
    forall i | |a| <= i < |b| ensures Named(many, b[i]) { NamedMore(few, many, b[i]); }
  }

  lemma NamedMore(few: seq<ControlCommand>, many: seq<ControlCommand>, e: AuditEvent)
    requires Named(few, e) && forall c :: c in few ==> c in many
    ensures Named(many, e)
  {
    var i :| 0 <= i < |few| && few[i].actor == e.actor && few[i].actionId == e.actionId;
    assert few[i] in many;
  }

  lemma NamedOne(cmd: ControlCommand, e: AuditEvent)
    requires cmd.actor == e.actor && cmd.actionId == e.actionId
    ensures Named([cmd], e)
  {
    assert [cmd][0] == cmd;
  }

  // ----- the stages -----

  lemma LogAdds(j: Job, from: Option<ActionState>, to: ActionState, outcome: Outcome, cmd: ControlCommand)
    requires j.id == cmd.actionId
    ensures Adds(j.audit, Log(j, from, to, cmd.actor, outcome).audit, [cmd])
  {
    var e := Event(j.audit, j.id, from, to, cmd.actor, outcome);
    NamedOne(cmd, e);
    AddsOne(j.audit, e, [cmd]);
  }

  lemma {:induction false} ApplyAdds(h: Host, j: Job, targets: seq<string>, stage: ActionState, cmd: ControlCommand)
    requires j.id == cmd.actionId
    ensures var j' := ApplyTargets(h, j, targets, stage, cmd.actor).0; j'.id == j.id && Adds(j.audit, j'.audit, [cmd])
    decreases |targets|
  {
    hide Adds;
    if targets == [] {
      AddsNothing(j.audit, [cmd]);
    } else {
      var j1 := ApplyOne(h, j, targets[0], stage, cmd.actor).0;
      LogAdds(j, Some(stage), stage, Ok, cmd);
      LogAdds(j, Some(stage), stage, Failed, cmd);
      ApplyAdds(h, j1, targets[1..], stage, cmd);
      AddsTrans(j.audit, j1.audit, ApplyTargets(h, j1, targets[1..], stage, cmd.actor).0.audit, [cmd]);
    }
  }

  lemma AddsNothing(audit: seq<AuditEvent>, cmds: seq<ControlCommand>)
    ensures Adds(audit, audit, cmds)
  {
  }

  lemma {:induction false} RevertAdds(h: Host, j: Job, targets: seq<string>, cmd: ControlCommand)
    requires j.id == cmd.actionId
    ensures var j' := RevertTargets(h, j, targets, cmd.actor).0; j'.id == j.id && Adds(j.audit, j'.audit, [cmd])
    decreases |targets|
  {
    hide Adds;
    if targets == [] {
      AddsNothing(j.audit, [cmd]);
    } else {
      var j1 := RevertOne(h, j, targets[0], cmd.actor).0;
      LogAdds(j, None, RolledBack, Ok, cmd);
      LogAdds(j, None, RolledBack, Failed, cmd);
      RevertAdds(h, j1, targets[1..], cmd);
      AddsTrans(j.audit, j1.audit, RevertTargets(h, j1, targets[1..], cmd.actor).0.audit, [cmd]);
    }
  }

  lemma MoveAdds(a: seq<AuditEvent>, j: Job, to: ActionState, outcome: Outcome, cmd: ControlCommand)
    requires j.id == cmd.actionId && Adds(a, j.audit, [cmd])
    ensures Adds(a, Move(j, to, cmd.actor, outcome).audit, [cmd])
  {
    hide Adds;
    LogAdds(j.(rec := j.rec.(state := to)), Some(j.rec.state), to, outcome, cmd);
    AddsTrans(a, j.audit, Move(j, to, cmd.actor, outcome).audit, [cmd]);
  }

  lemma RevertStageAdds(h: Host, a: seq<AuditEvent>, j: Job, cmd: ControlCommand)
    requires j.id == cmd.actionId && Adds(a, j.audit, [cmd])
    ensures var j' := RevertStage(h, j, cmd.actor).0; j'.id == j.id && Adds(a, j'.audit, [cmd])
  {
    hide Adds, RevertTargets;
    RevertAdds(h, j, j.rec.applied, cmd);
    var j1 := RollbackApplied(h, j, cmd.actor);
    AddsTrans(a, j.audit, j1.audit, [cmd]);
    MoveAdds(a, j1, RolledBack, Ok, cmd);
  }

  lemma CanaryAdds(h: Host, j: Job, cmd: ControlCommand)
    requires j.id == cmd.actionId
    ensures var j' := CanaryJob(h, j, cmd.actor).0; j'.id == j.id && Adds(j.audit, j'.audit, [cmd])
  {
    hide Adds, ApplyTargets, RevertStage, Cohort;
    AddsNothing(j.audit, [cmd]);
    LogAdds(j, Some(j.rec.state), ActionState.Canary, Outcome.Rejected, cmd);
    if j.rec.state == Approved {
      var j1 := Move(j, ActionState.Canary, cmd.actor, Ok);
      MoveAdds(j.audit, j, ActionState.Canary, Ok, cmd);
      var cohort := Cohort(j.rec.action);
      ApplyAdds(h, j1, cohort, ActionState.Canary, cmd);
      var (j2, failures) := ApplyTargets(h, j1, cohort, ActionState.Canary, cmd.actor);
      AddsTrans(j.audit, j1.audit, j2.audit, [cmd]);
      MoveAdds(j.audit, j2, CanaryVerify, Ok, cmd);
      var j3 := Move(j2, CanaryVerify, cmd.actor, Ok);
      MoveAdds(j.audit, j3, ActionState.Rollout, Ok, cmd);
      RevertStageAdds(h, j.audit, j3, cmd);
      assert CanaryJob(h, j, cmd.actor) == FinishCanary(h, j3, FailureRate(failures, |cohort|), cmd.actor);
    }
  }

  lemma RolloutAdds(h: Host, j: Job, cmd: ControlCommand)
    requires j.id == cmd.actionId
    ensures var j' := RolloutJob(h, j, cmd.actor).0; j'.id == j.id && Adds(j.audit, j'.audit, [cmd])
  {
    hide Adds, ApplyTargets, RevertStage, Missing;
    LogAdds(j, Some(j.rec.state), ActionState.Rollout, Outcome.Rejected, cmd);
    if j.rec.state == ActionState.Rollout {
      var remaining := Missing(j.rec.action.targets, j.rec.applied);
      ApplyAdds(h, j, remaining, ActionState.Rollout, cmd);
      var (j2, failures) := ApplyTargets(h, j, remaining, ActionState.Rollout, cmd.actor);
      MoveAdds(j.audit, j2, Verify, Ok, cmd);
      var j3 := Move(j2, Verify, cmd.actor, Ok);
      MoveAdds(j.audit, j3, Closed, Ok, cmd);
      LogAdds(j3, Some(Verify), Verify, Outcome.Rejected, cmd);
      AddsTrans(j.audit, j3.audit, Log(j3, Some(Verify), Verify, cmd.actor, Outcome.Rejected).audit, [cmd]);
      RevertStageAdds(h, j.audit, j3, cmd);
      assert RolloutJob(h, j, cmd.actor) == FinishRollout(h, j3, FailureRate(failures, |remaining|), cmd.actor);
    }
  }

  lemma RollbackAdds(h: Host, j: Job, cmd: ControlCommand)
    requires j.id == cmd.actionId
    ensures var j' := RollbackJob(h, j, cmd.actor).0; j'.id == j.id && Adds(j.audit, j'.audit, [cmd])
  {
    hide Adds, RevertTargets;
    LogAdds(j, Some(j.rec.state), RolledBack, Outcome.Rejected, cmd);
    if j.rec.state in Revertible {
      var j1 := if j.rec.applied == [] then j.(rec := j.rec.(applied := j.rec.action.targets)) else j;
      RevertAdds(h, j1, j1.rec.applied, cmd);
      var j2 := RollbackApplied(h, j1, cmd.actor);
      MoveAdds(j.audit, j2, RollbackIncomplete, Failed, cmd);
      MoveAdds(j.audit, j2, RolledBack, Ok, cmd);
    }
  }

  lemma StageAdds(h: Host, w: World, cmd: ControlCommand)
    requires IsExecution(cmd.kind)
    ensures Adds(w.audit, RunStage(h, w, cmd.actionId, StageOf(cmd.kind), cmd.actor).0.audit, [cmd])
  {
    hide Adds, CanaryJob, RolloutJob, RollbackJob;
    AddsNothing(w.audit, [cmd]);
    if cmd.actionId in w.actions {
      var j := Open(w, cmd.actionId);
      CanaryAdds(h, j, cmd);
      RolloutAdds(h, j, cmd);
      RollbackAdds(h, j, cmd);
    }
  }

  // ----- serving -----

  lemma TransitionAdds(w: World, allowed: set<ActionState>, to: ActionState, cmd: ControlCommand)
    ensures Adds(w.audit, Transition(w, cmd.actionId, allowed, to, cmd.actor).0.audit, [cmd])
  {
    hide Adds;
    AddsNothing(w.audit, [cmd]);
    if cmd.actionId in w.actions {
      var j := Open(w, cmd.actionId);
      MoveAdds(w.audit, j, to, Ok, cmd);
      LogAdds(j, Some(j.rec.state), to, Outcome.Rejected, cmd);
    }
  }

  lemma RejectedAdds(w: World, cmd: ControlCommand)
    ensures Adds(w.audit, AuditRejected(w, cmd.actionId, cmd.actor).audit, [cmd])
  {
    hide Adds;
    var e := Event(w.audit, cmd.actionId, None, ActionState.Aborted, cmd.actor, Outcome.Rejected);
    NamedOne(cmd, e);
    AddsOne(w.audit, e, [cmd]);
  }

  lemma LifecycleAdds(w: World, cmd: ControlCommand)
    ensures Adds(w.audit, DispatchLifecycle(w, cmd).0.audit, [cmd])
  {
    hide Adds, Transition;
    AddsNothing(w.audit, [cmd]);
    RejectedAdds(w, cmd);
    match cmd.kind {
      case Draft(action) =>
        if action.id == cmd.actionId && action.id !in w.actions {
          var ok := Event(w.audit, action.id, None, Drafted, cmd.actor, Ok);
          var no := Event(w.audit, action.id, None, Drafted, cmd.actor, Outcome.Rejected);
          NamedOne(cmd, ok);
          NamedOne(cmd, no);
          AddsOne(w.audit, ok, [cmd]);
          AddsOne(w.audit, no, [cmd]);
        }
      case Submit => TransitionAdds(w, {DryRun}, PendingApproval, cmd);
      case Approve => TransitionAdds(w, {PendingApproval}, Approved, cmd);
      case Reject(_) => TransitionAdds(w, {PendingApproval}, ActionState.Aborted, cmd);
      case Abort(_) => TransitionAdds(w, InFlight, ActionState.Aborted, cmd);
      case _ =>
    }
  }

  lemma DispatchAdds(p: Policy, a: Agent, cmd: ControlCommand)
    ensures Adds(a.world.audit, DispatchFresh(p, a, cmd).0.world.audit, [cmd])
  {
    hide Adds, DispatchLifecycle;
    RejectedAdds(a.world, cmd);
    LifecycleAdds(a.world, cmd);
  }

  lemma DryRunAdds(w: World, cmd: ControlCommand)
    ensures Adds(w.audit, DryRunAction(w, cmd.actionId, cmd.actor).0.audit, [cmd])
  {
    hide Adds;
    AddsNothing(w.audit, [cmd]);
    if cmd.actionId in w.actions {
      var j := Open(w, cmd.actionId);
      MoveAdds(w.audit, j, DryRun, Ok, cmd);
      LogAdds(j, Some(j.rec.state), DryRun, Outcome.Rejected, cmd);
    }
  }

  lemma DraftAdds(p: Policy, a: Agent, cmd: ControlCommand)
    ensures Adds(a.world.audit, HandleDraftFresh(p, a, cmd).0.world.audit, [cmd])
  {
    hide Adds, DispatchFresh, DryRunAction;
    DispatchAdds(p, a, cmd);
    var w := DispatchFresh(p, a, cmd).0.world;
    DryRunAdds(w, cmd);
    AddsTrans(a.world.audit, w.audit, DryRunAction(w, cmd.actionId, cmd.actor).0.audit, [cmd]);
  }

  lemma GateAdds(p: Policy, a: Agent, cmd: ControlCommand)
    ensures Adds(a.world.audit, GateExecution(p, a, cmd).0.world.audit, [cmd])
  {
    hide Adds;
    AddsNothing(a.world.audit, [cmd]);
    RejectedAdds(a.world, cmd);
  }

  lemma ExecuteAdds(p: Policy, a: Agent, cmd: ControlCommand, now: nat)
    requires IsExecution(cmd.kind)
    ensures Adds(a.world.audit, ExecuteFresh(p, a, cmd).0.world.audit, [cmd])
    ensures Adds(a.world.audit, EnqueueFresh(p, a, cmd, now).0.world.audit, [cmd])
  {
    hide Adds, GateExecution, RunStage;
    GateAdds(p, a, cmd);
    var w := GateExecution(p, a, cmd).0.world;
    RejectedAdds(w, cmd);
    StageAdds(p.host, w, cmd);
    AddsTrans(a.world.audit, w.audit, AuditRejected(w, cmd.actionId, cmd.actor).audit, [cmd]);
    AddsTrans(a.world.audit, w.audit, RunStage(p.host, w, cmd.actionId, StageOf(cmd.kind), cmd.actor).0.audit, [cmd]);
  }

  lemma {:induction false} CancelAdds(w: World, held: seq<Pending>, id: string)
    ensures Adds(w.audit, AuditCancelled(w, held, id).audit, Cmds(held))
    decreases |held|
  {
    hide Adds;
    if held == [] {
      AddsNothing(w.audit, Cmds(held));
    } else {
      var cmd, rest := held[0].cmd, held[1..];
      var w1 := if cmd.actionId == id then AuditRejected(w, id, cmd.actor) else w;
      if cmd.actionId == id { RejectedAdds(w, cmd); } else { AddsNothing(w.audit, [cmd]); }
      CancelAdds(w1, rest, id);
      AddsMore(w.audit, w1.audit, [cmd], Cmds(held));
      AddsMore(w1.audit, AuditCancelled(w1, rest, id).audit, Cmds(rest), Cmds(held));
      AddsTrans(w.audit, w1.audit, AuditCancelled(w1, rest, id).audit, Cmds(held));
    }
  }

  lemma HandleAdds(p: Policy, a: Agent, cmd: ControlCommand)
    ensures Adds(a.world.audit, HandleLifecycle(p, a, cmd).0.world.audit, [cmd] + Cmds(a.pending))
  {
    hide Adds, DispatchFresh, AuditCancelled, Cmds;
    DispatchAdds(p, a, cmd);
    var a1 := DispatchFresh(p, a, cmd).0;
    var all := [cmd] + Cmds(a.pending);
    AddsMore(a.world.audit, a1.world.audit, [cmd], all);
    DispatchKeepsPending(p, a, cmd);
    CancelAdds(a1.world, a1.pending, cmd.actionId);
    var audit := AuditCancelled(a1.world, a1.pending, cmd.actionId).audit;
    AddsMore(a1.world.audit, audit, Cmds(a1.pending), all);
    AddsTrans(a.world.audit, a1.world.audit, audit, all);
  }

  lemma DispatchKeepsPending(p: Policy, a: Agent, cmd: ControlCommand)
    ensures DispatchFresh(p, a, cmd).0.pending == a.pending
  {
    hide DispatchLifecycle;
  }

  lemma ServeAdds(p: Policy, a: Agent, cmd: ControlCommand, now: nat)
    ensures Adds(a.world.audit, ServeCommand(p, a, cmd, now).0.world.audit, [cmd] + Cmds(a.pending))
  {
    hide Adds, ExecuteFresh, EnqueueFresh, HandleDraftFresh, HandleLifecycle, Cmds;
    var all := [cmd] + Cmds(a.pending);
    var after := ServeCommand(p, a, cmd, now).0.world.audit;
    if IsExecution(cmd.kind) {
      ExecuteAdds(p, a, cmd, now);
      AddsMore(a.world.audit, after, [cmd], all);
    } else if cmd.kind.Draft? {
      DraftAdds(p, a, cmd);
      AddsMore(a.world.audit, after, [cmd], all);
    } else {
      HandleAdds(p, a, cmd);
    }
  }

  /** Behind a closed gate nothing but rejections is written. */
  lemma ClosedGateRejects(p: Policy, a: Agent, cmd: ControlCommand, now: nat)
    requires !GateOpen(p, a, cmd)
    ensures var after := ServeCommand(p, a, cmd, now).0.world.audit;
            a.world.audit <= after && forall i :: |a.world.audit| <= i < |after| ==> after[i].outcome == Outcome.Rejected
  {
  }

  lemma ReleaseOneAdds(h: Host, w: World, e: Pending, now: nat)
    ensures Adds(w.audit, ReleaseOne(h, w, e, now).0.audit, [e.cmd])
  {
    hide Adds, RunStage;
    AddsNothing(w.audit, [e.cmd]);
    RejectedAdds(w, e.cmd);
    if IsExecution(e.cmd.kind) {
      StageAdds(h, w, e.cmd);
      var w1 := RunStage(h, w, e.cmd.actionId, StageOf(e.cmd.kind), e.cmd.actor).0;
      RejectedAdds(w1, e.cmd);
      FailureAdds(w1, e.cmd);
      AddsTrans(w.audit, w1.audit, AuditRejected(w1, e.cmd.actionId, e.cmd.actor).audit, [e.cmd]);
      AddsTrans(w.audit, w1.audit, AuditFailure(w1, e.cmd.actionId, e.cmd.actor).audit, [e.cmd]);
    }
  }

  lemma FailureAdds(w: World, cmd: ControlCommand)
    ensures Adds(w.audit, AuditFailure(w, cmd.actionId, cmd.actor).audit, [cmd])
  {
    hide Adds;
    var to := if cmd.actionId in w.actions then w.actions[cmd.actionId].state else ActionState.Aborted;
    var e := Event(w.audit, cmd.actionId, None, to, cmd.actor, Failed);
    NamedOne(cmd, e);
    AddsOne(w.audit, e, [cmd]);
  }

  lemma {:induction false} ReleaseAdds(h: Host, w: World, held: seq<Pending>, now: nat)
    ensures Adds(w.audit, ReleaseAll(h, w, held, now).0.audit, Cmds(held))
    decreases |held|
  {
    hide Adds, ReleaseOne;
    if held == [] {
      AddsNothing(w.audit, Cmds(held));
    } else {
      var w1, rest := ReleaseOne(h, w, held[0], now).0, held[1..];
      ReleaseOneAdds(h, w, held[0], now);
      ReleaseAdds(h, w1, rest, now);
      var audit := ReleaseAll(h, w1, rest, now).0.audit;
      AddsMore(w.audit, w1.audit, [held[0].cmd], Cmds(held));
      AddsMore(w1.audit, audit, Cmds(rest), Cmds(held));
      AddsTrans(w.audit, w1.audit, audit, Cmds(held));
    }
  }

  // ----- whole runs -----

  /** Every command frame the agent was given. */
  function Received(events: seq<AgentEvent>): seq<ControlCommand>
    decreases |events|
  {
    if events == [] then []
    else
      Received(events[..|events| - 1]) +
      match events[|events| - 1]
      case Deliver(Command(cmd), _) => [cmd]
      case _ => []
  }

  /** An entry names a received command, and one that passed all gates unless it is a rejection. */
  ghost predicate Accounted(received: seq<ControlCommand>, ledger: seq<ControlCommand>, e: AuditEvent) {
    Named(received, e) && (e.outcome != Outcome.Rejected ==> Named(ledger, e))
  }

  lemma {:induction false} LedgerReceived(p: Policy, events: seq<AgentEvent>, cmd: ControlCommand)
    requires cmd in Ledger(p, events)
    ensures cmd in Received(events)
    decreases |events|
  {
    hide GateOpen;
    var before := events[..|events| - 1];
    if cmd in Ledger(p, before) { LedgerReceived(p, before, cmd); }
  }

  lemma {:induction false} CmdsMembers(held: seq<Pending>, c: ControlCommand)
    requires c in Cmds(held)
    ensures exists e :: e in held && e.cmd == c
  {
    if held[0].cmd == c { assert held[0] in held; } else { CmdsMembers(held[1..], c); }
  }

  lemma HeldInLedger(p: Policy, events: seq<AgentEvent>, c: ControlCommand)
    requires c in Cmds(Run(p, events).pending)
    ensures c in Ledger(p, events) && c in Received(events)
  {
    hide Run, Ledger;
    RunFrom(p, events);
    CmdsMembers(Run(p, events).pending, c);
    LedgerReceived(p, events, c);
  }

  lemma StillAccounted(r: seq<ControlCommand>, r': seq<ControlCommand>, l: seq<ControlCommand>, l': seq<ControlCommand>, e: AuditEvent)
    requires Accounted(r, l, e) && r <= r' && l <= l'
    ensures Accounted(r', l', e)
  {
    hide Named;
    forall c | c in r ensures c in r' { }
    NamedMore(r, r', e);
    if e.outcome != Outcome.Rejected { NamedMore(l, l', e); }
  }

  /**
   In every run every audit entry is in the name of an actor who sent a command on that very
   action, and unless it records a rejection that command was authentic, fresh and permitted.
   */
  lemma {:induction false} EveryEntryAccounted(p: Policy, events: seq<AgentEvent>)
    ensures forall i :: 0 <= i < |Run(p, events).world.audit| ==>
              Accounted(Received(events), Ledger(p, events), Run(p, events).world.audit[i])
    decreases |events|
  {
    hide Accounted, Step, GateOpen;
    if events != [] {
      var before, e := events[..|events| - 1], events[|events| - 1];
      EveryEntryAccounted(p, before);
      StepAccounted(p, before, e);
      var a, audit := Run(p, before), Run(p, events).world.audit;
      forall i | 0 <= i < |audit| ensures Accounted(Received(events), Ledger(p, events), audit[i]) {
        if i < |a.world.audit| {
          StillAccounted(Received(before), Received(events), Ledger(p, before), Ledger(p, events), audit[i]);
        }
      }
    }
  }

  lemma StepAccounted(p: Policy, before: seq<AgentEvent>, e: AgentEvent)
    ensures var a := Run(p, before);
            var audit := Step(p, a, e).world.audit;
            var r := Received(before) + match e case Deliver(Command(cmd), _) => [cmd] case _ => [];
            && a.world.audit <= audit
            && forall i :: |a.world.audit| <= i < |audit| ==> Accounted(r, Ledger(p, before) + Passed(p, a, e), audit[i])
  {
    hide Run, Received, Ledger, ServeCommand, ReleaseAll, Cmds;
    var a := Run(p, before);
    var audit := Step(p, a, e).world.audit;
    forall c | c in Cmds(a.pending) ensures c in Ledger(p, before) && c in Received(before) { HeldInLedger(p, before, c); }
    match e {
      case Deliver(wire, now) =>
        if wire.Command? {
          var all := [wire.cmd] + Cmds(a.pending);
          ServeAdds(p, a, wire.cmd, now);
          var r, l := Received(before) + [wire.cmd], Ledger(p, before) + Passed(p, a, e);
          if !GateOpen(p, a, wire.cmd) { ClosedGateRejects(p, a, wire.cmd, now); }
          forall i | |a.world.audit| <= i < |audit| ensures Accounted(r, l, audit[i]) {
            NamedMore(all, r, audit[i]);
            if GateOpen(p, a, wire.cmd) { NamedMore(all, l, audit[i]); }
          }
        }
      case Release(now) =>
        ReleaseAdds(p.host, a.world, a.pending, now);
        var r, l := Received(before) + [], Ledger(p, before) + Passed(p, a, e);
        forall i | |a.world.audit| <= i < |audit| ensures Accounted(r, l, audit[i]) {
          NamedMore(Cmds(a.pending), r, audit[i]);
          NamedMore(Cmds(a.pending), l, audit[i]);
        }
      case OpenSession(_, _) =>
    }
  }
}
