/**
 What one step of the agent may do, whatever the frame. These are the facts from which
 the theorems about whole runs follow.
 */
module AgentLaws {
  import opened Basics
  import opened Remediation
  import opened BridgeLaws
  import opened RevertLaws
  import opened Control

  /** Not yet approved. */
  predicate Unapproved(s: ActionState) {
    s.Drafted? || s.Mapped? || s.DryRun? || s.PendingApproval?
  }

  /** Nothing moves an action out of these. */
  predicate Terminal(s: ActionState) {
    s.Aborted? || s.RolledBack?
  }

  /** Passes authentication, freshness and authorization. */
  predicate GateOpen(p: Policy, a: Agent, cmd: ControlCommand) {
    Authentic(p, cmd) && Fresh(a.seen, cmd.session, cmd.number) && p.permits(cmd.actor, cmd.kind)
  }

  /** The change a command of this kind may make to the record of its action. */
  ghost predicate RecordEdge(before: Record, after: Record, kind: CommandKind) {
    && after.action == before.action
    && (Terminal(before.state) ==> after == before)
    && (!Unapproved(before.state) ==> !Unapproved(after.state))
    && (Unapproved(before.state) && !Unapproved(after.state) ==>
          after.state == ActionState.Aborted || (after.state == Approved && kind == CommandKind.Approve))
  }

  /** Everything a command of this kind on `id` may do to the records and to the hosts. */
  ghost predicate Changes(acts: map<string, Record>, calls: seq<ExecCall>, acts': map<string, Record>,
                          calls': seq<ExecCall>, id: string, kind: CommandKind) {
    && (forall k :: k != id ==> (k in acts' <==> k in acts))
    && (forall k :: k != id && k in acts ==> acts'[k] == acts[k])
    && (id in acts ==> id in acts' && RecordEdge(acts[id], acts'[id], kind))
    && (id !in acts && id in acts' ==>
          kind == CommandKind.Draft(acts'[id].action) && Unapproved(acts'[id].state))
    && calls <= calls'
    && (forall i :: |calls| <= i < |calls'| ==>
          && IsExecution(kind) && id in acts
          && !Unapproved(acts[id].state) && !Terminal(acts[id].state)
          && calls'[i].action == acts[id].action && (calls'[i].Apply? ==> !kind.Rollback?))
  }

  ghost predicate Effect(w: World, w': World, id: string, kind: CommandKind) {
    Changes(w.actions, w.calls, w'.actions, w'.calls, id, kind)
  }

  lemma UntouchedEffect(w: World, w': World, id: string, kind: CommandKind)
    requires w'.actions == w.actions && w'.calls == w.calls
    ensures Effect(w, w', id, kind)
  {
  }

  lemma AuditRejectedSound(w: World, id: string, actor: string)
    requires Sound(w)
    ensures Sound(AuditRejected(w, id, actor))
  {
    hide Sound;
    SoundAudit(w, Event(w.audit, id, None, ActionState.Aborted, actor, Outcome.Rejected));
  }

  lemma TransitionEffect(w: World, id: string, allowed: set<ActionState>, to: ActionState, actor: string, kind: CommandKind)
    requires Sound(w) && to != RollbackIncomplete && RollbackIncomplete !in allowed
    requires forall s :: s in allowed ==> !Terminal(s) && (!to.Aborted? && !to.Approved? ==> Unapproved(s))
    requires to == ActionState.Aborted || (to == Approved && kind == CommandKind.Approve) || Unapproved(to)
    ensures var (w', r) := Transition(w, id, allowed, to, actor);
            && Sound(w') && Effect(w, w', id, kind) && (r.Done? ==> Remediation.StateOf(w', id) == Some(to))
            && (r.Refuse? ==> w'.actions == w.actions) && w'.calls == w.calls
  {
    hide Sound, Transition;
    TransitionKeeps(w, id, allowed, to, actor);
  }

  lemma LifecycleEffect(w: World, cmd: ControlCommand)
    requires Sound(w)
    ensures var (w', r) := DispatchLifecycle(w, cmd);
            && Sound(w') && Effect(w, w', cmd.actionId, cmd.kind) && w'.calls == w.calls
            && (r.Refuse? ==> w'.actions == w.actions)
            && (r.Done? && cmd.kind.Draft? ==>
                  Remediation.StateOf(w', cmd.actionId) == Some(Drafted) && cmd.actionId !in w.actions)
            && (r.Done? && cmd.kind.Abort? ==> Remediation.StateOf(w', cmd.actionId) == Some(ActionState.Aborted))
  {
    hide Sound;
    var id := cmd.actionId;
    match cmd.kind {
      case Draft(action) =>
        if action.id != id || action.id in w.actions {
          AuditRejectedSound(w, id, cmd.actor);
          UntouchedEffect(w, AuditRejected(w, id, cmd.actor), id, cmd.kind);
        } else {
          DraftKeeps(w, action, cmd.actor);
        }
      case Submit => TransitionEffect(w, id, {DryRun}, PendingApproval, cmd.actor, cmd.kind);
      case Approve => TransitionEffect(w, id, {PendingApproval}, Approved, cmd.actor, cmd.kind);
      case Reject(_) => TransitionEffect(w, id, {PendingApproval}, ActionState.Aborted, cmd.actor, cmd.kind);
      case Abort(_) => TransitionEffect(w, id, InFlight, ActionState.Aborted, cmd.actor, cmd.kind);
      case _ => UntouchedEffect(w, w, id, cmd.kind);
    }
  }

  lemma StageEffect(h: Host, w: World, id: string, kind: CommandKind, actor: string)
    requires Sound(w) && IsExecution(kind)
    ensures var (w', r) := RunStage(h, w, id, StageOf(kind), actor);
            Sound(w') && Effect(w, w', id, kind)
  {
    hide Sound, RunStage;
    RunStageKeeps(h, w, id, StageOf(kind), actor);
    var w' := RunStage(h, w, id, StageOf(kind), actor).0;
    if kind.Rollback? { RollbackOnlyReverts(h, w, id, actor); }
    if id in w.actions && w.actions[id].state in EntryStates(StageOf(kind)) {
      assert RecordEdge(w.actions[id], w'.actions[id], kind);
    } else {
      UntouchedEffect(w, w', id, kind);
    }
  }

  /** Everything that happens to one frame carrying a command. */
  ghost predicate ServeLaw(p: Policy, a: Agent, cmd: ControlCommand, a': Agent, result: CommandResult) {
    && Sound(a'.world)
    && Effect(a.world, a'.world, cmd.actionId, cmd.kind)
    && (!GateOpen(p, a, cmd) ==> a'.world.actions == a.world.actions && a'.world.calls == a.world.calls
                                 && a'.pending == a.pending && result.outcome == CommandOutcome.Rejected)
    && a'.seen == (if Authentic(p, cmd) && Fresh(a.seen, cmd.session, cmd.number)
                   then a.seen[cmd.session := cmd.number] else a.seen)
    && result == SignOutcome(p, cmd, result.outcome, result.detail, result.stage)
  }

  lemma DispatchFreshLaw(p: Policy, a: Agent, cmd: ControlCommand)
    requires Sound(a.world)
    ensures var (a', r) := DispatchFresh(p, a, cmd);
            && Sound(a'.world) && Effect(a.world, a'.world, cmd.actionId, cmd.kind)
            && (!GateOpen(p, a, cmd) ==> r.Refuse?)
            && (r.Refuse? ==> a'.world.actions == a.world.actions && a'.world.calls == a.world.calls)
            && a'.pending == a.pending && a'.world.calls == a.world.calls
            && a'.seen == (if Authentic(p, cmd) && Fresh(a.seen, cmd.session, cmd.number)
                           then a.seen[cmd.session := cmd.number] else a.seen)
            && (r.Done? && cmd.kind.Draft? ==>
                  Remediation.StateOf(a'.world, cmd.actionId) == Some(Drafted) && cmd.actionId !in a.world.actions)
            && (r.Done? && cmd.kind.Abort? ==> Remediation.StateOf(a'.world, cmd.actionId) == Some(ActionState.Aborted))
  {
    hide Sound, Effect, DispatchLifecycle;
    AuditRejectedSound(a.world, cmd.actionId, cmd.actor);
    UntouchedEffect(a.world, AuditRejected(a.world, cmd.actionId, cmd.actor), cmd.actionId, cmd.kind);
    LifecycleEffect(a.world, cmd);
  }

  lemma GateExecutionLaw(p: Policy, a: Agent, cmd: ControlCommand)
    requires Sound(a.world)
    ensures var (a', r) := GateExecution(p, a, cmd);
            && Sound(a'.world) && a'.world.actions == a.world.actions && a'.world.calls == a.world.calls
            && a'.pending == a.pending
            && (r.Done? <==> GateOpen(p, a, cmd) && IsExecution(cmd.kind))
            && (r.Done? ==> a'.world == a.world)
            && a'.seen == (if Authentic(p, cmd) && Fresh(a.seen, cmd.session, cmd.number)
                           then a.seen[cmd.session := cmd.number] else a.seen)
  {
    hide Sound;
    AuditRejectedSound(a.world, cmd.actionId, cmd.actor);
  }

  lemma ExecuteFreshLaw(p: Policy, a: Agent, cmd: ControlCommand)
    requires Sound(a.world)
    ensures var (a', result) := ExecuteFresh(p, a, cmd);
            ServeLaw(p, a, cmd, a', result) && a'.pending == a.pending
  {
    hide Sound, Effect, GateExecution, RunStage;
    GateExecutionLaw(p, a, cmd);
    var (a1, gate) := GateExecution(p, a, cmd);
    AuditRejectedSound(a1.world, cmd.actionId, cmd.actor);
    UntouchedEffect(a.world, a1.world, cmd.actionId, cmd.kind);
    UntouchedEffect(a.world, AuditRejected(a1.world, cmd.actionId, cmd.actor), cmd.actionId, cmd.kind);
    if gate.Done? { StageEffect(p.host, a.world, cmd.actionId, cmd.kind, cmd.actor); }
  }

  lemma EnqueueFreshLaw(p: Policy, a: Agent, cmd: ControlCommand, now: nat)
    requires Sound(a.world)
    ensures var (a', result) := EnqueueFresh(p, a, cmd, now);
            && ServeLaw(p, a, cmd, a', result)
            && (result.outcome == Applied ==>
                  && IsExecution(cmd.kind) && cmd.schedule.Some? && now <= cmd.schedule.value.notAfter
                  && a'.pending == a.pending + [Pending(cmd, cmd.schedule.value)])
            && (result.outcome != Applied ==> a'.pending == a.pending)
  {
    hide Sound, Effect, GateExecution;
    GateExecutionLaw(p, a, cmd);
    var (a1, gate) := GateExecution(p, a, cmd);
    AuditRejectedSound(a1.world, cmd.actionId, cmd.actor);
    UntouchedEffect(a.world, a1.world, cmd.actionId, cmd.kind);
    UntouchedEffect(a.world, AuditRejected(a1.world, cmd.actionId, cmd.actor), cmd.actionId, cmd.kind);
  }

  lemma DraftThenDryRun(w: World, w1: World, id: string, kind: CommandKind, actor: string)
    requires Sound(w1) && Effect(w, w1, id, kind) && w1.calls == w.calls
    requires id !in w.actions && Remediation.StateOf(w1, id) == Some(Drafted)
    ensures var (w2, r) := DryRunAction(w1, id, actor);
            Sound(w2) && Effect(w, w2, id, kind) && r.Done?
  {
    hide Sound;
    DryRunActionKeeps(w1, id, actor);
  }

  lemma HandleDraftLaw(p: Policy, a: Agent, cmd: ControlCommand)
    requires Sound(a.world) && cmd.kind.Draft?
    ensures var (a', result) := HandleDraftFresh(p, a, cmd);
            ServeLaw(p, a, cmd, a', result) && a'.pending == a.pending
  {
    hide Sound, Effect, DispatchFresh, DryRunAction;
    DispatchFreshLaw(p, a, cmd);
    var (a1, r) := DispatchFresh(p, a, cmd);
    if r.Done? { DraftThenDryRun(a.world, a1.world, cmd.actionId, cmd.kind, cmd.actor); }
  }

  lemma {:induction false} AuditCancelledSound(w: World, held: seq<Pending>, id: string)
    requires Sound(w)
    ensures var w' := AuditCancelled(w, held, id);
            Sound(w') && w'.actions == w.actions && w'.calls == w.calls
    decreases |held|
  {
    hide Sound;
    if held != [] {
      AuditRejectedSound(w, id, held[0].cmd.actor);
      AuditCancelledSound(if held[0].cmd.actionId == id then AuditRejected(w, id, held[0].cmd.actor) else w, held[1..], id);
    }
  }

  lemma HandleLifecycleLaw(p: Policy, a: Agent, cmd: ControlCommand)
    requires Sound(a.world)
    ensures var (a', result) := HandleLifecycle(p, a, cmd);
            && ServeLaw(p, a, cmd, a', result)
            && (cmd.kind.Abort? && result.outcome == Applied ==>
                  && Remediation.StateOf(a'.world, cmd.actionId) == Some(ActionState.Aborted)
                  && a'.pending == NotFor(a.pending, cmd.actionId))
            && (!(cmd.kind.Abort? && result.outcome == Applied) ==> a'.pending == a.pending)
  {
    hide Sound, DispatchFresh, AuditCancelled;
    DispatchFreshLaw(p, a, cmd);
    var a1 := DispatchFresh(p, a, cmd).0;
    AuditCancelledSound(a1.world, a1.pending, cmd.actionId);
  }

  /**
   Serving any command: exactly one result, signed by the agent and echoing the
   command; without an open gate nothing but the audit trail changes; the replay mark
   moves exactly for authentic, fresh commands; what the command may do to records and
   executor is bounded by its kind.
   */
  lemma ServeCommandLaw(p: Policy, a: Agent, cmd: ControlCommand, now: nat)
    requires Sound(a.world)
    ensures var (a', result) := ServeCommand(p, a, cmd, now); ServeLaw(p, a, cmd, a', result)
  {
    hide Sound, Effect, EnqueueFresh, ExecuteFresh, HandleDraftFresh, HandleLifecycle;
    if IsExecution(cmd.kind) {
      if cmd.schedule.Some? { EnqueueFreshLaw(p, a, cmd, now); } else { ExecuteFreshLaw(p, a, cmd); }
    } else if cmd.kind.Draft? {
      HandleDraftLaw(p, a, cmd);
    } else {
      HandleLifecycleLaw(p, a, cmd);
    }
  }

  // ----- the tick -----

  lemma ReleaseOneLaw(h: Host, w: World, e: Pending, now: nat)
    requires Sound(w)
    ensures var (w', verdict) := ReleaseOne(h, w, e, now);
            && Sound(w') && Effect(w, w', e.cmd.actionId, e.cmd.kind)
            && (w'.calls != w.calls ==> e.schedule.notBefore <= now <= e.schedule.notAfter)
            && (verdict.Missed? <==> now > e.schedule.notAfter)
            && (verdict.Waiting? <==> now <= e.schedule.notAfter && now < e.schedule.notBefore)
  {
    hide Sound, Effect, RunStage;
    var id := e.cmd.actionId;
    AuditRejectedSound(w, id, e.cmd.actor);
    UntouchedEffect(w, AuditRejected(w, id, e.cmd.actor), id, e.cmd.kind);
    UntouchedEffect(w, w, id, e.cmd.kind);
    if IsExecution(e.cmd.kind) {
      StageEffect(h, w, id, e.cmd.kind, e.cmd.actor);
      var (w1, r) := RunStage(h, w, id, StageOf(e.cmd.kind), e.cmd.actor);
      AuditRejectedSound(w1, id, e.cmd.actor);
      AuditOnlyEffect(w, w1, AuditRejected(w1, id, e.cmd.actor), id, e.cmd.kind);
      AuditOnlyEffect(w, w1, AuditFailure(w1, id, e.cmd.actor), id, e.cmd.kind);
      if Remediation.StateOf(w1, id) != Remediation.StateOf(w, id) {
        StateChangeNeedsRecord(h, w, id, StageOf(e.cmd.kind), e.cmd.actor);
        SoundAudit(w1, Event(w1.audit, id, None, w1.actions[id].state, e.cmd.actor, Failed));
      }
    }
  }

  lemma StateChangeNeedsRecord(h: Host, w: World, id: string, stage: Stage, actor: string)
    ensures var w' := RunStage(h, w, id, stage, actor).0;
            Remediation.StateOf(w', id) != Remediation.StateOf(w, id) ==> id in w'.actions
  {
  }

  lemma AuditOnlyEffect(w: World, w1: World, w2: World, id: string, kind: CommandKind)
    requires Effect(w, w1, id, kind) && w2.actions == w1.actions && w2.calls == w1.calls
    ensures Effect(w, w2, id, kind)
  {
    hide Changes;
  }

  /**
   The scheduler records a release that failed as "dropped, never ran" although the
   executor was called exactly when it retries an operator rollback, the action being
   RollbackIncomplete already, and some host still listed does not let go: the state
   comparison cannot see that the stage ran.
   */
  lemma DroppedAlthoughRun(h: Host, w: World, e: Pending, now: nat)
    requires Sound(w) && IsExecution(e.cmd.kind)
    requires e.schedule.notBefore <= now <= e.schedule.notAfter
    ensures var (w', verdict) := ReleaseOne(h, w, e, now);
            var id := e.cmd.actionId;
            verdict == Dropped && w'.calls != w.calls <==>
              && e.cmd.kind == Rollback
              && Remediation.StateOf(w, id) == Some(RollbackIncomplete)
              && SomeRevertFails(h, w.calls, w.actions[id].action, ToRevert(w.actions[id]))
  {
    hide Sound, SomeRevertFails, RollbackJob;
    var id := e.cmd.actionId;
    RunStageKeeps(h, w, id, StageOf(e.cmd.kind), e.cmd.actor);
    if e.cmd.kind == Rollback && Remediation.StateOf(w, id) == Some(RollbackIncomplete) {
      RollbackRefusesExactly(h, Open(w, id), e.cmd.actor);
    }
  }
}
