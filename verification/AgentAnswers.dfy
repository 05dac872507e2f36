/**
 What the agent answers to a command that passes its gates, and which numbers it takes for
 new: exactly, in every state a run can reach.
 */
module AgentAnswers {
  import opened Basics
  import opened Remediation
  import opened BridgeLaws
  import opened RevertLaws
  import opened Control
  import opened AgentLaws
  import opened AgentRuns

  // ----- lifecycle commands -----

  /** When a lifecycle command on this action is granted, and where it leaves the action. */
  ghost predicate Granted(state: Option<ActionState>, kind: CommandKind, to: ActionState) {
    match kind
    case Submit => state == Some(DryRun) && to == PendingApproval
    case Approve => state == Some(PendingApproval) && to == Approved
    case Reject(_) => state == Some(PendingApproval) && to == ActionState.Aborted
    case Abort(_) =>
      && state.Some? && !Unapproved(state.value) && !Terminal(state.value)
      && state.value != Closed && state.value != RollbackIncomplete && to == ActionState.Aborted
    case _ => false
  }

  /** A guarded move happens exactly from an allowed state, and writes one entry from where to where. */
  lemma TransitionExactly(w: World, id: string, allowed: set<ActionState>, to: ActionState, actor: string)
    ensures var (w', r) := Transition(w, id, allowed, to, actor);
            && (r.Done? <==> id in w.actions && w.actions[id].state in allowed)
            && (r.Done? ==> Remediation.StateOf(w', id) == Some(to))
            && (r.Refuse? ==>
                  && Remediation.StateOf(w', id) == Remediation.StateOf(w, id)
                  && r.why == if id in w.actions then IllegalMove(id, w.actions[id].state, to) else NoAction(id))
            && w'.audit == w.audit + if id !in w.actions then []
                                     else [AuditEvent(|w.audit|, id, Some(w.actions[id].state), to, actor,
                                                      if r.Done? then Ok else Outcome.Rejected)]
  {
    assert w.audit + [] == w.audit;
  }

  lemma LifecycleExactly(w: World, cmd: ControlCommand)
    requires cmd.kind.Submit? || cmd.kind.Approve? || cmd.kind.Reject? || cmd.kind.Abort?
    ensures var (w', r) := DispatchLifecycle(w, cmd);
            var state := Remediation.StateOf(w, cmd.actionId);
            && (r.Done? <==> exists to :: Granted(state, cmd.kind, to))
            && (forall to :: Granted(state, cmd.kind, to) ==> Remediation.StateOf(w', cmd.actionId) == Some(to))
            && (r.Refuse? ==> Remediation.StateOf(w', cmd.actionId) == state)
  {
    hide Transition;
    var id := cmd.actionId;
    var state := Remediation.StateOf(w, id);
    match cmd.kind {
      case Submit =>
        TransitionExactly(w, id, {DryRun}, PendingApproval, cmd.actor);
        assert DispatchLifecycle(w, cmd).0 == Transition(w, id, {DryRun}, PendingApproval, cmd.actor).0;
        assert Granted(state, cmd.kind, PendingApproval) <==> state == Some(DryRun);
      case Approve =>
        TransitionExactly(w, id, {PendingApproval}, Approved, cmd.actor);
        assert DispatchLifecycle(w, cmd).0 == Transition(w, id, {PendingApproval}, Approved, cmd.actor).0;
        assert Granted(state, cmd.kind, Approved) <==> state == Some(PendingApproval);
      case Reject(_) =>
        TransitionExactly(w, id, {PendingApproval}, ActionState.Aborted, cmd.actor);
        assert DispatchLifecycle(w, cmd).0 == Transition(w, id, {PendingApproval}, ActionState.Aborted, cmd.actor).0;
        assert Granted(state, cmd.kind, ActionState.Aborted) <==> state == Some(PendingApproval);
      case Abort(_) =>
        TransitionExactly(w, id, InFlight, ActionState.Aborted, cmd.actor);
        assert DispatchLifecycle(w, cmd).0 == Transition(w, id, InFlight, ActionState.Aborted, cmd.actor).0;
        AbortableStates();
        assert Granted(state, cmd.kind, ActionState.Aborted) <==> state.Some? && state.value in InFlight;
    }
  }

  lemma AbortableStates()
    ensures forall s: ActionState :: s in InFlight <==>
              !Unapproved(s) && !Terminal(s) && s != Closed && s != RollbackIncomplete
  {
  }

  lemma HandledExactly(p: Policy, a: Agent, cmd: ControlCommand)
    requires GateOpen(p, a, cmd)
    ensures var (w, r) := DispatchLifecycle(a.world, cmd);
            var (a', result) := HandleLifecycle(p, a, cmd);
            && (result.outcome == Applied <==> r.Done?)
            && a'.world.actions == w.actions
  {
    hide DispatchLifecycle;
    var w := DispatchLifecycle(a.world, cmd).0;
    CancelKeepsActions(w, a.pending, cmd.actionId);
  }

  lemma {:induction false} CancelKeepsActions(w: World, held: seq<Pending>, id: string)
    ensures AuditCancelled(w, held, id).actions == w.actions
    decreases |held|
  {
    if held != [] {
      CancelKeepsActions(if held[0].cmd.actionId == id then AuditRejected(w, id, held[0].cmd.actor) else w, held[1..], id);
    }
  }

  /**
   In every state of a run, a Submit, Approve, Reject or Abort that passes the gates is
   answered Applied exactly where it is granted, and then moves its action there; else the
   action stays where it is. An Abort is granted from every approved state short of the end:
   not Closed, not RollbackIncomplete, not Aborted, not RolledBack.
   */
  lemma LifecycleAnswered(p: Policy, events: seq<AgentEvent>, cmd: ControlCommand, now: nat)
    requires cmd.kind.Submit? || cmd.kind.Approve? || cmd.kind.Reject? || cmd.kind.Abort?
    requires GateOpen(p, Run(p, events), cmd)
    ensures var a := Run(p, events);
            var (a', result) := ServeCommand(p, a, cmd, now);
            var state := Remediation.StateOf(a.world, cmd.actionId);
            && (result.outcome == Applied <==> exists to :: Granted(state, cmd.kind, to))
            && (forall to :: Granted(state, cmd.kind, to) ==> Remediation.StateOf(a'.world, cmd.actionId) == Some(to))
            && (result.outcome != Applied ==> Remediation.StateOf(a'.world, cmd.actionId) == state)
  {
    hide Run, DispatchLifecycle, HandleLifecycle, GateOpen, Granted;
    var a := Run(p, events);
    LifecycleExactly(a.world, cmd);
    HandledExactly(p, a, cmd);
    assert ServeCommand(p, a, cmd, now) == HandleLifecycle(p, a, cmd);
    var w := DispatchLifecycle(a.world, cmd).0;
    assert Remediation.StateOf(HandleLifecycle(p, a, cmd).0.world, cmd.actionId) == Remediation.StateOf(w, cmd.actionId);
  }

  /** The kill switch reaches every action for which a stage would still apply something. */
  lemma AbortStopsEveryApply(h: Host, w: World, id: string, stage: Stage, actor: string, stopper: string)
    requires Sound(w)
    requires var w' := RunStage(h, w, id, stage, actor).0; exists i :: |w.calls| <= i < |w'.calls| && w'.calls[i].Apply?
    ensures Remediation.Abort(w, id, stopper).1.Done?
  {
    hide Sound, RunStage, Transition;
    RunStageKeeps(h, w, id, stage, actor);
    if stage == RollbackStage { RollbackOnlyReverts(h, w, id, actor); }
    AbortableStates();
    TransitionExactly(w, id, InFlight, ActionState.Aborted, stopper);
  }

  /**
   A Draft that passes the gates is answered Applied exactly when it drafts the action it
   names, that id is new and there are targets; then the action is stored, dry-run already.
   */
  lemma DraftAnswered(p: Policy, events: seq<AgentEvent>, cmd: ControlCommand, now: nat)
    requires cmd.kind.Draft? && GateOpen(p, Run(p, events), cmd)
    ensures var a := Run(p, events);
            var (a', result) := ServeCommand(p, a, cmd, now);
            var action := cmd.kind.action;
            && (result.outcome == Applied <==>
                  action.id == cmd.actionId && action.id !in a.world.actions && action.targets != [])
            && a'.world.actions == (if result.outcome == Applied
                                    then a.world.actions[action.id := Record(action, DryRun, [])] else a.world.actions)
  {
    hide Run;
    var a, action := Run(p, events), cmd.kind.action;
    if action.id == cmd.actionId && action.id !in a.world.actions && action.targets != [] {
      var w := Remediation.Draft(a.world, action, cmd.actor).0;
      assert w.actions[action.id].state == Drafted;
      var drafted, done := Record(action, Drafted, []), Record(action, DryRun, []);
      assert a.world.actions[action.id := drafted][action.id := done] == a.world.actions[action.id := done];
    }
  }

  // ----- execution commands -----

  /** From which state a stage is let run, and that no host keeps a rollback from finishing. */
  ghost predicate StageGranted(h: Host, w: World, id: string, kind: CommandKind) {
    && id in w.actions
    && var rec := w.actions[id];
       match kind
       case Canary => rec.state == Approved
       case Rollout => rec.state == ActionState.Rollout
       case Rollback =>
         && (rec.state == Closed || rec.state == Verify || rec.state == ActionState.Rollout || rec.state == RollbackIncomplete)
         && !SomeRevertFails(h, w.calls, rec.action, if rec.applied != [] then rec.applied else rec.action.targets)
       case _ => false
  }

  lemma StageExactly(h: Host, w: World, id: string, kind: CommandKind, actor: string)
    requires Sound(w) && IsExecution(kind)
    ensures RunStage(h, w, id, StageOf(kind), actor).1.Done? <==> StageGranted(h, w, id, kind)
  {
    hide Sound, JobSound, RollbackJob, CanaryJob, RolloutJob, SomeRevertFails;
    if id in w.actions {
      SoundOpen(w, id);
      var j := Open(w, id);
      match kind {
        case Canary =>
          CanaryKeeps(h, j, actor);
          assert RunStage(h, w, id, CanaryStage, actor).1 == CanaryJob(h, j, actor).1;
        case Rollout =>
          RolloutKeeps(h, j, actor);
          assert RunStage(h, w, id, RolloutStage, actor).1 == RolloutJob(h, j, actor).1;
        case Rollback =>
          RollbackExactly(h, j, actor);
          assert RunStage(h, w, id, RollbackStage, actor).1 == RollbackJob(h, j, actor).1;
      }
    }
  }

  lemma RollbackExactly(h: Host, j: Job, actor: string)
    requires JobSound(j)
    ensures var s := j.rec.state;
            RollbackJob(h, j, actor).1.Done? <==>
              && (s == Closed || s == Verify || s == ActionState.Rollout || s == RollbackIncomplete)
              && !SomeRevertFails(h, j.calls, j.rec.action, if j.rec.applied != [] then j.rec.applied else j.rec.action.targets)
  {
    hide JobSound, RollbackJob, SomeRevertFails, Continues, Live;
    RollbackKeeps(h, j, actor);
    if j.rec.state in Revertible { RollbackRefusesExactly(h, j, actor); }
  }

  /**
   An unscheduled stage command that passes the gates is answered Applied exactly when its
   stage is granted, and carries the outcome of the stage.
   */
  lemma ExecutionAnswered(p: Policy, events: seq<AgentEvent>, cmd: ControlCommand, now: nat)
    requires IsExecution(cmd.kind) && cmd.schedule.None? && GateOpen(p, Run(p, events), cmd)
    ensures var a := Run(p, events);
            var result := ServeCommand(p, a, cmd, now).1;
            && (result.outcome == Applied <==> StageGranted(p.host, a.world, cmd.actionId, cmd.kind))
            && (result.outcome == Applied ==>
                  && result.stage.Some?
                  && RunStage(p.host, a.world, cmd.actionId, StageOf(cmd.kind), cmd.actor).1 == Done(result.stage.value))
            && (result.outcome != Applied ==> result.stage == None)
  {
    hide Run, Sound, RunStage, StageGranted, GateExecution, GateOpen;
    var a := Run(p, events);
    RunSound(p, events);
    GateExecutionLaw(p, a, cmd);
    StageExactly(p.host, a.world, cmd.actionId, cmd.kind, cmd.actor);
    assert ServeCommand(p, a, cmd, now) == ExecuteFresh(p, a, cmd);
  }

  /** A scheduled one is answered Applied, and held, exactly while its window has not passed. */
  lemma ScheduleAnswered(p: Policy, events: seq<AgentEvent>, cmd: ControlCommand, now: nat)
    requires IsExecution(cmd.kind) && cmd.schedule.Some? && GateOpen(p, Run(p, events), cmd)
    ensures var a := Run(p, events);
            var (a', result) := ServeCommand(p, a, cmd, now);
            && (result.outcome == Applied <==> now <= cmd.schedule.value.notAfter)
            && a'.pending == a.pending + (if now <= cmd.schedule.value.notAfter then [Pending(cmd, cmd.schedule.value)] else [])
            && a'.world.actions == a.world.actions && a'.world.calls == a.world.calls
  {
    hide Run, Sound, GateExecution, GateOpen;
    var a := Run(p, events);
    RunSound(p, events);
    GateExecutionLaw(p, a, cmd);
    assert ServeCommand(p, a, cmd, now) == EnqueueFresh(p, a, cmd, now);
    assert a.pending + [] == a.pending;
  }

  // ----- which numbers are new -----

  ghost predicate Opens(e: AgentEvent, session: string) { e.OpenSession? && e.session == session }

  /** The `u`-th event was an authentic frame of this session that was taken for new. */
  ghost predicate Taken(p: Policy, events: seq<AgentEvent>, u: nat, session: string) {
    && u < |events| && events[u].Deliver? && events[u].wire.Command?
    && Admits(p, Run(p, events[..u]), events[u], session, events[u].wire.cmd.number)
  }

  /** The session was last opened at event `t`, below this number, and every number taken since is lower. */
  ghost predicate NewSince(p: Policy, events: seq<AgentEvent>, session: string, number: nat, t: nat) {
    && t < |events| && Opens(events[t], session) && events[t].from < number
    && (forall u :: t < u < |events| ==> !Opens(events[u], session))
    && (forall u :: t < u < |events| && Taken(p, events, u, session) ==> events[u].wire.cmd.number < number)
  }

  lemma TakenBefore(p: Policy, events: seq<AgentEvent>, u: nat, session: string)
    requires u + 1 < |events|
    ensures Taken(p, events[..|events| - 1], u, session) <==> Taken(p, events, u, session)
  {
    hide Run, Admits;
    assert events[..|events| - 1][..u] == events[..u];
  }

  lemma NewSinceStep(p: Policy, events: seq<AgentEvent>, session: string, number: nat, t: nat)
    requires t + 1 < |events|
    ensures var before, last := events[..|events| - 1], |events| - 1;
            NewSince(p, events, session, number, t) <==>
              && NewSince(p, before, session, number, t) && !Opens(events[last], session)
              && (Taken(p, events, last, session) ==> events[last].wire.cmd.number < number)
  {
    hide Run, Admits, Taken, Opens;
    var before := events[..|events| - 1];
    forall u: nat | u < |before| ensures (Taken(p, before, u, session) <==> Taken(p, events, u, session)) && before[u] == events[u] {
      TakenBefore(p, events, u, session);
    }
  }

  /**
   In every run a number is new to the agent exactly when its session was opened, the last
   time below it, and every authentic frame taken since carried a lower one.
   */
  lemma {:induction false} NewExactly(p: Policy, events: seq<AgentEvent>, session: string, number: nat)
    ensures Fresh(Run(p, events).seen, session, number) <==> exists t: nat :: NewSince(p, events, session, number, t)
    decreases |events|
  {
    hide Sound, Step, NewSince;
    if events == [] {
      forall t: nat ensures !NewSince(p, events, session, number, t) { NothingNew(p, session, number, t); }
    } else {
      var before, e, last := events[..|events| - 1], events[|events| - 1], |events| - 1;
      NewExactly(p, before, session, number);
      RunSound(p, before);
      SeenStep(p, Run(p, before), e, session, number);
      forall t: nat | t < last
        ensures NewSince(p, events, session, number, t) <==>
                && NewSince(p, before, session, number, t) && !Opens(e, session)
                && (Taken(p, events, last, session) ==> e.wire.cmd.number < number)
      {
        NewSinceStep(p, events, session, number, t);
      }
      NewSinceLast(p, events, session, number);
      forall t: nat | NewSince(p, before, session, number, t) ensures t < last { NewSinceInside(p, before, session, number, t); }
      assert events[..last] == before;
    }
  }

  lemma NothingNew(p: Policy, session: string, number: nat, t: nat)
    ensures !NewSince(p, [], session, number, t)
  {
  }

  lemma NewSinceLast(p: Policy, events: seq<AgentEvent>, session: string, number: nat)
    requires events != []
    ensures var last := |events| - 1;
            NewSince(p, events, session, number, last) <==> Opens(events[last], session) && events[last].from < number
    ensures forall t: nat :: t >= |events| ==> !NewSince(p, events, session, number, t)
  {
  }

  lemma NewSinceInside(p: Policy, events: seq<AgentEvent>, session: string, number: nat, t: nat)
    requires NewSince(p, events, session, number, t)
    ensures t < |events|
  {
  }

  /** How one event changes which numbers are new. */
  lemma SeenStep(p: Policy, a: Agent, e: AgentEvent, session: string, number: nat)
    requires Sound(a.world)
    ensures Fresh(Step(p, a, e).seen, session, number) <==>
            if Opens(e, session) then e.from < number
            else && Fresh(a.seen, session, number)
                 && (e.Deliver? && e.wire.Command? && Admits(p, a, e, session, e.wire.cmd.number) ==> e.wire.cmd.number < number)
  {
    hide Sound, Effect, ServeCommand, ReleaseAll;
    if e.Deliver? && e.wire.Command? { ServeCommandLaw(p, a, e.wire.cmd, e.now); }
  }
}
