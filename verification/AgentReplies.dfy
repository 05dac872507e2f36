/**
 What the agent says and writes down: the detail of every answer, and the entries for
 commands that were turned away, called off, missed or dropped.
 */
module AgentReplies {
  import opened Basics
  import opened Remediation
  import opened Control
  import opened AgentLaws
  import opened AgentRuns

  /** The entry of a command turned away. */
  ghost function TurnedAway(number: nat, cmd: ControlCommand): AuditEvent {
    AuditEvent(number, cmd.actionId, None, ActionState.Aborted, cmd.actor, Outcome.Rejected)
  }

  /** Which gate is shut first: signature, then number, then role. */
  ghost function ShutBy(p: Policy, a: Agent, cmd: ControlCommand): Denial {
    if !Authentic(p, cmd) then BadSignature(Label(cmd.kind), cmd.actionId)
    else if !Fresh(a.seen, cmd.session, cmd.number) then Stale(cmd.session, cmd.number, cmd.actionId)
    else NotPermitted(cmd.actor, Label(cmd.kind), cmd.actionId)
  }

  /** A command a gate stops is answered with that gate, leaves one entry and nothing else;
      its number is used up only behind the first two gates. */
  lemma ShutGateAnswered(p: Policy, a: Agent, cmd: ControlCommand, now: nat)
    requires !GateOpen(p, a, cmd)
    ensures var (a', result) := ServeCommand(p, a, cmd, now);
            && result.outcome == CommandOutcome.Rejected && result.stage == None
            && result.detail == DeniedText(ShutBy(p, a, cmd))
            && a'.pending == a.pending
            && a'.world == a.world.(audit := a.world.audit + [TurnedAway(|a.world.audit|, cmd)])
            && a'.seen == (if Authentic(p, cmd) && Fresh(a.seen, cmd.session, cmd.number)
                           then a.seen[cmd.session := cmd.number] else a.seen)
  {
    hide Verifies;
  }

  /** Where a lifecycle command would move its action. */
  ghost function Goal(kind: CommandKind): ActionState {
    match kind
    case Submit => PendingApproval
    case Approve => Approved
    case _ => ActionState.Aborted
  }

  /** Behind the gates a lifecycle command is refused for the state of its action alone, and named so. */
  lemma LifecycleDetail(p: Policy, a: Agent, cmd: ControlCommand, now: nat)
    requires cmd.kind.Submit? || cmd.kind.Approve? || cmd.kind.Reject? || cmd.kind.Abort?
    requires GateOpen(p, a, cmd)
    ensures var result := ServeCommand(p, a, cmd, now).1;
            var id := cmd.actionId;
            result.detail == if result.outcome == Applied then AppliedText
                             else DeniedText(ByBridge(if id !in a.world.actions then NoAction(id)
                                                      else IllegalMove(id, a.world.actions[id].state, Goal(cmd.kind))))
  {
    hide Verifies, AuditCancelled, NotFor;
  }

  /** A draft is refused for a wrong id, a known id or no targets, in this order. */
  lemma DraftDetail(p: Policy, a: Agent, cmd: ControlCommand, now: nat)
    requires cmd.kind.Draft? && GateOpen(p, a, cmd)
    ensures var result := ServeCommand(p, a, cmd, now).1;
            var action := cmd.kind.action;
            result.detail == if result.outcome == Applied then PreviewText
                             else if action.id != cmd.actionId then DeniedText(DraftMismatch(cmd.actionId, action.id))
                             else if action.id in a.world.actions then DeniedText(AlreadyExists(action.id))
                             else DeniedText(ByBridge(NoTargets(action.id)))
  {
    hide Verifies;
  }

  /** An immediate stage is answered with what the stage said. */
  lemma ExecutionDetail(p: Policy, a: Agent, cmd: ControlCommand, now: nat)
    requires IsExecution(cmd.kind) && cmd.schedule.None? && GateOpen(p, a, cmd)
    ensures var result := ServeCommand(p, a, cmd, now).1;
            result.detail == match RunStage(p.host, a.world, cmd.actionId, StageOf(cmd.kind), cmd.actor).1
                             case Done(stage) => StageText(stage)
                             case Refuse(why) => DeniedText(ByBridge(why))
  {
    hide Verifies, RunStage;
  }

  /** A scheduled one with its window, or with the time at which that window was over. */
  lemma ScheduleDetail(p: Policy, a: Agent, cmd: ControlCommand, now: nat)
    requires IsExecution(cmd.kind) && cmd.schedule.Some? && GateOpen(p, a, cmd)
    ensures var (a', result) := ServeCommand(p, a, cmd, now);
            var window := cmd.schedule.value;
            && result.detail == (if now <= window.notAfter then ScheduledText(window)
                                 else DeniedText(Expired(Label(cmd.kind), cmd.actionId, window, now)))
            && a'.world.audit == a.world.audit + if now <= window.notAfter then [] else [TurnedAway(|a.world.audit|, cmd)]
  {
    hide Verifies;
    assert a.world.audit + [] == a.world.audit;
  }

  /** Outside the loop too, a windowed command never runs at once: it is turned away. */
  lemma WindowNeverImmediate(p: Policy, a: Agent, cmd: ControlCommand)
    requires IsExecution(cmd.kind) && cmd.schedule.Some? && GateOpen(p, a, cmd)
    ensures var (a', r) := DispatchExecutionFresh(p, a, cmd);
            && r == Refuse(OnlyInWindow)
            && a'.world == a.world.(audit := a.world.audit + [TurnedAway(|a.world.audit|, cmd)])
  {
    hide Verifies, RunStage;
  }

  /** Nor is a command without a window ever held. */
  lemma NeverHeldWithoutWindow(p: Policy, a: Agent, cmd: ControlCommand, now: nat)
    requires IsExecution(cmd.kind) && cmd.schedule.None? && GateOpen(p, a, cmd)
    ensures var (a', r) := Enqueue(p, a, cmd, now);
            && r == Refuse(NoWindow(Label(cmd.kind), cmd.actionId)) && a'.pending == a.pending
            && a'.world == a.world.(audit := a.world.audit + [TurnedAway(|a.world.audit|, cmd)])
  {
    hide Verifies;
  }

  // ----- held commands -----

  /** The held commands on this action, in order. */
  ghost function OnAction(held: seq<Pending>, id: string): seq<ControlCommand> {
    if held == [] then []
    else (if held[0].cmd.actionId == id then [held[0].cmd] else []) + OnAction(held[1..], id)
  }

  ghost function AllTurnedAway(number: nat, cmds: seq<ControlCommand>): (r: seq<AuditEvent>)
    ensures |r| == |cmds|
  {
    seq(|cmds|, i requires 0 <= i < |cmds| => TurnedAway(number + i, cmds[i]))
  }

  /** Calling off leaves one entry for each command it takes, in order, and changes nothing else. */
  lemma {:induction false} CalledOff(w: World, held: seq<Pending>, id: string)
    ensures AuditCancelled(w, held, id) == w.(audit := w.audit + AllTurnedAway(|w.audit|, OnAction(held, id)))
    decreases |held|
  {
    if held == [] {
      assert w.audit + AllTurnedAway(|w.audit|, []) == w.audit;
    } else {
      var hit, rest := held[0].cmd.actionId == id, OnAction(held[1..], id);
      var w1 := if hit then AuditRejected(w, id, held[0].cmd.actor) else w;
      assert hit ==> w1.audit == w.audit + [TurnedAway(|w.audit|, held[0].cmd)];
      CalledOff(w1, held[1..], id);
      hide AllTurnedAway, TurnedAway;
      if hit {
        OneMoreTurnedAway(w.audit, held[0].cmd, rest);
      } else {
        assert [] + rest == rest;
      }
    }
  }

  lemma OneMoreTurnedAway(audit: seq<AuditEvent>, cmd: ControlCommand, rest: seq<ControlCommand>)
    ensures audit + AllTurnedAway(|audit|, [cmd] + rest) ==
            (audit + [TurnedAway(|audit|, cmd)]) + AllTurnedAway(|audit| + 1, rest)
  {
  }

  lemma {:induction false} OthersHeld(held: seq<Pending>, id: string)
    ensures NotFor(held, id) == Only(held, (x: Pending) => x.cmd.actionId != id)
  {
    if held != [] { OthersHeld(held[1..], id); }
  }

  /** An abort that is applied calls off every held command on its action and leaves the others held, in order. */
  lemma AbortCallsOff(p: Policy, a: Agent, cmd: ControlCommand, now: nat)
    requires cmd.kind.Abort? && GateOpen(p, a, cmd)
    ensures var (a', result) := ServeCommand(p, a, cmd, now);
            result.outcome == Applied ==>
              && cmd.actionId in a.world.actions
              && a'.pending == Only(a.pending, (x: Pending) => x.cmd.actionId != cmd.actionId)
              && var moved := AuditEvent(|a.world.audit|, cmd.actionId, Some(a.world.actions[cmd.actionId].state),
                                         ActionState.Aborted, cmd.actor, Ok);
                 a'.world.audit == a.world.audit + [moved]
                                   + AllTurnedAway(|a.world.audit| + 1, OnAction(a.pending, cmd.actionId))
  {
    hide Verifies, NotFor;
    var w := Remediation.Abort(a.world, cmd.actionId, cmd.actor).0;
    CalledOff(w, a.pending, cmd.actionId);
    OthersHeld(a.pending, cmd.actionId);
    hide AuditCancelled, OnAction, AllTurnedAway;
  }

  /** What a tick writes for one held command, besides what its stage writes. */
  lemma ReleaseWrites(h: Host, w: World, e: Pending, now: nat)
    requires IsExecution(e.cmd.kind)
    ensures var (w', verdict) := ReleaseOne(h, w, e, now);
            var (w1, r) := RunStage(h, w, e.cmd.actionId, StageOf(e.cmd.kind), e.cmd.actor);
            var n := |w1.audit|;
            match verdict
            case Missed => w' == w.(audit := w.audit + [TurnedAway(|w.audit|, e.cmd)])
            case Waiting => w' == w
            case Fired(outcome) => w' == w1 && r == Done(outcome)
            case Dropped => r.Refuse? && w' == w1.(audit := w1.audit + [TurnedAway(n, e.cmd)])
            case RanAndFailed =>
              && r.Refuse? && e.cmd.actionId in w1.actions
              && w' == w1.(audit := w1.audit + [AuditEvent(n, e.cmd.actionId, None, w1.actions[e.cmd.actionId].state,
                                                           e.cmd.actor, Failed)])
  {
    StateChangeNeedsRecord(h, w, e.cmd.actionId, StageOf(e.cmd.kind), e.cmd.actor);
    hide RunStage;
  }
}
