/**
 Theorems about every run of the agent: any sequence of frames (genuine, forged,
 replayed, malformed), clock ticks and session openings.
 */
module AgentRuns {
  import opened Basics
  import opened Remediation
  import opened BridgeLaws
  import opened Control
  import opened AgentLaws

  // ----- the invariant over runs -----

  lemma {:induction false} ReleaseAllSound(h: Host, w: World, held: seq<Pending>, now: nat)
    requires Sound(w)
    ensures Sound(ReleaseAll(h, w, held, now).0)
    decreases |held|
  {
    hide Sound, ReleaseOne;
    if held != [] {
      ReleaseOneLaw(h, w, held[0], now);
      ReleaseAllSound(h, ReleaseOne(h, w, held[0], now).0, held[1..], now);
    }
  }

  lemma StepSound(p: Policy, a: Agent, e: AgentEvent)
    requires Sound(a.world)
    ensures Sound(Step(p, a, e).world)
  {
    hide Sound, ServeCommand, ReleaseAll;
    match e {
      case Deliver(wire, now) => if wire.Command? { ServeCommandLaw(p, a, wire.cmd, now); }
      case Release(now) => ReleaseAllSound(p.host, a.world, a.pending, now);
      case OpenSession(_, _) =>
    }
  }

  lemma NewAgentSound()
    ensures Sound(NewAgent.world)
  {
  }

  lemma {:induction false} RunSound(p: Policy, events: seq<AgentEvent>)
    ensures Sound(Run(p, events).world)
    decreases |events|
  {
    hide Sound, Step;
    if events == [] {
      NewAgentSound();
    } else {
      RunSound(p, events[..|events| - 1]);
      StepSound(p, Run(p, events[..|events| - 1]), events[|events| - 1]);
    }
  }

  /** In every reachable state the audit trail is gap-free and, replayed, gives the state of
      every action; every executor call ran a recorded action body on a target it names. */
  lemma AuditTrailDeterminesState(p: Policy, events: seq<AgentEvent>)
    ensures var w := Run(p, events).world;
            && (forall id :: ReplayedState(w.audit, id) == StateOf(w, id))
            && (forall i :: 0 <= i < |w.audit| ==> w.audit[i].number == i)
            && (forall i :: 0 <= i < |w.calls| ==> CallSound(w, w.calls[i]))
  {
    RunSound(p, events);
  }

  /** In every reachable state the hosts that carry a change, as the executor saw it, are
      listed as applied, and exactly those unless an operator rollback is incomplete. */
  lemma AppliedMatchesExecutor(p: Policy, events: seq<AgentEvent>, id: string)
    requires id in Run(p, events).world.actions
    ensures var w := Run(p, events).world; AppliedSound(w.actions[id], Live(w.calls, id))
  {
    RunSound(p, events);
  }

  lemma {:induction false} RunConcat(p: Policy, events: seq<AgentEvent>, e: AgentEvent)
    ensures Run(p, events + [e]) == Step(p, Run(p, events), e)
  {
    assert (events + [e])[..|events|] == events;
  }

  // ----- answering frames -----

  /**
   In every reachable state a decodable command gets exactly one result, made with the
   agent's key over the echoed identity; anything else gets none and changes nothing;
   a command that is forged, stale or not permitted is answered Rejected and leaves
   actions, executor and scheduled commands alone.
   */
  lemma FrameAnswered(p: Policy, events: seq<AgentEvent>, wire: Wire, now: nat)
    ensures var a := Run(p, events);
            var (a', answer) := ServeOne(p, a, wire, now);
            && (answer.Some? <==> wire.Command?)
            && (!wire.Command? ==> a' == a)
            && (wire.Command? ==>
                  var r := answer.value;
                  && r.actionId == wire.cmd.actionId && r.session == wire.cmd.session && r.number == wire.cmd.number
                  && r.agent == p.agentName && r.signature == Signed(p.agentKey, r.Unsigned())
                  && (!GateOpen(p, a, wire.cmd) ==>
                        && r.outcome == CommandOutcome.Rejected && a'.world.actions == a.world.actions
                        && a'.world.calls == a.world.calls && a'.pending == a.pending))
  {
    hide Sound, Effect, ServeCommand;
    if wire.Command? {
      RunSound(p, events);
      ServeCommandLaw(p, Run(p, events), wire.cmd, now);
    }
  }

  // ----- at most once per opened session -----

  ghost predicate Admits(p: Policy, a: Agent, e: AgentEvent, session: string, number: nat) {
    && e.Deliver? && e.wire.Command?
    && e.wire.cmd.session == session && e.wire.cmd.number == number
    && Authentic(p, e.wire.cmd) && Fresh(a.seen, session, number)
  }

  /** How often a frame with this session and number passed authentication and freshness. */
  ghost function Admissions(p: Policy, events: seq<AgentEvent>, session: string, number: nat): nat
    decreases |events|
  {
    if events == [] then 0
    else
      var before := events[..|events| - 1];
      Admissions(p, before, session, number) +
      if Admits(p, Run(p, before), events[|events| - 1], session, number) then 1 else 0
  }

  /** How often the session was opened below this number. */
  ghost function Openings(events: seq<AgentEvent>, session: string, number: nat): nat
    decreases |events|
  {
    if events == [] then 0
    else
      var e := events[|events| - 1];
      Openings(events[..|events| - 1], session, number) +
      if e.OpenSession? && e.session == session && e.from < number then 1 else 0
  }

  lemma SeenAfterStep(p: Policy, a: Agent, e: AgentEvent, session: string, number: nat)
    requires Sound(a.world)
    ensures var a' := Step(p, a, e);
            && (Admits(p, a, e, session, number) ==> Fresh(a.seen, session, number) && !Fresh(a'.seen, session, number))
            && (Fresh(a'.seen, session, number) && !Fresh(a.seen, session, number) ==>
                  e.OpenSession? && e.session == session && e.from < number)
  {
    hide Sound, Effect, ServeCommand;
    if e.Deliver? && e.wire.Command? { ServeCommandLaw(p, a, e.wire.cmd, e.now); }
  }

  /** A session and number is admitted at most as often as its session was opened below
      that number, and once less while it is still admissible. */
  lemma {:induction false} AdmittedAtMostOncePerOpening(p: Policy, events: seq<AgentEvent>, session: string, number: nat)
    ensures Admissions(p, events, session, number) + (if Fresh(Run(p, events).seen, session, number) then 1 else 0)
            <= Openings(events, session, number)
    decreases |events|
  {
    hide Sound, Step, Admits;
    if events != [] {
      var before := events[..|events| - 1];
      AdmittedAtMostOncePerOpening(p, before, session, number);
      RunSound(p, before);
      SeenAfterStep(p, Run(p, before), events[|events| - 1], session, number);
    }
  }

  // ----- the kill switch and other final states -----

  /** New executor calls are not about `id`, and its record is untouched. */
  ghost predicate LeavesAlone(w: World, w': World, id: string) {
    && id in w.actions && id in w'.actions && w'.actions[id] == w.actions[id]
    && w.calls <= w'.calls
    && (forall i :: |w.calls| <= i < |w'.calls| ==> w'.calls[i].action.id != id)
  }

  lemma LeavesAloneTrans(w0: World, w1: World, w2: World, id: string)
    requires LeavesAlone(w0, w1, id) && LeavesAlone(w1, w2, id)
    ensures LeavesAlone(w0, w2, id)
  {
    forall i | |w0.calls| <= i < |w2.calls| ensures w2.calls[i].action.id != id {
      if i < |w1.calls| { assert w2.calls[i] == w1.calls[i]; }
    }
  }

  lemma EffectLeavesTerminal(w: World, w': World, on: string, kind: CommandKind, id: string)
    requires Sound(w) && Effect(w, w', on, kind)
    requires id in w.actions && Terminal(w.actions[id].state)
    ensures LeavesAlone(w, w', id)
  {
    forall i | |w.calls| <= i < |w'.calls| ensures w'.calls[i].action.id != id {
      var c := w'.calls[i];
      assert on in w.actions && c.action == w.actions[on].action;
      assert Scoped(Open(w, on));
    }
  }

  lemma {:induction false} ReleaseLeavesTerminal(h: Host, w: World, held: seq<Pending>, now: nat, id: string)
    requires Sound(w) && id in w.actions && Terminal(w.actions[id].state)
    ensures LeavesAlone(w, ReleaseAll(h, w, held, now).0, id)
    decreases |held|
  {
    hide Sound, ReleaseOne, Effect;
    if held != [] {
      var w1 := ReleaseOne(h, w, held[0], now).0;
      ReleaseOneLaw(h, w, held[0], now);
      EffectLeavesTerminal(w, w1, held[0].cmd.actionId, held[0].cmd.kind, id);
      ReleaseLeavesTerminal(h, w1, held[1..], now, id);
      LeavesAloneTrans(w, w1, ReleaseAll(h, w1, held[1..], now).0, id);
    }
  }

  lemma StepLeavesTerminal(p: Policy, a: Agent, e: AgentEvent, id: string)
    requires Sound(a.world) && id in a.world.actions && Terminal(a.world.actions[id].state)
    ensures LeavesAlone(a.world, Step(p, a, e).world, id)
  {
    hide Sound, Effect, ServeCommand, ReleaseAll;
    match e {
      case Deliver(wire, now) =>
        if wire.Command? {
          ServeCommandLaw(p, a, wire.cmd, now);
          EffectLeavesTerminal(a.world, ServeCommand(p, a, wire.cmd, now).0.world, wire.cmd.actionId, wire.cmd.kind, id);
        }
      case Release(now) => ReleaseLeavesTerminal(p.host, a.world, a.pending, now, id);
      case OpenSession(_, _) =>
    }
  }

  /** Once an action is aborted or rolled back, no continuation of the run changes its
      record or makes the executor touch a host on its behalf again. */
  lemma {:induction false} TerminalForever(p: Policy, events: seq<AgentEvent>, more: seq<AgentEvent>, id: string)
    requires id in Run(p, events).world.actions && Terminal(Run(p, events).world.actions[id].state)
    ensures LeavesAlone(Run(p, events).world, Run(p, events + more).world, id)
    decreases |more|
  {
    hide Sound, Step;
    if more == [] {
      assert events + more == events;
    } else {
      var most := more[..|more| - 1];
      TerminalForever(p, events, most, id);
      var a := Run(p, events + most);
      RunSound(p, events + most);
      StepLeavesTerminal(p, a, more[|more| - 1], id);
      assert events + more == (events + most) + [more[|more| - 1]];
      RunConcat(p, events + most, more[|more| - 1]);
      LeavesAloneTrans(Run(p, events).world, a.world, Run(p, events + more).world, id);
    }
  }

  /** An Abort answered Applied drops every scheduled command for its action, and from then on the
      executor never touches a host for that action, whatever frames and ticks follow. */
  lemma KillSwitchHolds(p: Policy, events: seq<AgentEvent>, cmd: ControlCommand, now: nat, more: seq<AgentEvent>)
    requires cmd.kind.Abort?
    requires ServeCommand(p, Run(p, events), cmd, now).1.outcome == Applied
    ensures var at := events + [Deliver(Command(cmd), now)];
            && (forall e :: e in Run(p, at).pending ==> e.cmd.actionId != cmd.actionId)
            && StateOf(Run(p, at + more).world, cmd.actionId) == Some(ActionState.Aborted)
            && LeavesAlone(Run(p, at).world, Run(p, at + more).world, cmd.actionId)
  {
    hide Sound, Effect, ServeLaw, Step, HandleLifecycle;
    var a := Run(p, events);
    RunSound(p, events);
    HandleLifecycleLaw(p, a, cmd);
    var at := events + [Deliver(Command(cmd), now)];
    RunConcat(p, events, Deliver(Command(cmd), now));
    ServedStep(p, a, cmd, now);
    TerminalForever(p, at, more, cmd.actionId);
  }

  lemma ServedStep(p: Policy, a: Agent, cmd: ControlCommand, now: nat)
    ensures Step(p, a, Deliver(Command(cmd), now)) == ServeCommand(p, a, cmd, now).0
  {
  }

  // ----- what the executor runs was signed, previewed and approved -----

  /** The command an event pushed through all three gates, if any. */
  function Passed(p: Policy, a: Agent, e: AgentEvent): seq<ControlCommand> {
    if e.Deliver? && e.wire.Command? && GateOpen(p, a, e.wire.cmd) then [e.wire.cmd] else []
  }

  /** Every command that was authentic, fresh and permitted, in order of arrival. */
  function Ledger(p: Policy, events: seq<AgentEvent>): seq<ControlCommand>
    decreases |events|
  {
    if events == [] then []
    else
      var before := events[..|events| - 1];
      Ledger(p, before) + Passed(p, Run(p, before), events[|events| - 1])
  }

  ghost predicate DraftedIn(ledger: seq<ControlCommand>, action: Action) {
    exists i :: 0 <= i < |ledger| && ledger[i].kind == CommandKind.Draft(action)
  }

  ghost predicate ApprovedAt(ledger: seq<ControlCommand>, action: Action, i: nat, j: nat) {
    && i < j < |ledger|
    && ledger[i].kind == CommandKind.Draft(action)
    && ledger[j].kind == CommandKind.Approve && ledger[j].actionId == action.id
  }

  /** The exact action body was drafted and, later, approved. */
  ghost predicate ApprovedIn(ledger: seq<ControlCommand>, action: Action) {
    exists i, j :: ApprovedAt(ledger, action, i, j)
  }

  /** A command that may make this call: it orders a stage of that action, and only a canary
      or a rollout applies anything. */
  ghost predicate Orders(cmd: ControlCommand, c: ExecCall) {
    IsExecution(cmd.kind) && cmd.actionId == c.action.id && (c.Apply? ==> !cmd.kind.Rollback?)
  }

  ghost predicate OrderedIn(ledger: seq<ControlCommand>, c: ExecCall) {
    exists k :: 0 <= k < |ledger| && Orders(ledger[k], c)
  }

  ghost predicate RecordFrom(ledger: seq<ControlCommand>, rec: Record) {
    && DraftedIn(ledger, rec.action)
    && (!Unapproved(rec.state) && !rec.state.Aborted? ==> ApprovedIn(ledger, rec.action))
  }

  ghost predicate CallFrom(ledger: seq<ControlCommand>, c: ExecCall) {
    ApprovedIn(ledger, c.action) && OrderedIn(ledger, c)
  }

  ghost predicate WorldFrom(ledger: seq<ControlCommand>, w: World) {
    && (forall k :: k in w.actions ==> RecordFrom(ledger, w.actions[k]))
    && (forall i :: 0 <= i < |w.calls| ==> CallFrom(ledger, w.calls[i]))
  }

  ghost predicate HeldFrom(ledger: seq<ControlCommand>, held: seq<Pending>) {
    forall e :: e in held ==> e.cmd in ledger && IsExecution(e.cmd.kind) && e.cmd.schedule == Some(e.schedule)
  }

  lemma ApprovedGrows(short: seq<ControlCommand>, long: seq<ControlCommand>, action: Action)
    requires short <= long && ApprovedIn(short, action)
    ensures ApprovedIn(long, action)
  {
    var i, j :| ApprovedAt(short, action, i, j);
    assert ApprovedAt(long, action, i, j);
  }

  lemma RecordGrows(short: seq<ControlCommand>, long: seq<ControlCommand>, rec: Record)
    requires short <= long && RecordFrom(short, rec)
    ensures RecordFrom(long, rec)
  {
    var i :| 0 <= i < |short| && short[i].kind == CommandKind.Draft(rec.action);
    assert long[i].kind == CommandKind.Draft(rec.action);
    if !Unapproved(rec.state) && !rec.state.Aborted? { ApprovedGrows(short, long, rec.action); }
  }

  lemma CallGrows(short: seq<ControlCommand>, long: seq<ControlCommand>, c: ExecCall)
    requires short <= long && CallFrom(short, c)
    ensures CallFrom(long, c)
  {
    ApprovedGrows(short, long, c.action);
    var k :| 0 <= k < |short| && Orders(short[k], c);
    assert Orders(long[k], c);
  }

  lemma WorldGrows(short: seq<ControlCommand>, long: seq<ControlCommand>, w: World)
    requires short <= long && WorldFrom(short, w)
    ensures WorldFrom(long, w)
  {
    forall k | k in w.actions ensures RecordFrom(long, w.actions[k]) { RecordGrows(short, long, w.actions[k]); }
    forall i | 0 <= i < |w.calls| ensures CallFrom(long, w.calls[i]) { CallGrows(short, long, w.calls[i]); }
  }

  /** The record of the worked-on action after a recorded command. */
  lemma RecordAfter(short: seq<ControlCommand>, long: seq<ControlCommand>, w: World, w': World, cmd: ControlCommand)
    requires Sound(w) && WorldFrom(short, w) && Effect(w, w', cmd.actionId, cmd.kind)
    requires short <= long && (IsExecution(cmd.kind) || long == short + [cmd])
    requires cmd.actionId in w'.actions
    ensures RecordFrom(long, w'.actions[cmd.actionId])
  {
    var id := cmd.actionId;
    var rec := w'.actions[id];
    if id in w.actions {
      var old_ := w.actions[id];
      assert Scoped(Open(w, id));
      RecordGrows(short, long, old_);
      if Unapproved(old_.state) && !Unapproved(rec.state) && !rec.state.Aborted? {
        var i :| 0 <= i < |short| && short[i].kind == CommandKind.Draft(rec.action);
        assert ApprovedAt(long, rec.action, i, |short|);
      }
    } else {
      assert long[|short|] == cmd;
    }
  }

  lemma EffectFrom(short: seq<ControlCommand>, long: seq<ControlCommand>, w: World, w': World, cmd: ControlCommand)
    requires Sound(w) && WorldFrom(short, w) && Effect(w, w', cmd.actionId, cmd.kind)
    requires short <= long && cmd in long && (IsExecution(cmd.kind) || long == short + [cmd])
    ensures WorldFrom(long, w')
  {
    hide RecordFrom, CallFrom, RecordEdge;
    var id := cmd.actionId;
    forall k | k in w'.actions ensures RecordFrom(long, w'.actions[k]) {
      if k == id { RecordAfter(short, long, w, w', cmd); }
      else { RecordGrows(short, long, w.actions[k]); }
    }
    forall i | 0 <= i < |w'.calls| ensures CallFrom(long, w'.calls[i]) {
      if i < |w.calls| {
        assert w'.calls[i] == w.calls[i];
        CallGrows(short, long, w.calls[i]);
      } else {
        NewCallFrom(short, long, w, cmd, w'.calls[i]);
      }
    }
  }

  lemma NewCallFrom(short: seq<ControlCommand>, long: seq<ControlCommand>, w: World, cmd: ControlCommand, c: ExecCall)
    requires Sound(w) && WorldFrom(short, w) && short <= long && cmd in long && IsExecution(cmd.kind)
    requires cmd.actionId in w.actions && c.action == w.actions[cmd.actionId].action && (c.Apply? ==> !cmd.kind.Rollback?)
    requires !Unapproved(w.actions[cmd.actionId].state) && !Terminal(w.actions[cmd.actionId].state)
    ensures CallFrom(long, c)
  {
    assert Scoped(Open(w, cmd.actionId));
    assert RecordFrom(short, w.actions[cmd.actionId]);
    ApprovedGrows(short, long, c.action);
    var k :| 0 <= k < |long| && long[k] == cmd;
    assert Orders(long[k], c);
  }

  lemma {:induction false} ReleaseFrom(ledger: seq<ControlCommand>, h: Host, w: World, held: seq<Pending>, now: nat)
    requires Sound(w) && WorldFrom(ledger, w) && HeldFrom(ledger, held)
    ensures var (w', kept, fired) := ReleaseAll(h, w, held, now); WorldFrom(ledger, w') && HeldFrom(ledger, kept)
    decreases |held|
  {
    hide Sound, WorldFrom, ReleaseOne, Effect;
    if held != [] {
      var w1 := ReleaseOne(h, w, held[0], now).0;
      ReleaseOneLaw(h, w, held[0], now);
      assert held[0] in held;
      EffectFrom(ledger, ledger, w, w1, held[0].cmd);
      ReleaseFrom(ledger, h, w1, held[1..], now);
    }
  }

  /** Newly held commands come from the frame that was just gated. */
  lemma ServedPending(p: Policy, a: Agent, cmd: ControlCommand, now: nat)
    requires Sound(a.world)
    ensures var a' := ServeCommand(p, a, cmd, now).0;
            forall e :: e in a'.pending ==>
              e in a.pending ||
              (GateOpen(p, a, cmd) && e.cmd == cmd && IsExecution(cmd.kind) && cmd.schedule == Some(e.schedule))
  {
    hide Sound, Effect, EnqueueFresh, ExecuteFresh, HandleDraftFresh, HandleLifecycle;
    if IsExecution(cmd.kind) {
      if cmd.schedule.Some? { EnqueueFreshLaw(p, a, cmd, now); } else { ExecuteFreshLaw(p, a, cmd); }
    } else if cmd.kind.Draft? {
      HandleDraftLaw(p, a, cmd);
    } else {
      HandleLifecycleLaw(p, a, cmd);
    }
  }

  lemma StepFrom(p: Policy, a: Agent, e: AgentEvent, ledger: seq<ControlCommand>)
    requires Sound(a.world) && WorldFrom(ledger, a.world) && HeldFrom(ledger, a.pending)
    ensures var a' := Step(p, a, e); var ledger' := ledger + Passed(p, a, e);
            WorldFrom(ledger', a'.world) && HeldFrom(ledger', a'.pending)
  {
    hide Sound, WorldFrom, Effect, ServeCommand, ReleaseAll;
    var ledger' := ledger + Passed(p, a, e);
    WorldGrows(ledger, ledger', a.world);
    match e {
      case Deliver(wire, now) =>
        if wire.Command? {
          var a' := ServeCommand(p, a, wire.cmd, now).0;
          ServeCommandLaw(p, a, wire.cmd, now);
          ServedPending(p, a, wire.cmd, now);
          if GateOpen(p, a, wire.cmd) {
            EffectFrom(ledger, ledger', a.world, a'.world, wire.cmd);
          } else {
            SameRecords(ledger', a.world, a'.world);
          }
        }
      case Release(now) => ReleaseFrom(ledger', p.host, a.world, a.pending, now);
      case OpenSession(_, _) =>
    }
  }

  lemma SameRecords(ledger: seq<ControlCommand>, w: World, w': World)
    requires WorldFrom(ledger, w) && w'.actions == w.actions && w'.calls == w.calls
    ensures WorldFrom(ledger, w')
  {
  }

  lemma {:induction false} RunFrom(p: Policy, events: seq<AgentEvent>)
    ensures var a := Run(p, events); WorldFrom(Ledger(p, events), a.world) && HeldFrom(Ledger(p, events), a.pending)
    decreases |events|
  {
    hide Sound, WorldFrom, HeldFrom, Step;
    if events == [] {
      NothingFrom();
    } else {
      var before := events[..|events| - 1];
      RunFrom(p, before);
      RunSound(p, before);
      StepFrom(p, Run(p, before), events[|events| - 1], Ledger(p, before));
    }
  }

  lemma NothingFrom()
    ensures WorldFrom([], NewAgent.world) && HeldFrom([], NewAgent.pending)
  {
  }

  /** Every recorded command was delivered, verified under a trusted key of its actor and permitted. */
  lemma {:induction false} LedgerGenuine(p: Policy, events: seq<AgentEvent>, cmd: ControlCommand)
    requires cmd in Ledger(p, events)
    ensures Authentic(p, cmd) && p.permits(cmd.actor, cmd.kind)
    ensures cmd.actor in p.trusted && exists key :: key in p.trusted[cmd.actor] && cmd.signature == Signed(key, cmd.Unsigned())
    ensures exists t :: 0 <= t < |events| && events[t].Deliver? && events[t].wire == Command(cmd)
    decreases |events|
  {
    var before := events[..|events| - 1];
    if cmd in Ledger(p, before) {
      LedgerGenuine(p, before, cmd);
      var t :| 0 <= t < |before| && before[t].Deliver? && before[t].wire == Command(cmd);
      assert events[t] == before[t];
    } else {
      assert cmd in Passed(p, Run(p, before), events[|events| - 1]);
      assert cmd.signature.key in p.trusted[cmd.actor];
      assert events[|events| - 1].wire == Command(cmd);
    }
  }

  /**
   Whatever the executor is ever made to run, on whatever host: that very action body was
   drafted by a trusted, permitted signer, later approved by one, and a stage that makes
   such a call was ordered by one; and the host is among the targets that body names.
   */
  lemma ExecutedWasSignedAndApproved(p: Policy, events: seq<AgentEvent>, c: ExecCall)
    requires c in Run(p, events).world.calls
    ensures c.target in c.action.targets
    ensures ApprovedIn(Ledger(p, events), c.action) && OrderedIn(Ledger(p, events), c)
    ensures forall cmd :: cmd in Ledger(p, events) ==> Authentic(p, cmd) && p.permits(cmd.actor, cmd.kind)
  {
    RunSound(p, events);
    RunFrom(p, events);
    var w := Run(p, events).world;
    var i :| 0 <= i < |w.calls| && w.calls[i] == c;
    assert CallSound(w, w.calls[i]) && CallFrom(Ledger(p, events), w.calls[i]);
    forall cmd | cmd in Ledger(p, events) ensures Authentic(p, cmd) && p.permits(cmd.actor, cmd.kind) {
      LedgerGenuine(p, events, cmd);
    }
  }

  // ----- separation of duties -----

  datatype Role = Operator | Approver | Responder | Admin

  predicate RolePermits(role: Role, kind: CommandKind) {
    match role
    case Admin => true
    case Operator => kind.Draft? || kind.Submit? || kind.Canary? || kind.Rollout? || kind.Rollback?
    case Approver => kind.Approve? || kind.Reject?
    case Responder => kind.Abort?
  }

  /** Every kind of command belongs to exactly one role besides Admin, who may do everything. */
  lemma OneRoleEach(kind: CommandKind)
    ensures RolePermits(Admin, kind)
    ensures RolePermits(Operator, kind) <==> kind.Draft? || kind.Submit? || IsExecution(kind)
    ensures RolePermits(Approver, kind) <==> kind.Approve? || kind.Reject?
    ensures RolePermits(Responder, kind) <==> kind.Abort?
    ensures exists role :: role != Admin && RolePermits(role, kind)
    ensures forall a, b :: a != Admin && b != Admin && RolePermits(a, kind) && RolePermits(b, kind) ==> a == b
  {
    assert RolePermits(Operator, kind) || RolePermits(Approver, kind) || RolePermits(Responder, kind);
  }

  ghost predicate ByRoles(p: Policy, roles: map<string, Role>) {
    forall actor, kind :: p.permits(actor, kind) <==> actor in roles && RolePermits(roles[actor], kind)
  }

  /**
   Under a role policy everything the executor runs was drafted and approved, and whoever
   ever drafted that body and whoever ever approved it afterwards are two different actors,
   except where the one actor is an Admin.
   */
  lemma FourEyes(p: Policy, roles: map<string, Role>, events: seq<AgentEvent>, c: ExecCall)
    requires ByRoles(p, roles) && c in Run(p, events).world.calls
    ensures ApprovedIn(Ledger(p, events), c.action)
    ensures forall i: nat, j: nat :: ApprovedAt(Ledger(p, events), c.action, i, j) ==>
              var author, approver := Ledger(p, events)[i].actor, Ledger(p, events)[j].actor;
              author in roles && approver in roles && (author == approver ==> roles[author] == Admin)
  {
    hide Run, Ledger;
    ExecutedWasSignedAndApproved(p, events, c);
    var ledger := Ledger(p, events);
    forall i: nat, j: nat | ApprovedAt(ledger, c.action, i, j)
      ensures var author, approver := ledger[i].actor, ledger[j].actor;
              author in roles && approver in roles && (author == approver ==> roles[author] == Admin)
    {
      assert ledger[i] in ledger && ledger[j] in ledger;
      assert p.permits(ledger[i].actor, ledger[i].kind) && p.permits(ledger[j].actor, ledger[j].kind);
    }
  }

  // ----- where every scheduled command ends up -----

  predicate DueAt(e: Pending, now: nat) { e.schedule.notBefore <= now <= e.schedule.notAfter }

  predicate MissedAt(e: Pending, now: nat) { now > e.schedule.notAfter }

  predicate WaitingAt(e: Pending, now: nat) { !DueAt(e, now) && !MissedAt(e, now) }

  function Only(held: seq<Pending>, keep: Pending -> bool): seq<Pending> {
    if held == [] then []
    else if keep(held[0]) then [held[0]] + Only(held[1..], keep)
    else Only(held[1..], keep)
  }

  /** Scheduled commands so far: taken in, released inside their window, missed, cancelled. */
  datatype Fates = Fates(
    enqueued: multiset<Pending>, released: multiset<Pending>, missed: multiset<Pending>, cancelled: multiset<Pending>)

  ghost function FatesAfter(p: Policy, a: Agent, e: AgentEvent, f: Fates): Fates {
    match e
    case Deliver(Command(cmd), now) =>
      var (a', result) := ServeCommand(p, a, cmd, now);
      if result.outcome != Applied then f
      else if IsExecution(cmd.kind) && cmd.schedule.Some? then
        f.(enqueued := f.enqueued + multiset{Pending(cmd, cmd.schedule.value)})
      else if cmd.kind.Abort? then
        f.(cancelled := f.cancelled + multiset(Only(a.pending, (x: Pending) => x.cmd.actionId == cmd.actionId)))
      else f
    case Release(now) =>
      f.(released := f.released + multiset(Only(a.pending, (x: Pending) => DueAt(x, now))),
         missed := f.missed + multiset(Only(a.pending, (x: Pending) => MissedAt(x, now))))
    case _ => f
  }

  ghost function FatesOf(p: Policy, events: seq<AgentEvent>): Fates
    decreases |events|
  {
    if events == [] then Fates(multiset{}, multiset{}, multiset{}, multiset{})
    else
      var before := events[..|events| - 1];
      FatesAfter(p, Run(p, before), events[|events| - 1], FatesOf(p, before))
  }

  /** The clock alone decides which held commands a tick runs, discards or keeps. */
  lemma VerdictByClock(h: Host, w: World, e: Pending, now: nat)
    ensures var (w', verdict) := ReleaseOne(h, w, e, now);
            && (verdict.Waiting? <==> WaitingAt(e, now))
            && (verdict.Missed? <==> MissedAt(e, now))
            && (w'.calls != w.calls ==> DueAt(e, now))
  {
  }

  lemma {:induction false} ReleaseSplits(h: Host, w: World, held: seq<Pending>, now: nat)
    ensures multiset(held) ==
            multiset(ReleaseAll(h, w, held, now).1)
            + multiset(Only(held, (x: Pending) => DueAt(x, now)))
            + multiset(Only(held, (x: Pending) => MissedAt(x, now)))
    decreases |held|
  {
    hide ReleaseOne;
    if held != [] {
      VerdictByClock(h, w, held[0], now);
      ReleaseSplits(h, ReleaseOne(h, w, held[0], now).0, held[1..], now);
      assert held == [held[0]] + held[1..];
    }
  }

  lemma {:induction false} CancelSplits(held: seq<Pending>, id: string)
    ensures multiset(held) ==
            multiset(NotFor(held, id)) + multiset(Only(held, (x: Pending) => x.cmd.actionId == id))
  {
    if held != [] {
      CancelSplits(held[1..], id);
      assert held == [held[0]] + held[1..];
    }
  }

  lemma ServedFates(p: Policy, a: Agent, cmd: ControlCommand, now: nat, f: Fates)
    requires Sound(a.world)
    requires f.enqueued == multiset(a.pending) + f.released + f.missed + f.cancelled
    ensures var a' := ServeCommand(p, a, cmd, now).0;
            var f' := FatesAfter(p, a, Deliver(Command(cmd), now), f);
            f'.enqueued == multiset(a'.pending) + f'.released + f'.missed + f'.cancelled
  {
    hide Sound, Effect, ServeLaw, EnqueueFresh, ExecuteFresh, HandleDraftFresh, HandleLifecycle, Only;
    if IsExecution(cmd.kind) {
      if cmd.schedule.Some? { EnqueueFreshLaw(p, a, cmd, now); } else { ExecuteFreshLaw(p, a, cmd); }
    } else if cmd.kind.Draft? {
      HandleDraftLaw(p, a, cmd);
    } else {
      HandleLifecycleLaw(p, a, cmd);
      CancelSplits(a.pending, cmd.actionId);
    }
  }

  /**
   Conservation: every scheduled command ever taken in is still held, was released
   exactly once inside its signed window, missed its window unrun, or was cancelled by
   an applied Abort on its action.
   */
  lemma {:induction false} ScheduledCommandsConserved(p: Policy, events: seq<AgentEvent>)
    ensures var f := FatesOf(p, events);
            f.enqueued == multiset(Run(p, events).pending) + f.released + f.missed + f.cancelled
    decreases |events|
  {
    hide Sound, ServeCommand, ReleaseAll;
    if events != [] {
      var before := events[..|events| - 1];
      var a, f := Run(p, before), FatesOf(p, before);
      ScheduledCommandsConserved(p, before);
      RunSound(p, before);
      match events[|events| - 1] {
        case Deliver(wire, now) => if wire.Command? { ServedFates(p, a, wire.cmd, now, f); }
        case Release(now) => ReleaseSplits(p.host, a.world, a.pending, now);
        case OpenSession(_, _) =>
      }
    }
  }
}
