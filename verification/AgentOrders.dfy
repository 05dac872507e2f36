/**
 Which command made the executor do what, over whole runs: every stage that ran is matched
 to a command of its own that passed all gates, and every call to the stage that made it.
 */
module AgentOrders {
  import opened Basics
  import opened Remediation
  import opened BridgeLaws
  import opened RevertLaws
  import opened Control
  import opened AgentLaws
  import opened AgentRuns

  // ----- the stages that ran -----

  function Cmds(held: seq<Pending>): seq<ControlCommand> {
    if held == [] then [] else [held[0].cmd] + Cmds(held[1..])
  }

  /** The commands whose stage this event runs, in order. */
  function StagesRun(p: Policy, a: Agent, e: AgentEvent): seq<ControlCommand> {
    match e
    case Deliver(Command(cmd), _) =>
      if GateOpen(p, a, cmd) && IsExecution(cmd.kind) && cmd.schedule.None? then [cmd] else []
    case Release(now) => Cmds(Only(a.pending, (x: Pending) => DueAt(x, now)))
    case _ => []
  }

  function AllStagesRun(p: Policy, events: seq<AgentEvent>): seq<ControlCommand>
    decreases |events|
  {
    if events == [] then []
    else
      var before := events[..|events| - 1];
      AllStagesRun(p, before) + StagesRun(p, Run(p, before), events[|events| - 1])
  }

  lemma {:induction false} CmdsConcat(a: seq<Pending>, b: seq<Pending>)
    ensures Cmds(a + b) == Cmds(a) + Cmds(b)
  {
    if a == [] {
      assert a + b == b;
    } else {
      assert (a + b)[1..] == a[1..] + b;
      CmdsConcat(a[1..], b);
    }
  }

  lemma {:induction false} ReleaseCmds(h: Host, w: World, held: seq<Pending>, now: nat)
    ensures multiset(Cmds(ReleaseAll(h, w, held, now).1)) + multiset(Cmds(Only(held, (x: Pending) => DueAt(x, now))))
            <= multiset(Cmds(held))
    decreases |held|
  {
    hide ReleaseOne;
    if held != [] {
      VerdictByClock(h, w, held[0], now);
      ReleaseCmds(h, ReleaseOne(h, w, held[0], now).0, held[1..], now);
    }
  }

  lemma {:induction false} CancelCmds(held: seq<Pending>, id: string)
    ensures multiset(Cmds(NotFor(held, id))) <= multiset(Cmds(held))
  {
    if held != [] { CancelCmds(held[1..], id); }
  }

  lemma ServedCmds(p: Policy, a: Agent, cmd: ControlCommand, now: nat)
    requires Sound(a.world)
    ensures var a' := ServeCommand(p, a, cmd, now).0;
            var e := Deliver(Command(cmd), now);
            multiset(StagesRun(p, a, e)) + multiset(Cmds(a'.pending)) <= multiset(Passed(p, a, e)) + multiset(Cmds(a.pending))
  {
    hide Sound, Effect, EnqueueFresh, ExecuteFresh, HandleDraftFresh, HandleLifecycle;
    if IsExecution(cmd.kind) {
      if cmd.schedule.Some? {
        EnqueueFreshLaw(p, a, cmd, now);
        CmdsConcat(a.pending, [Pending(cmd, cmd.schedule.value)]);
        assert Cmds([Pending(cmd, cmd.schedule.value)]) == [cmd];
      } else {
        ExecuteFreshLaw(p, a, cmd);
      }
    } else if cmd.kind.Draft? {
      HandleDraftLaw(p, a, cmd);
    } else {
      HandleLifecycleLaw(p, a, cmd);
      CancelCmds(a.pending, cmd.actionId);
    }
  }

  lemma StagesStep(p: Policy, a: Agent, e: AgentEvent)
    requires Sound(a.world)
    ensures multiset(StagesRun(p, a, e)) + multiset(Cmds(Step(p, a, e).pending))
            <= multiset(Passed(p, a, e)) + multiset(Cmds(a.pending))
  {
    hide Sound, ServeCommand, ReleaseAll, Cmds, Only;
    match e {
      case Deliver(wire, now) => if wire.Command? { ServedCmds(p, a, wire.cmd, now); }
      case Release(now) => ReleaseCmds(p.host, a.world, a.pending, now);
      case OpenSession(_, _) =>
    }
  }

  /**
   Every stage that ran, at once or in its window, and every command still held, is matched
   to a command of its own that passed all gates: none runs twice for one order.
   */
  lemma {:induction false} EachStageOrderedOnce(p: Policy, events: seq<AgentEvent>)
    ensures multiset(AllStagesRun(p, events)) + multiset(Cmds(Run(p, events).pending)) <= multiset(Ledger(p, events))
    decreases |events|
  {
    hide Sound, Step, StagesRun, Passed, Cmds;
    if events == [] {
      NothingHeld();
    } else {
      var before := events[..|events| - 1];
      EachStageOrderedOnce(p, before);
      RunSound(p, before);
      var a, e := Run(p, before), events[|events| - 1];
      StagesStep(p, a, e);
      Balance(multiset(AllStagesRun(p, before)), multiset(Cmds(a.pending)), multiset(Ledger(p, before)),
              multiset(StagesRun(p, a, e)), multiset(Cmds(Step(p, a, e).pending)), multiset(Passed(p, a, e)));
      assert multiset(AllStagesRun(p, events)) == multiset(AllStagesRun(p, before)) + multiset(StagesRun(p, a, e));
      assert multiset(Ledger(p, events)) == multiset(Ledger(p, before)) + multiset(Passed(p, a, e));
    }
  }

  lemma Balance(ran: multiset<ControlCommand>, held: multiset<ControlCommand>, ledger: multiset<ControlCommand>,
                run: multiset<ControlCommand>, hold: multiset<ControlCommand>, passed: multiset<ControlCommand>)
    requires ran + held <= ledger && run + hold <= passed + held
    ensures (ran + run) + hold <= ledger + passed
  {
    forall c: ControlCommand ensures ((ran + run) + hold)[c] <= (ledger + passed)[c] {
      assert (ran + held)[c] <= ledger[c] && (run + hold)[c] <= (passed + held)[c];
    }
  }

  lemma NothingHeld()
    ensures Cmds(NewAgent.pending) == []
  {
  }

  // ----- the calls a stage made -----

  function Marks(k: nat, n: nat): (r: seq<nat>)
    ensures |r| == n && forall i :: 0 <= i < n ==> r[i] == k
  {
    seq(n, _ => k)
  }

  /** New calls `from` onwards, each marked with the stage that made it. */
  ghost predicate Marked(stages: seq<ControlCommand>, calls: seq<ExecCall>, from: nat, marks: seq<nat>, base: nat) {
    && from <= |calls| && |marks| == |calls| - from
    && (forall i :: 0 <= i < |marks| ==>
          base <= marks[i] < base + |stages| && Orders(stages[marks[i] - base], calls[from + i]))
    && (forall i, j :: 0 <= i < j < |marks| ==> marks[i] <= marks[j])
  }

  ghost function ReleaseMarks(h: Host, w: World, held: seq<Pending>, now: nat, base: nat): seq<nat>
    decreases |held|
  {
    if held == [] then []
    else
      var w1 := ReleaseOne(h, w, held[0], now).0;
      var made := if |w1.calls| >= |w.calls| then |w1.calls| - |w.calls| else 0;
      if DueAt(held[0], now) then Marks(base, made) + ReleaseMarks(h, w1, held[1..], now, base + 1)
      else ReleaseMarks(h, w1, held[1..], now, base)
  }

  /** For every call, in order, the position of the stage run that made it. */
  ghost function CallMarks(p: Policy, events: seq<AgentEvent>): seq<nat>
    decreases |events|
  {
    if events == [] then []
    else
      var before, e := events[..|events| - 1], events[|events| - 1];
      var a, a' := Run(p, before), Run(p, events);
      var base := |AllStagesRun(p, before)|;
      CallMarks(p, before) +
      match e
      case Release(now) => ReleaseMarks(p.host, a.world, a.pending, now, base)
      case _ => Marks(base, if |a'.world.calls| >= |a.world.calls| then |a'.world.calls| - |a.world.calls| else 0)
  }

  lemma CallsOrdered(w: World, w': World, cmd: ControlCommand, i: nat)
    requires Sound(w) && Effect(w, w', cmd.actionId, cmd.kind) && |w.calls| <= i < |w'.calls|
    ensures Orders(cmd, w'.calls[i])
  {
    hide Sound;
    var c := w'.calls[i];
    assert cmd.actionId in w.actions && c.action == w.actions[cmd.actionId].action;
    SoundOpen(w, cmd.actionId);
  }

  lemma {:induction false} ReleaseMarked(h: Host, w: World, held: seq<Pending>, now: nat, base: nat)
    requires Sound(w)
    ensures var w' := ReleaseAll(h, w, held, now).0;
            && w.calls <= w'.calls
            && Marked(Cmds(Only(held, (x: Pending) => DueAt(x, now))), w'.calls, |w.calls|,
                      ReleaseMarks(h, w, held, now, base), base)
    decreases |held|
  {
    hide Sound, ReleaseOne, Effect, Orders;
    if held != [] {
      var w1 := ReleaseOne(h, w, held[0], now).0;
      ReleaseOneLaw(h, w, held[0], now);
      EffectGrows(w, w1, held[0].cmd);
      VerdictByClock(h, w, held[0], now);
      var next := if DueAt(held[0], now) then base + 1 else base;
      ReleaseMarked(h, w1, held[1..], now, next);
      var w' := ReleaseAll(h, w, held, now).0;
      var stages := Cmds(Only(held, (x: Pending) => DueAt(x, now)));
      var marks := ReleaseMarks(h, w, held, now, base);
      if DueAt(held[0], now) {
        var rest := ReleaseMarks(h, w1, held[1..], now, next);
        var made := |w1.calls| - |w.calls|;
        assert marks == Marks(base, made) + rest;
        assert stages[1..] == Cmds(Only(held[1..], (x: Pending) => DueAt(x, now))) && stages[0] == held[0].cmd;
        MarkedJoin(stages, w', |w.calls|, made, rest, base);
      }
    }
  }

  lemma EffectGrows(w: World, w': World, cmd: ControlCommand)
    requires Sound(w) && Effect(w, w', cmd.actionId, cmd.kind)
    ensures w.calls <= w'.calls && forall i :: |w.calls| <= i < |w'.calls| ==> Orders(cmd, w'.calls[i])
  {
    forall i | |w.calls| <= i < |w'.calls| ensures Orders(cmd, w'.calls[i]) { CallsOrdered(w, w', cmd, i); }
  }

  lemma MarkedJoin(stages: seq<ControlCommand>, w': World, from: nat, made: nat, rest: seq<nat>, base: nat)
    requires stages != [] && from + made <= |w'.calls|
    requires forall i :: from <= i < from + made ==> Orders(stages[0], w'.calls[i])
    requires Marked(stages[1..], w'.calls, from + made, rest, base + 1)
    ensures Marked(stages, w'.calls, from, Marks(base, made) + rest, base)
  {
    hide Orders;
    var marks := Marks(base, made) + rest;
    forall i | 0 <= i < |marks|
      ensures base <= marks[i] < base + |stages| && Orders(stages[marks[i] - base], w'.calls[from + i])
    {
      if i >= made { assert marks[i] == rest[i - made]; }
    }
  }

  lemma ServedMarked(p: Policy, a: Agent, cmd: ControlCommand, now: nat, base: nat)
    requires Sound(a.world)
    ensures var a' := ServeCommand(p, a, cmd, now).0;
            && a.world.calls <= a'.world.calls
            && Marked(StagesRun(p, a, Deliver(Command(cmd), now)), a'.world.calls, |a.world.calls|,
                      Marks(base, |a'.world.calls| - |a.world.calls|), base)
  {
    hide Sound, Effect, ServeCommand, Orders;
    var a' := ServeCommand(p, a, cmd, now).0;
    ServeCommandLaw(p, a, cmd, now);
    EffectGrows(a.world, a'.world, cmd);
    if a'.world.calls != a.world.calls {
      OnlyStagesCall(p, a, cmd, now);
    }
  }

  lemma OnlyStagesCall(p: Policy, a: Agent, cmd: ControlCommand, now: nat)
    requires Sound(a.world) && ServeCommand(p, a, cmd, now).0.world.calls != a.world.calls
    ensures GateOpen(p, a, cmd) && IsExecution(cmd.kind) && cmd.schedule.None?
  {
    hide Sound, ExecuteFresh, GateExecution;
    ServeCommandLaw(p, a, cmd, now);
    var a' := ServeCommand(p, a, cmd, now).0;
    assert a.world.calls <= a'.world.calls;
    assert |a.world.calls| < |a'.world.calls|;
    EffectGrows(a.world, a'.world, cmd);
    assert Orders(cmd, a'.world.calls[|a.world.calls|]);
    GateExecutionLaw(p, a, cmd);
  }

  /**
   Every call the executor ever got was made by one of the stage runs, in their order: by a
   command on that very action, and an Apply only by a canary or a rollout.
   */
  lemma {:induction false} EachCallFromItsStage(p: Policy, events: seq<AgentEvent>)
    ensures Marked(AllStagesRun(p, events), Run(p, events).world.calls, 0, CallMarks(p, events), 0)
    decreases |events|
  {
    hide Sound, Step, StagesRun, ReleaseMarks, Orders;
    if events != [] {
      var before, e := events[..|events| - 1], events[|events| - 1];
      EachCallFromItsStage(p, before);
      RunSound(p, before);
      var a, stages := Run(p, before), AllStagesRun(p, before);
      StepMarked(p, a, e, |stages|);
      var more, calls := StagesRun(p, a, e), Run(p, events).world.calls;
      MarkedAppend(stages, more, a.world.calls, calls, CallMarks(p, before), StepMarks(p, a, e, |stages|));
      assert CallMarks(p, events) == CallMarks(p, before) + StepMarks(p, a, e, |stages|);
    }
  }

  ghost function StepMarks(p: Policy, a: Agent, e: AgentEvent, base: nat): seq<nat> {
    var a' := Step(p, a, e);
    match e
    case Release(now) => ReleaseMarks(p.host, a.world, a.pending, now, base)
    case _ => Marks(base, if |a'.world.calls| >= |a.world.calls| then |a'.world.calls| - |a.world.calls| else 0)
  }

  lemma StepMarked(p: Policy, a: Agent, e: AgentEvent, base: nat)
    requires Sound(a.world)
    ensures var a' := Step(p, a, e);
            && a.world.calls <= a'.world.calls
            && Marked(StagesRun(p, a, e), a'.world.calls, |a.world.calls|, StepMarks(p, a, e, base), base)
  {
    hide Sound, ServeCommand, ReleaseAll, ReleaseMarks, Orders, Only, Cmds;
    match e {
      case Deliver(wire, now) => if wire.Command? { ServedMarked(p, a, wire.cmd, now, base); }
      case Release(now) => ReleaseMarked(p.host, a.world, a.pending, now, base);
      case OpenSession(_, _) =>
    }
  }

  lemma MarkedAppend(stages: seq<ControlCommand>, more: seq<ControlCommand>, calls: seq<ExecCall>, calls': seq<ExecCall>,
                     marks: seq<nat>, later: seq<nat>)
    requires calls <= calls' && Marked(stages, calls, 0, marks, 0) && Marked(more, calls', |calls|, later, |stages|)
    ensures Marked(stages + more, calls', 0, marks + later, 0)
  {
    hide Orders;
    var all := marks + later;
    forall i | 0 <= i < |all| ensures 0 <= all[i] < |stages + more| && Orders((stages + more)[all[i]], calls'[i]) {
      if i < |marks| {
        assert all[i] == marks[i] && calls'[i] == calls[i];
      } else {
        assert all[i] == later[i - |marks|] && calls'[i] == calls'[|calls| + (i - |marks|)];
      }
    }
  }

  // ----- hosts left behind -----

  lemma {:induction false} LiveUntouched(w: World, w': World, id: string)
    requires LeavesAlone(w, w', id)
    ensures Live(w'.calls, id) == Live(w.calls, id)
  {
    LiveFrame(w.calls, w'.calls, id);
  }

  /**
   In any run an action that is rolled back keeps, for ever, exactly the hosts its record
   still lists; no later event makes the executor take one of them back.
   */
  lemma StrandedForever(p: Policy, events: seq<AgentEvent>, more: seq<AgentEvent>, id: string)
    requires Remediation.StateOf(Run(p, events).world, id) == Some(RolledBack)
    ensures var w, w' := Run(p, events).world, Run(p, events + more).world;
            && Remediation.StateOf(w', id) == Some(RolledBack)
            && Live(w'.calls, id) == Live(w.calls, id) == multiset(w.actions[id].applied)
  {
    hide Run;
    var w, w' := Run(p, events).world, Run(p, events + more).world;
    TerminalForever(p, events, more, id);
    LiveUntouched(w, w', id);
    AppliedMatchesExecutor(p, events, id);
  }

  /**
   A canary or rollout that was served and gave up leaves hosts carrying the change for ever
   exactly when one of the hosts it had reached did not let go at that moment.
   */
  lemma GivingUpStrandsExactly(p: Policy, events: seq<AgentEvent>, cmd: ControlCommand, now: nat, more: seq<AgentEvent>)
    requires IsExecution(cmd.kind) && cmd.schedule.None?
    requires ServeCommand(p, Run(p, events), cmd, now).1.stage == Some(Reverted)
    ensures cmd.actionId in Run(p, events).world.actions
    ensures var j := Open(Run(p, events).world, cmd.actionId);
            var tried := Tried(p.host, j, StageOf(cmd.kind), cmd.actor);
            var after := Run(p, events + [Deliver(Command(cmd), now)] + more).world;
            && Remediation.StateOf(after, cmd.actionId) == Some(RolledBack)
            && (Live(after.calls, cmd.actionId) != multiset{} <==>
                SomeRevertFails(p.host, tried.calls, tried.rec.action, tried.rec.applied))
  {
    hide Sound, Run, StageJob, SomeRevertFails, Tried, GateExecution;
    var a := Run(p, events);
    RunSound(p, events);
    GateExecutionLaw(p, a, cmd);
    var id, stage := cmd.actionId, StageOf(cmd.kind);
    var (a1, gate) := GateExecution(p, a, cmd);
    assert ServeCommand(p, a, cmd, now) == ExecuteFresh(p, a, cmd);
    assert gate.Done? && a1.world == a.world;
    var (w1, r) := RunStage(p.host, a.world, id, stage, cmd.actor);
    assert r == Done(Reverted);
    var j := Open(a.world, id);
    SoundOpen(a.world, id);
    AutomaticRevertExactly(p.host, j, stage, cmd.actor);
    JobIdKept(p.host, a.world, id, stage, cmd.actor);
    var at := events + [Deliver(Command(cmd), now)];
    RunConcat(p, events, Deliver(Command(cmd), now));
    ServedStep(p, a, cmd, now);
    assert Run(p, at).world == w1;
    StrandedForever(p, at, more, id);
  }

  /** The released commands before the `k`-th leave this world to it. */
  function ReleasedBefore(h: Host, w: World, held: seq<Pending>, k: nat, now: nat): World
    requires k <= |held|
  {
    ReleaseAll(h, w, held[..k], now).0
  }

  lemma {:induction false} ReleaseConcat(h: Host, w: World, a: seq<Pending>, b: seq<Pending>, now: nat)
    ensures ReleaseAll(h, w, a + b, now).0 == ReleaseAll(h, ReleaseAll(h, w, a, now).0, b, now).0
    decreases |a|
  {
    hide ReleaseOne;
    if a == [] {
      assert a + b == b;
    } else {
      assert (a + b)[1..] == a[1..] + b;
      ReleaseConcat(h, ReleaseOne(h, w, a[0], now).0, a[1..], b, now);
    }
  }

  /** A tick is the commands before one, that one, and the rest. */
  lemma ReleaseThrough(h: Host, w: World, held: seq<Pending>, k: nat, now: nat)
    requires k < |held|
    ensures var w1 := ReleaseOne(h, ReleasedBefore(h, w, held, k, now), held[k], now).0;
            ReleaseAll(h, w, held, now).0 == ReleaseAll(h, w1, held[k + 1..], now).0
  {
    hide ReleaseOne;
    assert held == held[..k] + held[k..];
    ReleaseConcat(h, w, held[..k], held[k..], now);
    assert held[k..][0] == held[k] && held[k..][1..] == held[k + 1..];
  }

  /**
   The same for a canary or rollout that was held and gave up when a tick released it, in the
   world the commands released before it left.
   */
  lemma GivingUpInTickStrandsExactly(p: Policy, events: seq<AgentEvent>, now: nat, k: nat, more: seq<AgentEvent>)
    requires k < |Run(p, events).pending|
    requires var a := Run(p, events);
             var e, w := a.pending[k], ReleasedBefore(p.host, a.world, a.pending, k, now);
             IsExecution(e.cmd.kind) && ReleaseOne(p.host, w, e, now).1 == Fired(Reverted)
    ensures var a := Run(p, events);
            var e, w := a.pending[k], ReleasedBefore(p.host, a.world, a.pending, k, now);
            var id := e.cmd.actionId;
            var after := Run(p, events + [Release(now)] + more).world;
            && id in w.actions
            && var tried := Tried(p.host, Open(w, id), StageOf(e.cmd.kind), e.cmd.actor);
               && Remediation.StateOf(after, id) == Some(RolledBack)
               && (Live(after.calls, id) != multiset{} <==>
                   SomeRevertFails(p.host, tried.calls, tried.rec.action, tried.rec.applied))
  {
    hide Sound, Run, StageJob, SomeRevertFails, Tried, ReleaseAll;
    var a := Run(p, events);
    var e, w := a.pending[k], ReleasedBefore(p.host, a.world, a.pending, k, now);
    var id, stage := e.cmd.actionId, StageOf(e.cmd.kind);
    RunSound(p, events);
    ReleaseAllSound(p.host, a.world, a.pending[..k], now);
    var (w1, r) := RunStage(p.host, w, id, stage, e.cmd.actor);
    assert r == Done(Reverted) && ReleaseOne(p.host, w, e, now).0 == w1;
    SoundOpen(w, id);
    AutomaticRevertExactly(p.host, Open(w, id), stage, e.cmd.actor);
    JobIdKept(p.host, w, id, stage, e.cmd.actor);
    ReleaseOneLaw(p.host, w, e, now);
    ReleaseThrough(p.host, a.world, a.pending, k, now);
    ReleaseLeavesTerminal(p.host, w1, a.pending[k + 1..], now, id);
    var at := events + [Release(now)];
    RunConcat(p, events, Release(now));
    TickWorld(p, a, now);
    LiveUntouched(w1, Run(p, at).world, id);
    StrandedForever(p, at, more, id);
  }

  lemma TickWorld(p: Policy, a: Agent, now: nat)
    ensures Step(p, a, Release(now)).world == ReleaseAll(p.host, a.world, a.pending, now).0
  {
  }

  lemma JobIdKept(h: Host, w: World, id: string, stage: Stage, actor: string)
    requires Sound(w) && id in w.actions
    ensures var j' := StageJob(h, Open(w, id), stage, actor).0;
            var w' := RunStage(h, w, id, stage, actor).0;
            j'.id == id && id in w'.actions && w'.actions[id] == j'.rec && w'.calls == j'.calls
  {
    hide Sound, StageJob;
    SoundOpen(w, id);
    StageKeeps(h, Open(w, id), stage, actor);
  }

  // ----- what a tick keeps and reports -----

  /** A tick keeps exactly the commands whose window is still to come, in order. */
  lemma {:induction false} KeptExactly(h: Host, w: World, held: seq<Pending>, now: nat)
    ensures ReleaseAll(h, w, held, now).1 == Only(held, (x: Pending) => WaitingAt(x, now))
    decreases |held|
  {
    hide ReleaseOne;
    if held != [] {
      VerdictByClock(h, w, held[0], now);
      KeptExactly(h, ReleaseOne(h, w, held[0], now).0, held[1..], now);
    }
  }

  /** The `k`-th held command fired with this outcome, in the world the ones before it left. */
  ghost predicate FiredAt(h: Host, w: World, held: seq<Pending>, now: nat, k: int, outcome: StageOutcome) {
    0 <= k < |held| && ReleaseOne(h, ReleasedBefore(h, w, held, k, now), held[k], now).1 == Fired(outcome)
  }

  lemma FiredShift(h: Host, w: World, held: seq<Pending>, now: nat, k: nat, outcome: StageOutcome)
    requires 0 < k < |held|
    ensures FiredAt(h, w, held, now, k, outcome) <==>
            FiredAt(h, ReleaseOne(h, w, held[0], now).0, held[1..], now, k - 1, outcome)
  {
    hide ReleaseOne;
    assert held[..k][0] == held[0] && held[..k][1..] == held[1..][..k - 1];
  }

  /** A tick reports exactly the stages that ran to an outcome, each under its action. */
  lemma {:induction false} ReportedExactly(h: Host, w: World, held: seq<Pending>, now: nat, id: string, outcome: StageOutcome)
    ensures (id, outcome) in ReleaseAll(h, w, held, now).2 <==>
            exists k :: FiredAt(h, w, held, now, k, outcome) && held[k].cmd.actionId == id
    decreases |held|
  {
    hide ReleaseOne, FiredAt;
    if held == [] {
      NothingFired(h, w, now, outcome);
    } else {
      var w1, rest := ReleaseOne(h, w, held[0], now).0, held[1..];
      ReportedExactly(h, w1, rest, now, id, outcome);
      FiredFirst(h, w, held, now, outcome);
      FiredInside(h, w, held, now, outcome);
      FiredInside(h, w1, rest, now, outcome);
      if k :| FiredAt(h, w, held, now, k, outcome) && held[k].cmd.actionId == id {
        if k > 0 {
          FiredShift(h, w, held, now, k, outcome);
          assert rest[k - 1] == held[k];
        }
      }
      if k :| FiredAt(h, w1, rest, now, k, outcome) && rest[k].cmd.actionId == id {
        FiredShift(h, w, held, now, k + 1, outcome);
        assert held[k + 1] == rest[k];
      }
    }
  }

  lemma FiredInside(h: Host, w: World, held: seq<Pending>, now: nat, outcome: StageOutcome)
    ensures forall k :: FiredAt(h, w, held, now, k, outcome) ==> 0 <= k < |held|
  {
  }

  lemma NothingFired(h: Host, w: World, now: nat, outcome: StageOutcome)
    ensures forall k :: !FiredAt(h, w, [], now, k, outcome)
  {
  }

  lemma FiredFirst(h: Host, w: World, held: seq<Pending>, now: nat, outcome: StageOutcome)
    requires held != []
    ensures FiredAt(h, w, held, now, 0, outcome) <==> ReleaseOne(h, w, held[0], now).1 == Fired(outcome)
  {
    hide ReleaseOne;
    assert held[..0] == [];
  }
}
