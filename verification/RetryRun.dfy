/**
 A run of the agent that ends in a rollback retry audited as dropped although it called
 the executor, and one in which a canary gives up and its host keeps the change. Every host
 call applies and none reverts.
 */
module RetryRun {
  import opened Basics
  import opened Remediation
  import opened BridgeLaws
  import opened RevertLaws
  import opened Control
  import opened AgentLaws
  import opened AgentRuns

  const Body := Action("a", "n", Shell, "x", ["t"], true, true, None, [], 1, 1.0)

  /** One operator, everything permitted; `verified` is what a re-score finds. */
  function Stuck(verified: bool): Policy {
    Policy(map["op" := {1}], (actor, kind) => true,
           Host((calls, action, target) => true, (calls, action, target) => false, (moment, calls, action, applied) => verified),
           "agent", 2)
  }

  function Cmd(kind: CommandKind, number: nat, schedule: Option<Schedule>): (c: ControlCommand)
    ensures Authentic(Stuck(true), c) && Authentic(Stuck(false), c)
  {
    var c := ControlCommand("a", kind, "op", "s", number, schedule, Junk(""));
    c.(signature := Signed(1, c.Unsigned()))
  }

  /** The one action, the mark of the one session, and what is held. */
  ghost predicate Stands(a: Agent, rec: Record, mark: nat, held: seq<Pending>) {
    a.world.actions == map["a" := rec] && a.seen == map["s" := mark] && a.pending == held
  }

  lemma Opened(v: bool)
    ensures var a := Step(Stuck(v), NewAgent, OpenSession("s", 0));
            a.world == EmptyWorld && a.seen == map["s" := 0] && a.pending == []
  {
  }

  lemma DraftStep(v: bool, a: Agent)
    requires a.world == EmptyWorld && a.seen == map["s" := 0] && a.pending == []
    ensures Stands(ServeCommand(Stuck(v), a, Cmd(CommandKind.Draft(Body), 1, None), 0).0, Record(Body, DryRun, []), 1, [])
  {
    var p, cmd := Stuck(v), Cmd(CommandKind.Draft(Body), 1, None);
    assert GateOpen(p, a, cmd);
    var a1 := DispatchFresh(p, a, cmd).0;
    assert a1.world.actions == map["a" := Record(Body, Drafted, [])];
    assert a1.seen == map["s" := 1];
    assert HandleDraftFresh(p, a, cmd).0.world == DryRunAction(a1.world, "a", "op").0;
    assert map["a" := Record(Body, Drafted, [])]["a" := Record(Body, DryRun, [])] == map["a" := Record(Body, DryRun, [])];
  }

  /** Submit and approve move the record on. */
  lemma MoveStep(v: bool, a: Agent, kind: CommandKind, rec: Record, number: nat, to: ActionState)
    requires number > 0 && Stands(a, rec, number - 1, [])
    requires (kind == CommandKind.Submit && rec.state == DryRun && to == PendingApproval)
             || (kind == CommandKind.Approve && rec.state == PendingApproval && to == Approved)
    ensures Stands(ServeCommand(Stuck(v), a, Cmd(kind, number, None), 0).0, rec.(state := to), number, [])
  {
    var p, cmd := Stuck(v), Cmd(kind, number, None);
    assert GateOpen(p, a, cmd);
    assert a.seen["s" := number] == map["s" := number];
    assert a.world.actions["a" := rec.(state := to)] == map["a" := rec.(state := to)];
  }

  lemma CanaryJobStep(v: bool, j: Job)
    requires j.id == "a" && j.rec == Record(Body, Approved, [])
    ensures var (j', r) := CanaryJob(Stuck(v).host, j, "op");
            && j'.id == "a" && j'.rec == Record(Body, if v then ActionState.Rollout else RolledBack, ["t"])
            && r == Done(if v then Promoted else Reverted)
  {
    var h := Stuck(v).host;
    var j1 := Guarded(j, {Approved}, ActionState.Canary, "op").0;
    assert Cohort(Body) == ["t"] && ["t"][1..] == [];
    var j2 := ApplyOne(h, j1, "t", ActionState.Canary, "op").0;
    assert j2.rec.applied == ["t"];
    assert ApplyTargets(h, j2, [], ActionState.Canary, "op") == (j2, 0);
    assert ApplyTargets(h, j1, ["t"], ActionState.Canary, "op") == (j2, 0);
    var j3 := Move(j2, CanaryVerify, "op", Ok);
    assert ApplyCanary(h, j1, "op") == FinishCanary(h, j3, 0.0, "op");
    if !v { RevertOneTarget(v, j3); }
  }

  lemma RevertOneTarget(v: bool, j: Job)
    requires j.rec.applied == ["t"]
    ensures var j' := RollbackApplied(Stuck(v).host, j, "op"); j'.id == j.id && j'.rec == j.rec && j'.calls != j.calls
  {
    var h := Stuck(v).host;
    assert ["t"][1..] == [];
    var j1 := RevertOne(h, j, "t", "op").0;
    assert RevertTargets(h, j1, [], "op") == (j1, []);
    assert RevertTargets(h, j, ["t"], "op") == (j1, ["t"] + []);
    assert ["t"] + [] == ["t"];
  }

  lemma ExecutionStep(v: bool, a: Agent, kind: CommandKind, rec: Record, number: nat)
    requires number > 0 && Stands(a, rec, number - 1, []) && IsExecution(kind)
    ensures var (w, r) := RunStage(Stuck(v).host, a.world, "a", StageOf(kind), "op");
            ServeCommand(Stuck(v), a, Cmd(kind, number, None), 0).0 == a.(world := w, seen := map["s" := number])
  {
    hide RunStage;
    var p, cmd := Stuck(v), Cmd(kind, number, None);
    assert GateOpen(p, a, cmd);
    assert a.seen["s" := number] == map["s" := number];
  }

  lemma CanaryStep(v: bool, a: Agent)
    requires Stands(a, Record(Body, Approved, []), 3, [])
    ensures Stands(ServeCommand(Stuck(v), a, Cmd(CommandKind.Canary, 4, None), 0).0,
                   Record(Body, if v then ActionState.Rollout else RolledBack, ["t"]), 4, [])
  {
    hide CanaryJob;
    ExecutionStep(v, a, CommandKind.Canary, Record(Body, Approved, []), 4);
    CanaryJobStep(v, Open(a.world, "a"));
    var rec := Record(Body, if v then ActionState.Rollout else RolledBack, ["t"]);
    assert a.world.actions["a" := rec] == map["a" := rec];
  }

  lemma RollbackStep(a: Agent)
    requires Stands(a, Record(Body, ActionState.Rollout, ["t"]), 4, [])
    ensures Stands(ServeCommand(Stuck(true), a, Cmd(CommandKind.Rollback, 5, None), 0).0,
                   Record(Body, RollbackIncomplete, ["t"]), 5, [])
  {
    hide RollbackApplied;
    ExecutionStep(true, a, CommandKind.Rollback, Record(Body, ActionState.Rollout, ["t"]), 5);
    RevertOneTarget(true, Open(a.world, "a"));
    var rec := Record(Body, RollbackIncomplete, ["t"]);
    assert a.world.actions["a" := rec] == map["a" := rec];
  }

  const Window := Schedule(1, 1)

  function Retry(): ControlCommand { Cmd(CommandKind.Rollback, 6, Some(Window)) }

  lemma HoldStep(a: Agent)
    requires Stands(a, Record(Body, RollbackIncomplete, ["t"]), 5, [])
    ensures Stands(ServeCommand(Stuck(true), a, Retry(), 0).0, Record(Body, RollbackIncomplete, ["t"]), 6, [Pending(Retry(), Window)])
  {
    var p, cmd := Stuck(true), Retry();
    assert GateOpen(p, a, cmd);
    assert a.seen["s" := 6] == map["s" := 6];
    assert a.pending + [Pending(cmd, Window)] == [Pending(cmd, Window)];
  }

  function Frame(cmd: ControlCommand): AgentEvent { Deliver(Command(cmd), 0) }

  /** Draft and submit. */
  function ToSubmitted(): seq<AgentEvent> {
    [OpenSession("s", 0)] + [Frame(Cmd(CommandKind.Draft(Body), 1, None))] + [Frame(Cmd(CommandKind.Submit, 2, None))]
  }

  /** Then approve and canary. */
  function ToCanary(): seq<AgentEvent> {
    ToSubmitted() + [Frame(Cmd(CommandKind.Approve, 3, None))] + [Frame(Cmd(CommandKind.Canary, 4, None))]
  }

  lemma RunLast(p: Policy, events: seq<AgentEvent>, cmd: ControlCommand)
    ensures Run(p, events + [Frame(cmd)]) == ServeCommand(p, Run(p, events), cmd, 0).0
  {
    hide ServeCommand, Run;
    RunConcat(p, events, Frame(cmd));
  }

  lemma AfterOpening(v: bool)
    ensures var a := Run(Stuck(v), [OpenSession("s", 0)]);
            a.world == EmptyWorld && a.seen == map["s" := 0] && a.pending == []
  {
    hide Step;
    var none: seq<AgentEvent> := [];
    assert none + [OpenSession("s", 0)] == [OpenSession("s", 0)];
    RunConcat(Stuck(v), none, OpenSession("s", 0));
    Opened(v);
  }

  lemma AfterSubmit(v: bool)
    ensures Stands(Run(Stuck(v), ToSubmitted()), Record(Body, PendingApproval, []), 2, [])
  {
    hide ServeCommand, Cmd, Stands, Run, Stuck;
    var p, e1 := Stuck(v), [OpenSession("s", 0)];
    AfterOpening(v);
    RunLast(p, e1, Cmd(CommandKind.Draft(Body), 1, None));
    var e2 := e1 + [Frame(Cmd(CommandKind.Draft(Body), 1, None))];
    DraftStep(v, Run(p, e1));
    RunLast(p, e2, Cmd(CommandKind.Submit, 2, None));
    MoveStep(v, Run(p, e2), CommandKind.Submit, Record(Body, DryRun, []), 2, PendingApproval);
  }

  lemma AfterCanary(v: bool)
    ensures Stands(Run(Stuck(v), ToCanary()), Record(Body, if v then ActionState.Rollout else RolledBack, ["t"]), 4, [])
  {
    hide ServeCommand, Cmd, Stands, Run, Stuck, ToSubmitted;
    var p, e3 := Stuck(v), ToSubmitted();
    AfterSubmit(v);
    RunLast(p, e3, Cmd(CommandKind.Approve, 3, None));
    var e4 := e3 + [Frame(Cmd(CommandKind.Approve, 3, None))];
    MoveStep(v, Run(p, e3), CommandKind.Approve, Record(Body, PendingApproval, []), 3, Approved);
    RunLast(p, e4, Cmd(CommandKind.Canary, 4, None));
    CanaryStep(v, Run(p, e4));
  }

  /**
   The misreport is reachable: after a failed operator rollback the retry is held, and when
   its window opens it calls the executor again and is audited as dropped.
   */
  lemma DroppedAlthoughRunHappens() returns (events: seq<AgentEvent>, e: Pending)
    ensures var a := Run(Stuck(true), events);
            var (w', verdict) := ReleaseOne(Stuck(true).host, a.world, e, 1);
            && a.pending == [e]
            && Remediation.StateOf(a.world, "a") == Some(RollbackIncomplete)
            && verdict == Dropped && w'.calls != a.world.calls
  {
    hide ServeCommand, Cmd, Run;
    var p := Stuck(true);
    AfterCanary(true);
    var e1 := ToCanary() + [Frame(Cmd(CommandKind.Rollback, 5, None))];
    RunLast(p, ToCanary(), Cmd(CommandKind.Rollback, 5, None));
    RollbackStep(Run(p, ToCanary()));
    RunLast(p, e1, Retry());
    HoldStep(Run(p, e1));
    events, e := e1 + [Frame(Retry())], Pending(Retry(), Window);
    var a := Run(p, events);
    RunSound(p, events);
    RetryKind();
    DroppedAlthoughRun(p.host, a.world, e, 1);
    assert ToRevert(a.world.actions["a"]) == ["t"];
    assert SomeRevertFails(p.host, a.world.calls, Body, ["t"]);
  }

  lemma RetryKind()
    ensures Retry().kind == CommandKind.Rollback && Retry().actionId == "a"
  {
  }

  /** A canary that gives up can leave its host with the change in a finished action. */
  lemma CanaryStrandsHost()
    ensures var w := Run(Stuck(false), ToCanary()).world;
            Remediation.StateOf(w, "a") == Some(RolledBack) && Live(w.calls, "a") == multiset{"t"}
  {
    hide Run;
    AfterCanary(false);
    AppliedMatchesExecutor(Stuck(false), ToCanary(), "a");
    assert multiset(["t"]) == multiset{"t"};
  }
}
