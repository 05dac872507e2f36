/**
 The signed control channel on the agent's side: commands, signatures, the replay
 guard, the gates in front of the bridge, the scheduler of windowed commands and the
 loop that serves one frame at a time.

 Signatures are ideal terms: one is either really made with a key over a payload or is
 junk that verifies under no key. A payload is the tuple of the unsigned fields.
 */
module Control {
  import opened Basics
  import opened Remediation

  type Key = nat

  datatype CommandKind =
    | Draft(action: Action) | Submit | Approve | Reject(reason: string) | Abort(reason: string)
    | Canary | Rollout | Rollback

  datatype Schedule = Schedule(notBefore: nat, notAfter: nat)

  datatype CommandOutcome = Applied | Rejected

  /** Why a command was refused. */
  datatype Denial =
    | BadSignature(name: string, id: string)
    | Stale(session: string, number: nat, id: string)
    | NotPermitted(actor: string, name: string, id: string)
    | DraftMismatch(commandId: string, draftId: string)
    | AlreadyExists(id: string)
    | NeedsOrchestrator(name: string)
    | NotExecution
    | OnlyInWindow
    | NoWindow(name: string, id: string)
    | Expired(name: string, id: string, window: Schedule, now: nat)
    | ByBridge(why: Refusal)

  datatype Detail =
    | AppliedText | PreviewText | StageText(stage: StageOutcome) | ScheduledText(window: Schedule)
    | DeniedText(why: Denial)

  datatype Payload =
    | CommandPayload(actionId: string, kind: CommandKind, actor: string, session: string, number: nat,
                     schedule: Option<Schedule>)
    | ResultPayload(actionId: string, outcome: CommandOutcome, detail: Detail, agent: string,
                    session: string, number: nat, stage: Option<StageOutcome>)

  datatype Signature = Signed(key: Key, payload: Payload) | Junk(text: string)

  datatype ControlCommand = ControlCommand(
    actionId: string, kind: CommandKind, actor: string, session: string, number: nat,
    schedule: Option<Schedule>, signature: Signature)
  {
    function Unsigned(): Payload {
      CommandPayload(actionId, kind, actor, session, number, schedule)
    }
  }

  datatype CommandResult = CommandResult(
    actionId: string, outcome: CommandOutcome, detail: Detail, agent: string,
    session: string, number: nat, stage: Option<StageOutcome>, signature: Signature)
  {
    function Unsigned(): Payload {
      ResultPayload(actionId, outcome, detail, agent, session, number, stage)
    }
  }

  /** What crosses the wire, after decoding. */
  datatype Wire = Malformed | Command(cmd: ControlCommand) | Result(result: CommandResult)

  function Label(kind: CommandKind): string {
    match kind
    case Draft(_) => "Draft"
    case Submit => "Submit"
    case Approve => "Approve"
    case Reject(_) => "Reject"
    case Abort(_) => "Abort"
    case Canary => "Canary"
    case Rollout => "Rollout"
    case Rollback => "Rollback"
  }

  predicate IsExecution(kind: CommandKind) {
    kind.Canary? || kind.Rollout? || kind.Rollback?
  }

  function StageOf(kind: CommandKind): Stage
    requires IsExecution(kind)
  {
    if kind.Canary? then CanaryStage else if kind.Rollout? then RolloutStage else RollbackStage
  }

  /** Everything the loop consults but never changes. */
  datatype Policy = Policy(
    trusted: map<string, set<Key>>, permits: (string, CommandKind) -> bool, host: Host,
    agentName: string, agentKey: Key)

  /** Some currently trusted key of `actor` made this signature over this payload. */
  predicate Verifies(trusted: map<string, set<Key>>, payload: Payload, signature: Signature, actor: string) {
    && actor in trusted
    && signature.Signed?
    && signature.key in trusted[actor]
    && signature.payload == payload
  }

  predicate Authentic(p: Policy, cmd: ControlCommand) {
    Verifies(p.trusted, cmd.Unsigned(), cmd.signature, cmd.actor)
  }

  // ----- the replay guard -----

  /** Per session, the highest sequence number admitted so far. */
  type Marks = map<string, nat>

  predicate Fresh(seen: Marks, session: string, number: nat) {
    session in seen && number > seen[session]
  }

  function Admit(seen: Marks, session: string, number: nat): (Marks, bool) {
    if Fresh(seen, session, number) then (seen[session := number], true) else (seen, false)
  }

  // ----- the agent -----

  datatype Pending = Pending(cmd: ControlCommand, schedule: Schedule)

  datatype Agent = Agent(world: World, seen: Marks, pending: seq<Pending>)

  const NewAgent := Agent(EmptyWorld, map[], [])

  function Lift(r: Reply<(), Refusal>): Reply<(), Denial> {
    match r case Done(v) => Done(v) case Refuse(why) => Refuse(ByBridge(why))
  }

  function LiftStage(r: Reply<StageOutcome, Refusal>): Reply<StageOutcome, Denial> {
    match r case Done(v) => Done(v) case Refuse(why) => Refuse(ByBridge(why))
  }

  function DispatchLifecycle(w: World, cmd: ControlCommand): (World, Reply<(), Denial>) {
    match cmd.kind
    case Draft(action) =>
      if action.id != cmd.actionId then
        (AuditRejected(w, cmd.actionId, cmd.actor), Refuse(DraftMismatch(cmd.actionId, action.id)))
      else if action.id in w.actions then
        (AuditRejected(w, action.id, cmd.actor), Refuse(AlreadyExists(action.id)))
      else
        var (w1, r) := Remediation.Draft(w, action, cmd.actor); (w1, Lift(r))
    case Submit => var (w1, r) := Remediation.Submit(w, cmd.actionId, cmd.actor); (w1, Lift(r))
    case Approve => var (w1, r) := Remediation.Approve(w, cmd.actionId, cmd.actor); (w1, Lift(r))
    case Reject(_) => var (w1, r) := RejectAction(w, cmd.actionId, cmd.actor); (w1, Lift(r))
    case Abort(_) => var (w1, r) := Remediation.Abort(w, cmd.actionId, cmd.actor); (w1, Lift(r))
    case _ => (w, Refuse(NeedsOrchestrator(Label(cmd.kind))))
  }

  /** Authentication, then authorization, then the gated bridge operation. */
  function Dispatch(p: Policy, w: World, cmd: ControlCommand): (World, Reply<(), Denial>) {
    if !Authentic(p, cmd) then
      (AuditRejected(w, cmd.actionId, cmd.actor), Refuse(BadSignature(Label(cmd.kind), cmd.actionId)))
    else if !p.permits(cmd.actor, cmd.kind) then
      (AuditRejected(w, cmd.actionId, cmd.actor), Refuse(NotPermitted(cmd.actor, Label(cmd.kind), cmd.actionId)))
    else DispatchLifecycle(w, cmd)
  }

  function Refused(a: Agent, cmd: ControlCommand): Agent {
    a.(world := AuditRejected(a.world, cmd.actionId, cmd.actor))
  }

  /** Authentication before freshness: only an authentic command advances the mark. */
  function AdmitAuthentic(p: Policy, a: Agent, cmd: ControlCommand): (Agent, Reply<(), Denial>) {
    if !Authentic(p, cmd) then (Refused(a, cmd), Refuse(BadSignature(Label(cmd.kind), cmd.actionId)))
    else
      var (seen, newer) := Admit(a.seen, cmd.session, cmd.number);
      if !newer then (Refused(a, cmd), Refuse(Stale(cmd.session, cmd.number, cmd.actionId)))
      else (a.(seen := seen), Done(()))
  }

  function DispatchFresh(p: Policy, a: Agent, cmd: ControlCommand): (Agent, Reply<(), Denial>) {
    var (a1, gate) := AdmitAuthentic(p, a, cmd);
    if gate.Refuse? then (a1, gate)
    else var (w, r) := Dispatch(p, a1.world, cmd); (a1.(world := w), r)
  }

  function GateExecution(p: Policy, a: Agent, cmd: ControlCommand): (Agent, Reply<(), Denial>) {
    var (a1, gate) := AdmitAuthentic(p, a, cmd);
    if gate.Refuse? then (a1, gate)
    else if !p.permits(cmd.actor, cmd.kind) then
      (Refused(a1, cmd), Refuse(NotPermitted(cmd.actor, Label(cmd.kind), cmd.actionId)))
    else if !IsExecution(cmd.kind) then (a1, Refuse(NotExecution))
    else (a1, Done(()))
  }

  function DispatchExecutionFresh(p: Policy, a: Agent, cmd: ControlCommand)
    : (Agent, Reply<StageOutcome, Denial>)
  {
    var (a1, gate) := GateExecution(p, a, cmd);
    if gate.Refuse? then (a1, Refuse(gate.why))
    else if cmd.schedule.Some? then (Refused(a1, cmd), Refuse(OnlyInWindow))
    else if !IsExecution(cmd.kind) then (a1, Refuse(NotExecution))
    else
      var (w, r) := RunStage(p.host, a1.world, cmd.actionId, StageOf(cmd.kind), cmd.actor);
      (a1.(world := w), LiftStage(r))
  }

  // ----- the scheduler -----

  function Enqueue(p: Policy, a: Agent, cmd: ControlCommand, now: nat): (Agent, Reply<Schedule, Denial>) {
    var (a1, gate) := GateExecution(p, a, cmd);
    if gate.Refuse? then (a1, Refuse(gate.why))
    else if cmd.schedule.None? then (Refused(a1, cmd), Refuse(NoWindow(Label(cmd.kind), cmd.actionId)))
    else
      var window := cmd.schedule.value;
      if now > window.notAfter then
        (Refused(a1, cmd), Refuse(Expired(Label(cmd.kind), cmd.actionId, window, now)))
      else (a1.(pending := a1.pending + [Pending(cmd, window)]), Done(window))
  }

  /** What a tick does with one held command. */
  datatype Verdict = Missed | Waiting | Fired(outcome: StageOutcome) | RanAndFailed | Dropped

  function ReleaseOne(h: Host, w: World, e: Pending, now: nat): (World, Verdict) {
    var id := e.cmd.actionId;
    if now > e.schedule.notAfter then (AuditRejected(w, id, e.cmd.actor), Missed)
    else if now < e.schedule.notBefore then (w, Waiting)
    else if !IsExecution(e.cmd.kind) then (AuditRejected(w, id, e.cmd.actor), Dropped)
    else
      var (w1, r) := RunStage(h, w, id, StageOf(e.cmd.kind), e.cmd.actor);
      if r.Done? then (w1, Fired(r.value))
      else if Remediation.StateOf(w1, id) != Remediation.StateOf(w, id) then
        (AuditFailure(w1, id, e.cmd.actor), RanAndFailed)
      else (AuditRejected(w1, id, e.cmd.actor), Dropped)
  }

  /** Goes over the held commands in order; keeps the ones still waiting. */
  function ReleaseAll(h: Host, w: World, held: seq<Pending>, now: nat)
    : (World, seq<Pending>, seq<(string, StageOutcome)>)
    decreases |held|
  {
    if held == [] then (w, [], [])
    else
      var (w1, verdict) := ReleaseOne(h, w, held[0], now);
      var (w2, kept, fired) := ReleaseAll(h, w1, held[1..], now);
      (w2,
       if verdict == Waiting then [held[0]] + kept else kept,
       if verdict.Fired? then [(held[0].cmd.actionId, verdict.outcome)] + fired else fired)
  }

  function Tick(p: Policy, a: Agent, now: nat): (Agent, seq<(string, StageOutcome)>) {
    var (w, kept, fired) := ReleaseAll(p.host, a.world, a.pending, now);
    (a.(world := w, pending := kept), fired)
  }

  function NotFor(held: seq<Pending>, id: string): (r: seq<Pending>)
    ensures forall e :: e in r <==> e in held && e.cmd.actionId != id
  {
    if held == [] then []
    else if held[0].cmd.actionId == id then NotFor(held[1..], id)
    else [held[0]] + NotFor(held[1..], id)
  }

  /** One rejection is audited per cancelled command. */
  function AuditCancelled(w: World, held: seq<Pending>, id: string): World
    decreases |held|
  {
    if held == [] then w
    else
      var w1 := if held[0].cmd.actionId == id then AuditRejected(w, id, held[0].cmd.actor) else w;
      AuditCancelled(w1, held[1..], id)
  }

  function Cancel(a: Agent, id: string): Agent {
    a.(world := AuditCancelled(a.world, a.pending, id), pending := NotFor(a.pending, id))
  }

  // ----- serving one frame -----

  /** Echoes the command's identity and signs with the agent's key. */
  function SignOutcome(p: Policy, cmd: ControlCommand, outcome: CommandOutcome, detail: Detail,
                       stage: Option<StageOutcome>): CommandResult {
    var unsigned := CommandResult(cmd.actionId, outcome, detail, p.agentName, cmd.session, cmd.number, stage, Junk(""));
    unsigned.(signature := Signed(p.agentKey, unsigned.Unsigned()))
  }

  function HandleFresh(p: Policy, a: Agent, cmd: ControlCommand): (Agent, CommandResult) {
    var (a1, r) := DispatchFresh(p, a, cmd);
    match r
    case Done(_) => (a1, SignOutcome(p, cmd, Applied, AppliedText, None))
    case Refuse(why) => (a1, SignOutcome(p, cmd, CommandOutcome.Rejected, DeniedText(why), None))
  }

  function HandleDraftFresh(p: Policy, a: Agent, cmd: ControlCommand): (Agent, CommandResult) {
    var (a1, r) := DispatchFresh(p, a, cmd);
    match r
    case Refuse(why) => (a1, SignOutcome(p, cmd, CommandOutcome.Rejected, DeniedText(why), None))
    case Done(_) =>
      var (w, d) := DryRunAction(a1.world, cmd.actionId, cmd.actor);
      match d
      case Done(_) => (a1.(world := w), SignOutcome(p, cmd, Applied, PreviewText, None))
      case Refuse(why) => (a1.(world := w), SignOutcome(p, cmd, CommandOutcome.Rejected, DeniedText(ByBridge(why)), None))
  }

  function ExecuteFresh(p: Policy, a: Agent, cmd: ControlCommand): (Agent, CommandResult) {
    var (a1, r) := DispatchExecutionFresh(p, a, cmd);
    match r
    case Done(stage) => (a1, SignOutcome(p, cmd, Applied, StageText(stage), Some(stage)))
    case Refuse(why) => (a1, SignOutcome(p, cmd, CommandOutcome.Rejected, DeniedText(why), None))
  }

  function EnqueueFresh(p: Policy, a: Agent, cmd: ControlCommand, now: nat): (Agent, CommandResult) {
    var (a1, r) := Enqueue(p, a, cmd, now);
    match r
    case Done(window) => (a1, SignOutcome(p, cmd, Applied, ScheduledText(window), None))
    case Refuse(why) => (a1, SignOutcome(p, cmd, CommandOutcome.Rejected, DeniedText(why), None))
  }

  function HandleLifecycle(p: Policy, a: Agent, cmd: ControlCommand): (Agent, CommandResult) {
    var (a1, result) := HandleFresh(p, a, cmd);
    if cmd.kind.Abort? && result.outcome == Applied then (Cancel(a1, cmd.actionId), result)
    else (a1, result)
  }

  function ServeCommand(p: Policy, a: Agent, cmd: ControlCommand, now: nat): (Agent, CommandResult) {
    if IsExecution(cmd.kind) then
      if cmd.schedule.Some? then EnqueueFresh(p, a, cmd, now) else ExecuteFresh(p, a, cmd)
    else if cmd.kind.Draft? then HandleDraftFresh(p, a, cmd)
    else HandleLifecycle(p, a, cmd)
  }

  function ServeOne(p: Policy, a: Agent, wire: Wire, now: nat): (Agent, Option<CommandResult>) {
    match wire
    case Malformed => (a, None)
    case Result(_) => (a, None)
    case Command(cmd) => var (a1, result) := ServeCommand(p, a, cmd, now); (a1, Some(result))
  }

  // ----- runs -----

  datatype AgentEvent =
    | Deliver(wire: Wire, now: nat)
    | Release(now: nat)
    | OpenSession(session: string, from: nat)

  function Step(p: Policy, a: Agent, e: AgentEvent): Agent {
    match e
    case Deliver(wire, now) => ServeOne(p, a, wire, now).0
    case Release(now) => Tick(p, a, now).0
    case OpenSession(session, from) => a.(seen := a.seen[session := from])
  }

  function Run(p: Policy, events: seq<AgentEvent>): Agent
    decreases |events|
  {
    if events == [] then NewAgent
    else Step(p, Run(p, events[..|events| - 1]), events[|events| - 1])
  }
}
