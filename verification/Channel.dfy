/**
 Issuer and agent joined by a network that may drop, repeat, reorder and invent frames.
 The one thing it cannot do is make up a signature of an honest key.
 */
module Channel {
  import opened Basics
  import opened Remediation
  import opened BridgeLaws
  import opened Control
  import opened AgentLaws
  import opened AgentRuns

  // ----- the issuer -----

  type Token = (string, nat)

  function Accept(outstanding: set<Token>, trusted: map<string, set<Key>>, r: CommandResult): (set<Token>, bool) {
    var token := (r.session, r.number);
    if token !in outstanding then (outstanding, false)
    else if !Verifies(trusted, r.Unsigned(), r.signature, r.agent) then (outstanding, false)
    else (outstanding - {token}, true)
  }

  function AwaitResult(outstanding: set<Token>, trusted: map<string, set<Key>>, wire: Wire)
    : (set<Token>, Option<CommandResult>)
  {
    match wire
    case Result(r) => var (rest, ok) := Accept(outstanding, trusted, r); (rest, if ok then Some(r) else None)
    case _ => (outstanding, None)
  }

  class ResultCorrelator {
    var outstanding: set<Token>

    constructor ()
      ensures outstanding == {}
    {
      outstanding := {};
    }

    method Issue(session: string, number: nat)
      modifies this
      ensures outstanding == old(outstanding) + {(session, number)}
    {
      outstanding := outstanding + {(session, number)};
    }

    method TryAccept(r: CommandResult, trusted: map<string, set<Key>>) returns (ok: bool)
      modifies this
      ensures (outstanding, ok) == Accept(old(outstanding), trusted, r)
    {
      var token := (r.session, r.number);
      if token !in outstanding {
        return false;
      }
      if !Verifies(trusted, r.Unsigned(), r.signature, r.agent) {
        return false;
      }
      outstanding := outstanding - {token};
      return true;
    }
  }

  class ControlPlaneClient {
    const corr: ResultCorrelator
    const trusted: map<string, set<Key>>

    constructor (trusted: map<string, set<Key>>)
      ensures this.trusted == trusted && fresh(corr) && corr.outstanding == {}
    {
      this.trusted := trusted;
      corr := new ResultCorrelator();
    }

    /** Records the command as awaiting a result before it is put on the wire. */
    method SendCommand(cmd: ControlCommand) returns (wire: Wire)
      modifies corr
      ensures corr.outstanding == old(corr.outstanding) + {(cmd.session, cmd.number)}
      ensures wire == Command(cmd)
    {
      corr.Issue(cmd.session, cmd.number);
      wire := Command(cmd);
    }

    method ReceiveResult(wire: Wire) returns (result: Option<CommandResult>)
      modifies corr
      ensures (corr.outstanding, result) == AwaitResult(old(corr.outstanding), trusted, wire)
    {
      match wire {
        case Result(r) =>
          var ok := corr.TryAccept(r, trusted);
          if ok {
            return Some(r);
          }
          return None;
        case _ => return None;
      }
    }
  }

  // ----- the whole channel -----

  datatype ChannelEvent =
    | Issue(cmd: ControlCommand)
    | ToAgent(wire: Wire, now: nat)
    | ToIssuer(wire: Wire)
    | AgentTick(now: nat)
    | AgentOpen(session: string, from: nat)

  /** `answers` pairs each consumed command frame with the result the agent signed for it. */
  datatype Answer = Answer(cmd: ControlCommand, result: CommandResult)

  datatype System = System(
    agent: Agent, outstanding: set<Token>, issued: seq<ControlCommand>, answers: seq<Answer>,
    accepted: seq<CommandResult>)

  const Start := System(NewAgent, {}, [], [], [])

  function Next(p: Policy, trusted: map<string, set<Key>>, s: System, e: ChannelEvent): System {
    match e
    case Issue(cmd) =>
      s.(outstanding := s.outstanding + {(cmd.session, cmd.number)}, issued := s.issued + [cmd])
    case ToAgent(wire, now) =>
      var (agent, answer) := ServeOne(p, s.agent, wire, now);
      s.(agent := agent,
         answers := if answer.Some? && wire.Command? then s.answers + [Answer(wire.cmd, answer.value)] else s.answers)
    case ToIssuer(wire) =>
      var (rest, result) := AwaitResult(s.outstanding, trusted, wire);
      s.(outstanding := rest, accepted := if result.Some? then s.accepted + [result.value] else s.accepted)
    case AgentTick(now) => s.(agent := Step(p, s.agent, Release(now)))
    case AgentOpen(session, from) => s.(agent := Step(p, s.agent, OpenSession(session, from)))
  }

  function RunChannel(p: Policy, trusted: map<string, set<Key>>, events: seq<ChannelEvent>): System
    decreases |events|
  {
    if events == [] then Start
    else Next(p, trusted, RunChannel(p, trusted, events[..|events| - 1]), events[|events| - 1])
  }

  /** The agent's share of a channel run. */
  function AgentPart(events: seq<ChannelEvent>): seq<AgentEvent>
    decreases |events|
  {
    if events == [] then []
    else
      var before := AgentPart(events[..|events| - 1]);
      match events[|events| - 1]
      case ToAgent(wire, now) => before + [Deliver(wire, now)]
      case AgentTick(now) => before + [Release(now)]
      case AgentOpen(session, from) => before + [OpenSession(session, from)]
      case _ => before
  }

  /** Inside the channel the agent is just an agent run, so every theorem about those applies. */
  lemma {:induction false} AgentIsRun(p: Policy, trusted: map<string, set<Key>>, events: seq<ChannelEvent>)
    ensures RunChannel(p, trusted, events).agent == Run(p, AgentPart(events))
    decreases |events|
  {
    hide Step, ServeOne;
    if events != [] {
      var before := events[..|events| - 1];
      AgentIsRun(p, trusted, before);
      match events[|events| - 1] {
        case ToAgent(wire, now) => DeliverStep(p, AgentPart(before), wire, now);
        case AgentTick(now) => RunConcat(p, AgentPart(before), Release(now));
        case AgentOpen(session, from) => RunConcat(p, AgentPart(before), OpenSession(session, from));
        case _ =>
      }
    }
  }

  lemma DeliverStep(p: Policy, events: seq<AgentEvent>, wire: Wire, now: nat)
    ensures Run(p, events + [Deliver(wire, now)]) == ServeOne(p, Run(p, events), wire, now).0
  {
    RunConcat(p, events, Deliver(wire, now));
  }

  // ----- counting -----

  ghost function TimesIssued(issued: seq<ControlCommand>, token: Token): nat {
    if issued == [] then 0
    else
      var c := issued[|issued| - 1];
      TimesIssued(issued[..|issued| - 1], token) + if (c.session, c.number) == token then 1 else 0
  }

  ghost function TimesAccepted(accepted: seq<CommandResult>, token: Token): nat {
    if accepted == [] then 0
    else
      var r := accepted[|accepted| - 1];
      TimesAccepted(accepted[..|accepted| - 1], token) + if (r.session, r.number) == token then 1 else 0
  }

  /** Whatever arrives, a token is accepted at most as often as it was issued, and once less
      while it is still outstanding. */
  lemma {:induction false} AcceptedAtMostIssued(p: Policy, trusted: map<string, set<Key>>, events: seq<ChannelEvent>, token: Token)
    ensures var s := RunChannel(p, trusted, events);
            TimesAccepted(s.accepted, token) + (if token in s.outstanding then 1 else 0) <= TimesIssued(s.issued, token)
    decreases |events|
  {
    hide Next;
    if events != [] {
      var before := events[..|events| - 1];
      AcceptedAtMostIssued(p, trusted, before, token);
      IssueAcceptStep(p, trusted, RunChannel(p, trusted, before), events[|events| - 1], token);
    }
  }

  lemma IssuedAppend(issued: seq<ControlCommand>, c: ControlCommand, token: Token)
    ensures TimesIssued(issued + [c], token) == TimesIssued(issued, token) + if (c.session, c.number) == token then 1 else 0
  {
    assert (issued + [c])[..|issued|] == issued;
  }

  lemma AcceptedAppend(accepted: seq<CommandResult>, r: CommandResult, token: Token)
    ensures TimesAccepted(accepted + [r], token) ==
            TimesAccepted(accepted, token) + if (r.session, r.number) == token then 1 else 0
  {
    assert (accepted + [r])[..|accepted|] == accepted;
  }

  /** What the issuer's set and log become on a frame from the network. */
  lemma ReceiveStep(p: Policy, trusted: map<string, set<Key>>, s: System, wire: Wire, token: Token)
    ensures var s' := Next(p, trusted, s, ToIssuer(wire));
            var hit := wire.Result? && (wire.result.session, wire.result.number) == token
                       && Accept(s.outstanding, trusted, wire.result).1;
            && s'.issued == s.issued && s'.agent == s.agent && s'.answers == s.answers
            && TimesAccepted(s'.accepted, token) == TimesAccepted(s.accepted, token) + (if hit then 1 else 0)
            && (hit ==> token in s.outstanding && token !in s'.outstanding)
            && (!hit ==> (token in s'.outstanding <==> token in s.outstanding))
  {
    hide Step, ServeOne, TimesAccepted, Verifies;
    if wire.Result? { AcceptedAppend(s.accepted, wire.result, token); }
  }

  lemma IssueAcceptStep(p: Policy, trusted: map<string, set<Key>>, s: System, e: ChannelEvent, token: Token)
    requires TimesAccepted(s.accepted, token) + (if token in s.outstanding then 1 else 0) <= TimesIssued(s.issued, token)
    ensures var s' := Next(p, trusted, s, e);
            TimesAccepted(s'.accepted, token) + (if token in s'.outstanding then 1 else 0) <= TimesIssued(s'.issued, token)
  {
    hide Step, ServeOne, AwaitResult, Accept, TimesAccepted, TimesIssued;
    match e {
      case Issue(cmd) => IssuedAppend(s.issued, cmd, token);
      case ToIssuer(wire) => ReceiveStep(p, trusted, s, wire, token);
      case _ =>
    }
  }

  // ----- what an accepted result proves -----

  /** The network cannot make up a signature of the agent. */
  ghost predicate Unforged(p: Policy, s: System, e: ChannelEvent) {
    e.ToIssuer? && e.wire.Result? && e.wire.result.signature.Signed? && e.wire.result.signature.key == p.agentKey ==>
      exists i :: 0 <= i < |s.answers| && s.answers[i].result.signature == e.wire.result.signature
  }

  ghost predicate Possible(p: Policy, trusted: map<string, set<Key>>, events: seq<ChannelEvent>) {
    forall n :: 0 <= n < |events| ==> Unforged(p, RunChannel(p, trusted, events[..n]), events[n])
  }

  /** The issuer trusts no key but the agent's. */
  ghost predicate TrustsOnly(trusted: map<string, set<Key>>, key: Key) {
    forall actor :: actor in trusted ==> trusted[actor] <= {key}
  }

  /** The agent signed `a.result` for `a.cmd` with these very fields. */
  ghost predicate Vouches(p: Policy, a: Answer, r: CommandResult) {
    && a.result.Unsigned() == r.Unsigned()
    && r.actionId == a.cmd.actionId && r.session == a.cmd.session && r.number == a.cmd.number
    && a.result.signature == Signed(p.agentKey, r.Unsigned())
  }

  ghost predicate AnswerSound(p: Policy, ledger: seq<ControlCommand>, a: Answer) {
    && Vouches(p, a, a.result)
    && (a.result.outcome == Applied ==> a.cmd in ledger)
  }

  /** Every answer echoes its command, and an Applied answer is for a command that passed
      all gates. */
  lemma {:induction false} AnswersSound(p: Policy, trusted: map<string, set<Key>>, events: seq<ChannelEvent>)
    ensures var s := RunChannel(p, trusted, events);
            forall i :: 0 <= i < |s.answers| ==> AnswerSound(p, Ledger(p, AgentPart(events)), s.answers[i])
    decreases |events|
  {
    hide Step, ServeOne, AwaitResult;
    if events != [] {
      var before := events[..|events| - 1];
      var e := events[|events| - 1];
      var s, s' := RunChannel(p, trusted, before), RunChannel(p, trusted, events);
      AnswersSound(p, trusted, before);
      AgentIsRun(p, trusted, before);
      LedgerStep(p, events);
      forall i | 0 <= i < |s'.answers| ensures AnswerSound(p, Ledger(p, AgentPart(events)), s'.answers[i]) {
        if i < |s.answers| {
          assert s'.answers[i] == s.answers[i];
        } else {
          NewAnswerSound(p, AgentPart(before), e.wire, e.now);
          assert AgentPart(events) == AgentPart(before) + [Deliver(e.wire, e.now)];
        }
      }
    }
  }

  lemma LedgerStep(p: Policy, events: seq<ChannelEvent>)
    requires events != []
    ensures Ledger(p, AgentPart(events[..|events| - 1])) <= Ledger(p, AgentPart(events))
  {
    var before := AgentPart(events[..|events| - 1]);
    if AgentPart(events) != before {
      assert AgentPart(events)[..|before|] == before;
    }
  }

  lemma NewAnswerSound(p: Policy, events: seq<AgentEvent>, wire: Wire, now: nat)
    requires wire.Command?
    ensures var answer := ServeOne(p, Run(p, events), wire, now).1;
            answer.Some? && AnswerSound(p, Ledger(p, events + [Deliver(wire, now)]), Answer(wire.cmd, answer.value))
  {
    hide ServeOne;
    FrameAnswered(p, events, wire, now);
    assert (events + [Deliver(wire, now)])[..|events|] == events;
    if GateOpen(p, Run(p, events), wire.cmd) {
      assert wire.cmd in Passed(p, Run(p, events), Deliver(wire, now));
    }
  }

  ghost predicate Vouched(p: Policy, ledger: seq<ControlCommand>, answers: seq<Answer>, r: CommandResult) {
    exists i :: 0 <= i < |answers| && Vouches(p, answers[i], r) && (r.outcome == Applied ==> answers[i].cmd in ledger)
  }

  /**
   Every accepted result agrees in all signed fields with one the agent really signed for
   a command frame it consumed, with that action id, session and number; and an accepted
   Applied answers a command that was authentic, fresh and permitted at the agent.
   */
  lemma {:induction false} AcceptedIsGenuine(p: Policy, trusted: map<string, set<Key>>, events: seq<ChannelEvent>)
    requires Possible(p, trusted, events) && TrustsOnly(trusted, p.agentKey)
    ensures var s := RunChannel(p, trusted, events);
            forall r :: r in s.accepted ==> Vouched(p, Ledger(p, AgentPart(events)), s.answers, r)
    decreases |events|
  {
    hide Next, Vouches, Ledger, Unforged, Possible;
    if events != [] {
      var before := events[..|events| - 1];
      var e := events[|events| - 1];
      var s, s' := RunChannel(p, trusted, before), RunChannel(p, trusted, events);
      PossibleBefore(p, trusted, events);
      AcceptedIsGenuine(p, trusted, before);
      LedgerStep(p, events);
      LogsGrow(p, trusted, s, e);
      forall r | r in s'.accepted ensures Vouched(p, Ledger(p, AgentPart(events)), s'.answers, r) {
        if r in s.accepted {
          var i :| 0 <= i < |s.answers| && Vouches(p, s.answers[i], r)
                   && (r.outcome == Applied ==> s.answers[i].cmd in Ledger(p, AgentPart(before)));
          assert s'.answers[i] == s.answers[i];
        } else {
          AnswersSound(p, trusted, before);
          NewlyAcceptedVouched(p, trusted, Ledger(p, AgentPart(before)), s, r);
          var i :| 0 <= i < |s.answers| && Vouches(p, s.answers[i], r)
                   && (r.outcome == Applied ==> s.answers[i].cmd in Ledger(p, AgentPart(before)));
          assert s'.answers[i] == s.answers[i];
        }
      }
    }
  }

  lemma PossibleBefore(p: Policy, trusted: map<string, set<Key>>, events: seq<ChannelEvent>)
    requires events != [] && Possible(p, trusted, events)
    ensures var before := events[..|events| - 1];
            Possible(p, trusted, before) && Unforged(p, RunChannel(p, trusted, before), events[|events| - 1])
  {
    hide RunChannel, Unforged;
    var before := events[..|events| - 1];
    forall n | 0 <= n < |before| ensures Unforged(p, RunChannel(p, trusted, before[..n]), before[n]) {
      assert before[..n] == events[..n];
    }
  }

  lemma LogsGrow(p: Policy, trusted: map<string, set<Key>>, s: System, e: ChannelEvent)
    ensures var s' := Next(p, trusted, s, e);
            && s.answers <= s'.answers
            && forall r :: r in s'.accepted && r !in s.accepted ==>
                 e == ToIssuer(Result(r)) && Accept(s.outstanding, trusted, r).1
  {
    hide Step, ServeOne;
  }

  lemma NewlyAcceptedVouched(p: Policy, trusted: map<string, set<Key>>, ledger: seq<ControlCommand>, s: System, r: CommandResult)
    requires TrustsOnly(trusted, p.agentKey) && Accept(s.outstanding, trusted, r).1
    requires Unforged(p, s, ToIssuer(Result(r)))
    requires forall i :: 0 <= i < |s.answers| ==> AnswerSound(p, ledger, s.answers[i])
    ensures Vouched(p, ledger, s.answers, r)
  {
    var i :| 0 <= i < |s.answers| && s.answers[i].result.signature == r.signature;
    assert AnswerSound(p, ledger, s.answers[i]);
    assert Vouches(p, s.answers[i], r);
  }

  /** The network cannot make up an operator's signature either: an authentic command at the
      agent is one the issuer issued, whoever delivered the copy. */
  ghost predicate OperatorsHonest(p: Policy, trusted: map<string, set<Key>>, events: seq<ChannelEvent>) {
    forall n :: 0 <= n < |events| && events[n].ToAgent? && events[n].wire.Command? && Authentic(p, events[n].wire.cmd) ==>
      exists c :: c in RunChannel(p, trusted, events[..n]).issued && c.Unsigned() == events[n].wire.cmd.Unsigned()
  }

  lemma {:induction false} IssuedGrows(p: Policy, trusted: map<string, set<Key>>, events: seq<ChannelEvent>, n: nat, c: ControlCommand)
    requires n <= |events| && c in RunChannel(p, trusted, events[..n]).issued
    ensures c in RunChannel(p, trusted, events).issued
    decreases |events|
  {
    hide Step, ServeOne, AwaitResult;
    if n < |events| {
      assert events[..|events| - 1][..n] == events[..n];
      IssuedGrows(p, trusted, events[..|events| - 1], n, c);
    } else {
      assert events[..n] == events;
    }
  }

  lemma {:induction false} DeliveredInChannel(events: seq<ChannelEvent>, t: nat, wire: Wire)
    requires t < |AgentPart(events)| && AgentPart(events)[t].Deliver? && AgentPart(events)[t].wire == wire
    ensures exists n :: 0 <= n < |events| && events[n].ToAgent? && events[n].wire == wire
    decreases |events|
  {
    var before := events[..|events| - 1];
    if t < |AgentPart(before)| {
      DeliveredInChannel(before, t, wire);
      var n :| 0 <= n < |before| && before[n].ToAgent? && before[n].wire == wire;
      assert events[n] == before[n];
    } else {
      assert events[|events| - 1].ToAgent? && events[|events| - 1].wire == wire;
    }
  }

  /**
   End to end: when the issuer holds an accepted Applied, it had itself issued a command
   with that action id, session and number, and the agent let exactly that payload
   through all its gates.
   */
  lemma AcceptedAppliedWasIssued(p: Policy, trusted: map<string, set<Key>>, events: seq<ChannelEvent>, r: CommandResult)
    requires Possible(p, trusted, events) && TrustsOnly(trusted, p.agentKey) && OperatorsHonest(p, trusted, events)
    requires r in RunChannel(p, trusted, events).accepted && r.outcome == Applied
    ensures exists c, passed ::
              && c in RunChannel(p, trusted, events).issued && passed in Ledger(p, AgentPart(events))
              && c.Unsigned() == passed.Unsigned()
              && c.actionId == r.actionId && c.session == r.session && c.number == r.number
  {
    hide RunChannel, Ledger, AgentPart;
    AcceptedIsGenuine(p, trusted, events);
    var s := RunChannel(p, trusted, events);
    assert Vouched(p, Ledger(p, AgentPart(events)), s.answers, r);
    var i :| 0 <= i < |s.answers| && Vouches(p, s.answers[i], r) && s.answers[i].cmd in Ledger(p, AgentPart(events));
    var passed := s.answers[i].cmd;
    LedgerGenuine(p, AgentPart(events), passed);
    var t :| 0 <= t < |AgentPart(events)| && AgentPart(events)[t].Deliver? && AgentPart(events)[t].wire == Command(passed);
    DeliveredInChannel(events, t, Command(passed));
    var n :| 0 <= n < |events| && events[n].ToAgent? && events[n].wire == Command(passed);
    var c :| c in RunChannel(p, trusted, events[..n]).issued && c.Unsigned() == events[n].wire.cmd.Unsigned();
    IssuedGrows(p, trusted, events, n, c);
  }

  // ----- refused frames do no harm -----

  /** An outstanding token stays outstanding through anything that is not an acceptance of it. */
  lemma {:induction false} OutstandingUntilAccepted(p: Policy, trusted: map<string, set<Key>>, events: seq<ChannelEvent>,
                                                   more: seq<ChannelEvent>, token: Token)
    requires token in RunChannel(p, trusted, events).outstanding
    requires TimesAccepted(RunChannel(p, trusted, events + more).accepted, token)
             == TimesAccepted(RunChannel(p, trusted, events).accepted, token)
    ensures token in RunChannel(p, trusted, events + more).outstanding
    decreases |more|
  {
    hide Step, ServeOne;
    if more == [] {
      assert events + more == events;
    } else {
      var most := more[..|more| - 1];
      assert (events + more)[..|events + more| - 1] == events + most;
      AcceptanceMonotone(p, trusted, events, most, token);
      var s := RunChannel(p, trusted, events + most);
      var e := more[|more| - 1];
      assert (events + more)[|events + more| - 1] == e;
      AcceptanceStep(p, trusted, s, e, token);
      OutstandingUntilAccepted(p, trusted, events, most, token);
    }
  }

  lemma AcceptanceStep(p: Policy, trusted: map<string, set<Key>>, s: System, e: ChannelEvent, token: Token)
    ensures var s' := Next(p, trusted, s, e);
            && TimesAccepted(s.accepted, token) <= TimesAccepted(s'.accepted, token)
            && (TimesAccepted(s.accepted, token) == TimesAccepted(s'.accepted, token) && token in s.outstanding ==>
                  token in s'.outstanding)
  {
    hide Step, ServeOne, AwaitResult, Accept, TimesAccepted;
    if e.ToIssuer? { ReceiveStep(p, trusted, s, e.wire, token); }
  }

  lemma {:induction false} AcceptanceMonotone(p: Policy, trusted: map<string, set<Key>>, events: seq<ChannelEvent>,
                                             more: seq<ChannelEvent>, token: Token)
    ensures TimesAccepted(RunChannel(p, trusted, events).accepted, token)
            <= TimesAccepted(RunChannel(p, trusted, events + more).accepted, token)
    decreases |more|
  {
    hide Next;
    if more == [] {
      assert events + more == events;
    } else {
      var most := more[..|more| - 1];
      assert (events + more)[..|events + more| - 1] == events + most;
      assert (events + more)[|events + more| - 1] == more[|more| - 1];
      AcceptanceMonotone(p, trusted, events, most, token);
      AcceptanceStep(p, trusted, RunChannel(p, trusted, events + most), more[|more| - 1], token);
    }
  }

  /**
   No sequence of refused frames blocks an answer: after anything that did not accept
   the token, a result the agent signed for it is accepted. The issuer never looks at the
   action id, so this holds for every answer with that session and number, own or not.
   */
  lemma AnswerStillAccepted(p: Policy, trusted: map<string, set<Key>>, events: seq<ChannelEvent>,
                            more: seq<ChannelEvent>, i: nat)
    requires p.agentName in trusted && p.agentKey in trusted[p.agentName]
    requires var s := RunChannel(p, trusted, events + more);
             && i < |s.answers|
             && var token := (s.answers[i].cmd.session, s.answers[i].cmd.number);
                && token in RunChannel(p, trusted, events).outstanding
                && TimesAccepted(s.accepted, token) == TimesAccepted(RunChannel(p, trusted, events).accepted, token)
    ensures var s := RunChannel(p, trusted, events + more);
            AwaitResult(s.outstanding, trusted, Result(s.answers[i].result)).1 == Some(s.answers[i].result)
  {
    hide RunChannel, Ledger;
    var s := RunChannel(p, trusted, events + more);
    var a := s.answers[i];
    OutstandingUntilAccepted(p, trusted, events, more, (a.cmd.session, a.cmd.number));
    AnswersSound(p, trusted, events + more);
    AnswersNamed(p, trusted, events + more);
    assert AnswerSound(p, Ledger(p, AgentPart(events + more)), a);
  }

  lemma {:induction false} AnswersNamed(p: Policy, trusted: map<string, set<Key>>, events: seq<ChannelEvent>)
    ensures var s := RunChannel(p, trusted, events);
            forall i :: 0 <= i < |s.answers| ==> s.answers[i].result.agent == p.agentName
    decreases |events|
  {
    hide Step, ServeOne, AwaitResult;
    if events != [] {
      var before := events[..|events| - 1];
      AnswersNamed(p, trusted, before);
      AgentIsRun(p, trusted, before);
      var e := events[|events| - 1];
      if e.ToAgent? { FrameAnswered(p, AgentPart(before), e.wire, e.now); }
    }
  }

  /**
   A repeated copy of a command the agent has admitted is answered Rejected under the same
   session and number. With `AnswerStillAccepted` this delimits what an acknowledgment
   means: an accepted Applied proves the command went through, an accepted Rejected does
   not prove that no copy of it did.
   */
  lemma RepeatAnsweredRejected(p: Policy, events: seq<AgentEvent>, cmd: ControlCommand, now: nat, later: nat)
    ensures var first := ServeCommand(p, Run(p, events), cmd, now);
            var second := ServeCommand(p, first.0, cmd, later);
            first.1.outcome == Applied ==>
              && second.1.outcome == CommandOutcome.Rejected
              && second.1.session == first.1.session && second.1.number == first.1.number
  {
    hide Sound, Effect, ServeCommand;
    RunSound(p, events);
    ServeCommandLaw(p, Run(p, events), cmd, now);
    ServeCommandLaw(p, ServeCommand(p, Run(p, events), cmd, now).0, cmd, later);
  }
}
