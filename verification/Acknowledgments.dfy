/**
 What an accepted result tells the issuer about the command it sent. The issuer matches
 results by session and number only, so the answer depends on which command frames the
 network put before the agent under that pair.
 */
module Acknowledgments {
  import opened Basics
  import opened Remediation
  import opened BridgeLaws
  import opened Control
  import opened AgentLaws
  import opened AgentRuns
  import opened Channel

  function TokenOf(cmd: ControlCommand): Token { (cmd.session, cmd.number) }

  /** The command frames that reached the agent, in order. */
  function Delivered(events: seq<ChannelEvent>): seq<ControlCommand>
    decreases |events|
  {
    if events == [] then []
    else
      var before := Delivered(events[..|events| - 1]);
      match events[|events| - 1]
      case ToAgent(Command(cmd), _) => before + [cmd]
      case _ => before
  }

  /** The agent answers every command frame, in order. */
  lemma {:induction false} AnswersAreDelivered(p: Policy, trusted: map<string, set<Key>>, events: seq<ChannelEvent>)
    ensures var s := RunChannel(p, trusted, events);
            && |s.answers| == |Delivered(events)|
            && forall i :: 0 <= i < |s.answers| ==> s.answers[i].cmd == Delivered(events)[i]
    decreases |events|
  {
    hide Step, ServeCommand, AwaitResult;
    if events != [] { AnswersAreDelivered(p, trusted, events[..|events| - 1]); }
  }

  /** `c` itself was answered, by whatever copy. */
  ghost predicate Own(a: Answer, c: ControlCommand) { a.cmd.Unsigned() == c.Unsigned() }

  /** The result is one the agent signed for `c`. */
  ghost predicate IsOwn(p: Policy, answers: seq<Answer>, c: ControlCommand, r: CommandResult) {
    exists i :: 0 <= i < |answers| && Own(answers[i], c) && Vouches(p, answers[i], r)
  }

  ghost predicate WasApplied(answers: seq<Answer>, c: ControlCommand) {
    exists i :: 0 <= i < |answers| && Own(answers[i], c) && answers[i].result.outcome == Applied
  }

  /** Taking `r` for the answer to `c` is wrong: it is not, or it says Rejected of an applied command. */
  ghost predicate Misleads(p: Policy, answers: seq<Answer>, c: ControlCommand, r: CommandResult) {
    !IsOwn(p, answers, c, r) || (r.outcome == CommandOutcome.Rejected && WasApplied(answers, c))
  }

  // ----- when it means what it says -----

  /** Under the token of `c` the agent was given `c`, if anything, and only once. */
  ghost predicate OnlyOwnFrame(events: seq<ChannelEvent>, c: ControlCommand) {
    var d := Delivered(events);
    && (forall i :: 0 <= i < |d| && TokenOf(d[i]) == TokenOf(c) ==> d[i].Unsigned() == c.Unsigned())
    && (forall i, j :: 0 <= i < j < |d| ==> TokenOf(d[i]) != TokenOf(c) || TokenOf(d[j]) != TokenOf(c))
  }

  /**
   With no foreign frame and no second copy under the token, an accepted result is the
   command's own, and it says Applied exactly when the command was applied.
   */
  lemma AcknowledgmentMeans(p: Policy, trusted: map<string, set<Key>>, events: seq<ChannelEvent>, c: ControlCommand, r: CommandResult)
    requires Possible(p, trusted, events) && TrustsOnly(trusted, p.agentKey) && OnlyOwnFrame(events, c)
    requires r in RunChannel(p, trusted, events).accepted && (r.session, r.number) == TokenOf(c)
    ensures var s := RunChannel(p, trusted, events);
            && !Misleads(p, s.answers, c, r)
            && (r.outcome == Applied <==> WasApplied(s.answers, c))
  {
    hide RunChannel, Delivered, Possible, TrustsOnly, Ledger, AgentPart;
    var s := RunChannel(p, trusted, events);
    AcceptedIsGenuine(p, trusted, events);
    AnswersAreDelivered(p, trusted, events);
    assert Vouched(p, Ledger(p, AgentPart(events)), s.answers, r);
    var i :| 0 <= i < |s.answers| && Vouches(p, s.answers[i], r);
    var d := Delivered(events);
    assert s.answers[i].cmd == d[i] && TokenOf(d[i]) == TokenOf(c);
    assert Own(s.answers[i], c);
    if WasApplied(s.answers, c) {
      var k :| 0 <= k < |s.answers| && Own(s.answers[k], c) && s.answers[k].result.outcome == Applied;
      assert s.answers[k].cmd == d[k] && TokenOf(d[k]) == TokenOf(c);
      assert k == i;
    }
  }

  // ----- what the network may do next -----

  /** The issuer trusts the agent's key under the agent's name. */
  ghost predicate TrustsAgent(p: Policy, trusted: map<string, set<Key>>) {
    p.agentName in trusted && p.agentKey in trusted[p.agentName]
  }

  lemma RunSnoc(p: Policy, trusted: map<string, set<Key>>, events: seq<ChannelEvent>, e: ChannelEvent)
    ensures RunChannel(p, trusted, events + [e]) == Next(p, trusted, RunChannel(p, trusted, events), e)
  {
    hide Next;
    assert (events + [e])[..|events|] == events;
  }

  /** Any answer on record under an outstanding token can be handed to the issuer, who takes it. */
  lemma TakesAnswer(p: Policy, trusted: map<string, set<Key>>, events: seq<ChannelEvent>, i: nat)
    requires TrustsAgent(p, trusted) && i < |RunChannel(p, trusted, events).answers|
    requires TokenOf(RunChannel(p, trusted, events).answers[i].cmd) in RunChannel(p, trusted, events).outstanding
    ensures var s := RunChannel(p, trusted, events);
            var e := ToIssuer(Result(s.answers[i].result));
            var s' := RunChannel(p, trusted, events + [e]);
            && Unforged(p, s, e) && Accept(s.outstanding, trusted, s.answers[i].result).1
            && s' == s.(outstanding := s.outstanding - {TokenOf(s.answers[i].cmd)}, accepted := s.accepted + [s.answers[i].result])
            && Vouches(p, s.answers[i], s.answers[i].result)
  {
    hide RunChannel, Ledger, AgentPart, Step, ServeOne;
    var s := RunChannel(p, trusted, events);
    AnswersSound(p, trusted, events);
    AnswersNamed(p, trusted, events);
    assert AnswerSound(p, Ledger(p, AgentPart(events)), s.answers[i]);
    RunSnoc(p, trusted, events, ToIssuer(Result(s.answers[i].result)));
  }

  /** An answer under the token that a reader would take for the wrong thing. */
  ghost predicate Strange(answers: seq<Answer>, c: ControlCommand, i: nat) {
    && i < |answers| && TokenOf(answers[i].cmd) == TokenOf(c)
    && (|| (forall k :: 0 <= k < |answers| && Own(answers[k], c) ==>
              answers[k].result.Unsigned() != answers[i].result.Unsigned())
        || (answers[i].result.outcome == CommandOutcome.Rejected && WasApplied(answers, c)))
  }

  /**
   While the token is outstanding the network can make the issuer accept something
   misleading exactly when the agent has answered, under that token, something that is not
   what it answered to the command, or a Rejected although the command was applied.
   */
  lemma MisleadsExactly(p: Policy, trusted: map<string, set<Key>>, events: seq<ChannelEvent>, c: ControlCommand)
    requires TrustsOnly(trusted, p.agentKey) && TrustsAgent(p, trusted)
    requires TokenOf(c) in RunChannel(p, trusted, events).outstanding
    ensures var s := RunChannel(p, trusted, events);
            (exists r :: Unforged(p, s, ToIssuer(Result(r))) && (r.session, r.number) == TokenOf(c)
                         && Accept(s.outstanding, trusted, r).1 && Misleads(p, s.answers, c, r))
            <==> exists i :: Strange(s.answers, c, i)
  {
    hide RunChannel, Ledger, AgentPart;
    var s := RunChannel(p, trusted, events);
    AnswersSound(p, trusted, events);
    if r :| Unforged(p, s, ToIssuer(Result(r))) && (r.session, r.number) == TokenOf(c)
            && Accept(s.outstanding, trusted, r).1 && Misleads(p, s.answers, c, r) {
      NewlyAcceptedVouched(p, trusted, Ledger(p, AgentPart(events)), s, r);
      var i: nat :| i < |s.answers| && Vouches(p, s.answers[i], r);
      forall k | 0 <= k < |s.answers| ensures Vouches(p, s.answers[k], s.answers[k].result) {
        assert AnswerSound(p, Ledger(p, AgentPart(events)), s.answers[k]);
      }
      MisleadingAnswerStrange(p, s.answers, c, r, i);
    }
    if i :| Strange(s.answers, c, i) {
      TakesAnswer(p, trusted, events, i);
      StrangeAnswerMisleads(p, s.answers, c, i);
    }
  }

  lemma MisleadingAnswerStrange(p: Policy, answers: seq<Answer>, c: ControlCommand, r: CommandResult, i: nat)
    requires forall k :: 0 <= k < |answers| ==> Vouches(p, answers[k], answers[k].result)
    requires i < |answers| && Vouches(p, answers[i], r) && (r.session, r.number) == TokenOf(c)
    requires Misleads(p, answers, c, r)
    ensures Strange(answers, c, i)
  {
    if !IsOwn(p, answers, c, r) {
      forall k | 0 <= k < |answers| && Own(answers[k], c)
        ensures answers[k].result.Unsigned() != answers[i].result.Unsigned()
      {
      }
    }
  }

  lemma StrangeAnswerMisleads(p: Policy, answers: seq<Answer>, c: ControlCommand, i: nat)
    requires Strange(answers, c, i)
    ensures Misleads(p, answers, c, answers[i].result)
  {
    if IsOwn(p, answers, c, answers[i].result) {
      var k :| 0 <= k < |answers| && Own(answers[k], c) && Vouches(p, answers[k], answers[i].result);
    }
  }

  // ----- frames that mislead -----

  /** What the two events do: the agent answers the frame, the issuer takes that answer. */
  ghost predicate TakenInPlace(p: Policy, trusted: map<string, set<Key>>, events: seq<ChannelEvent>, f: ControlCommand,
                               now: nat, r: CommandResult) {
    var s, after := RunChannel(p, trusted, events), events + [ToAgent(Command(f), now)] + [ToIssuer(Result(r))];
    var s' := RunChannel(p, trusted, after);
    && s'.answers == s.answers + [Answer(f, r)] && s'.accepted == s.accepted + [r]
    && s'.outstanding == s.outstanding - {TokenOf(f)}
    && (Possible(p, trusted, events) ==> Possible(p, trusted, after))
  }

  function AnswerTo(p: Policy, trusted: map<string, set<Key>>, events: seq<ChannelEvent>, f: ControlCommand, now: nat): CommandResult {
    ServeCommand(p, RunChannel(p, trusted, events).agent, f, now).1
  }

  /** Whoever sends a frame under an outstanding token, its answer can be what the issuer takes. */
  lemma AnyFrameTaken(p: Policy, trusted: map<string, set<Key>>, events: seq<ChannelEvent>, f: ControlCommand, now: nat)
    requires TrustsAgent(p, trusted) && TokenOf(f) in RunChannel(p, trusted, events).outstanding
    ensures TakenInPlace(p, trusted, events, f, now, AnswerTo(p, trusted, events, f, now))
    ensures AnswerTo(p, trusted, events, f, now).actionId == f.actionId
  {
    hide RunChannel, ServeCommand, Possible, Unforged;
    var s, r := RunChannel(p, trusted, events), AnswerTo(p, trusted, events, f, now);
    var mid := events + [ToAgent(Command(f), now)];
    RunSnoc(p, trusted, events, ToAgent(Command(f), now));
    var s1 := RunChannel(p, trusted, mid);
    assert s1.answers == s.answers + [Answer(f, r)] && s1.answers[|s.answers|] == Answer(f, r);
    TakesAnswer(p, trusted, mid, |s.answers|);
    if Possible(p, trusted, events) {
      NotToIssuer(p, s, ToAgent(Command(f), now));
      PossibleSnoc(p, trusted, events, ToAgent(Command(f), now));
      PossibleSnoc(p, trusted, mid, ToIssuer(Result(r)));
    }
  }

  lemma NotToIssuer(p: Policy, s: System, e: ChannelEvent)
    requires !e.ToIssuer?
    ensures Unforged(p, s, e)
  {
  }

  lemma PossibleSnoc(p: Policy, trusted: map<string, set<Key>>, events: seq<ChannelEvent>, e: ChannelEvent)
    requires Possible(p, trusted, events) && Unforged(p, RunChannel(p, trusted, events), e)
    ensures Possible(p, trusted, events + [e])
  {
    hide RunChannel, Unforged;
    var all := events + [e];
    forall n | 0 <= n < |all| ensures Unforged(p, RunChannel(p, trusted, all[..n]), all[n]) {
      if n < |events| {
        assert all[..n] == events[..n] && all[n] == events[n];
      } else {
        assert all[..n] == events;
      }
    }
  }

  /**
   A foreign frame under the token, genuine or forged: on another action, or before any
   copy of the command arrived, its answer is accepted in place of the command's own.
   */
  lemma ForeignFrameMisleads(p: Policy, trusted: map<string, set<Key>>, events: seq<ChannelEvent>, c: ControlCommand,
                             f: ControlCommand, now: nat)
    requires TrustsAgent(p, trusted) && TokenOf(c) in RunChannel(p, trusted, events).outstanding
    requires TokenOf(f) == TokenOf(c) && f.Unsigned() != c.Unsigned()
    requires f.actionId != c.actionId || forall d :: d in Delivered(events) ==> d.Unsigned() != c.Unsigned()
    ensures var r := AnswerTo(p, trusted, events, f, now);
            && TakenInPlace(p, trusted, events, f, now, r)
            && !IsOwn(p, RunChannel(p, trusted, events).answers + [Answer(f, r)], c, r)
  {
    hide RunChannel, TakenInPlace, ServeCommand, Delivered;
    var s, r := RunChannel(p, trusted, events), AnswerTo(p, trusted, events, f, now);
    AnyFrameTaken(p, trusted, events, f, now);
    AnswersAreDelivered(p, trusted, events);
    var answers := s.answers + [Answer(f, r)];
    forall i | 0 <= i < |s.answers| ensures s.answers[i].cmd in Delivered(events) {
      assert s.answers[i].cmd == Delivered(events)[i];
    }
  }

  /** The session was opened below this number. */
  ghost predicate Reopens(e: ChannelEvent, token: Token) { e.AgentOpen? && e.session == token.0 && e.from < token.1 }

  /** The event that had the command applied. */
  ghost predicate AppliesAt(p: Policy, trusted: map<string, set<Key>>, events: seq<ChannelEvent>, c: ControlCommand, n: nat) {
    && n < |events| && events[n].ToAgent? && events[n].wire.Command? && events[n].wire.cmd.Unsigned() == c.Unsigned()
    && AnswerTo(p, trusted, events[..n], events[n].wire.cmd, events[n].now).outcome == Applied
  }

  lemma ChannelSound(p: Policy, trusted: map<string, set<Key>>, events: seq<ChannelEvent>)
    ensures Sound(RunChannel(p, trusted, events).agent.world)
  {
    hide Sound, RunChannel, Run;
    AgentIsRun(p, trusted, events);
    RunSound(p, AgentPart(events));
  }

  lemma StepStaysStale(p: Policy, trusted: map<string, set<Key>>, s: System, e: ChannelEvent, token: Token)
    requires Sound(s.agent.world) && !Fresh(s.agent.seen, token.0, token.1) && !Reopens(e, token)
    ensures !Fresh(Next(p, trusted, s, e).agent.seen, token.0, token.1)
  {
    hide Sound, AwaitResult, ServeOne, Tick, Fresh;
    match e {
      case ToAgent(wire, now) => SeenAfterStep(p, s.agent, Deliver(wire, now), token.0, token.1);
      case AgentTick(now) => SeenAfterStep(p, s.agent, Release(now), token.0, token.1);
      case AgentOpen(session, from) => SeenAfterStep(p, s.agent, OpenSession(session, from), token.0, token.1);
      case _ =>
    }
  }

  /** Once the command was applied its number stays stale until the session is opened below it. */
  lemma {:induction false} StaleOnceApplied(p: Policy, trusted: map<string, set<Key>>, events: seq<ChannelEvent>, c: ControlCommand, n: nat)
    requires AppliesAt(p, trusted, events, c, n)
    requires forall k :: n < k < |events| ==> !Reopens(events[k], TokenOf(c))
    ensures var s := RunChannel(p, trusted, events);
            !Fresh(s.agent.seen, c.session, c.number) && WasApplied(s.answers, c)
    decreases |events|
  {
    hide Sound, ServeCommand, Fresh, Reopens, ServeLaw;
    var before, e := events[..|events| - 1], events[|events| - 1];
    var s := RunChannel(p, trusted, before);
    ChannelSound(p, trusted, before);
    if n == |events| - 1 {
      AppliedGoesStale(p, s.agent, e.wire.cmd, e.now);
      var answers := RunChannel(p, trusted, events).answers;
      assert answers[|s.answers|] == Answer(e.wire.cmd, AnswerTo(p, trusted, before, e.wire.cmd, e.now));
      assert Own(answers[|s.answers|], c);
    } else {
      assert before[..n] == events[..n] && before[n] == events[n];
      StaleOnceApplied(p, trusted, before, c, n);
      StepStaysStale(p, trusted, s, e, TokenOf(c));
      AppliedStays(p, trusted, s, e, c);
    }
  }

  lemma AppliedGoesStale(p: Policy, a: Agent, cmd: ControlCommand, now: nat)
    requires Sound(a.world) && ServeCommand(p, a, cmd, now).1.outcome == Applied
    ensures !Fresh(ServeCommand(p, a, cmd, now).0.seen, cmd.session, cmd.number)
  {
    hide Sound, Effect, ServeCommand;
    ServeCommandLaw(p, a, cmd, now);
  }

  lemma AppliedStays(p: Policy, trusted: map<string, set<Key>>, s: System, e: ChannelEvent, c: ControlCommand)
    requires WasApplied(s.answers, c)
    ensures WasApplied(Next(p, trusted, s, e).answers, c)
  {
    hide Next;
    LogsGrow(p, trusted, s, e);
    var i :| 0 <= i < |s.answers| && Own(s.answers[i], c) && s.answers[i].result.outcome == Applied;
    var answers := Next(p, trusted, s, e).answers;
    assert answers[i] == s.answers[i];
  }

  /**
   After the command was applied, as long as the session is not opened again below its
   number, any further frame under the token, a copy of the command or a foreign one, is
   answered Rejected, and the issuer can be made to accept that Rejected.
   */
  lemma AnyFrameAfterApplied(p: Policy, trusted: map<string, set<Key>>, events: seq<ChannelEvent>, c: ControlCommand, n: nat,
                             f: ControlCommand, now: nat)
    requires TrustsAgent(p, trusted) && TokenOf(c) in RunChannel(p, trusted, events).outstanding
    requires AppliesAt(p, trusted, events, c, n) && forall k :: n < k < |events| ==> !Reopens(events[k], TokenOf(c))
    requires TokenOf(f) == TokenOf(c)
    ensures var r := AnswerTo(p, trusted, events, f, now);
            && TakenInPlace(p, trusted, events, f, now, r)
            && r.outcome == CommandOutcome.Rejected
            && Misleads(p, RunChannel(p, trusted, events).answers + [Answer(f, r)], c, r)
  {
    hide RunChannel, TakenInPlace, ServeCommand, AppliesAt, Sound, Effect, Reopens;
    var s, r := RunChannel(p, trusted, events), AnswerTo(p, trusted, events, f, now);
    AnyFrameTaken(p, trusted, events, f, now);
    StaleOnceApplied(p, trusted, events, c, n);
    ChannelSound(p, trusted, events);
    ServeCommandLaw(p, s.agent, f, now);
    var i :| 0 <= i < |s.answers| && Own(s.answers[i], c) && s.answers[i].result.outcome == Applied;
    var answers := s.answers + [Answer(f, r)];
    assert answers[i] == s.answers[i];
    assert WasApplied(answers, c);
  }

  // ----- two runs -----

  /**
   Forged: for every command, a frame with another action under its token and a junk
   signature is answered, and the issuer takes that Rejected and forgets the command,
   which the agent never saw.
   */
  lemma ForgedFrameTaken(p: Policy, trusted: map<string, set<Key>>, c: ControlCommand, other: string, now: nat)
    requires TrustsAgent(p, trusted) && other != c.actionId
    ensures var f := c.(actionId := other, signature := Junk("x"));
            var r := AnswerTo(p, trusted, [Issue(c)], f, now);
            var events := [Issue(c)] + [ToAgent(Command(f), now)] + [ToIssuer(Result(r))];
            var s := RunChannel(p, trusted, events);
            && Possible(p, trusted, events)
            && s.accepted == [r] && r.outcome == CommandOutcome.Rejected && r.actionId == other
            && TokenOf(c) !in s.outstanding && Delivered(events) == [f]
  {
    hide RunChannel, ServeCommand, Delivered, Possible;
    var start, f := [Issue(c)], c.(actionId := other, signature := Junk("x"));
    IssuedFirst(p, trusted, c);
    AnyFrameTaken(p, trusted, start, f, now);
    ChannelSound(p, trusted, start);
    JunkRejected(p, RunChannel(p, trusted, start).agent, f, now);
    DeliveredAfterIssue(c, f, now, AnswerTo(p, trusted, start, f, now));
  }

  lemma IssuedFirst(p: Policy, trusted: map<string, set<Key>>, c: ControlCommand)
    ensures var s := RunChannel(p, trusted, [Issue(c)]);
            Possible(p, trusted, [Issue(c)]) && s.accepted == [] && TokenOf(c) in s.outstanding
  {
    hide RunChannel, Possible;
    var none: seq<ChannelEvent> := [];
    assert none + [Issue(c)] == [Issue(c)];
    EmptyRun(p, trusted);
    RunSnoc(p, trusted, none, Issue(c));
    NotToIssuer(p, RunChannel(p, trusted, none), Issue(c));
    PossibleSnoc(p, trusted, none, Issue(c));
  }

  lemma DeliveredAfterIssue(c: ControlCommand, f: ControlCommand, now: nat, r: CommandResult)
    ensures Delivered([Issue(c)] + [ToAgent(Command(f), now)] + [ToIssuer(Result(r))]) == [f]
  {
    var start := [Issue(c)];
    var mid := start + [ToAgent(Command(f), now)];
    var events := mid + [ToIssuer(Result(r))];
    assert events[..|mid|] == mid && mid[..|start|] == start && start[..0] == [];
    assert Delivered(start) == [];
    assert mid[|mid| - 1] == ToAgent(Command(f), now) && events[|events| - 1] == ToIssuer(Result(r));
    assert Delivered(mid) == Delivered(start) + [f];
  }

  lemma EmptyRun(p: Policy, trusted: map<string, set<Key>>)
    ensures RunChannel(p, trusted, []) == Start && Possible(p, trusted, [])
  {
  }

  lemma JunkRejected(p: Policy, a: Agent, f: ControlCommand, now: nat)
    requires Sound(a.world) && f.signature.Junk?
    ensures ServeCommand(p, a, f, now).1.outcome == CommandOutcome.Rejected
  {
    hide Sound, Effect, ServeCommand;
    ServeCommandLaw(p, a, f, now);
  }

  /** A permitted, authentic draft of a scoped action: what a new agent applies. */
  ghost predicate GoodDraft(p: Policy, c: ControlCommand) {
    && c.kind.Draft? && c.kind.action.id == c.actionId && c.kind.action.targets != []
    && Authentic(p, c) && p.permits(c.actor, c.kind)
  }

  lemma DraftApplied(p: Policy, a: Agent, c: ControlCommand, now: nat)
    requires GoodDraft(p, c) && a.world == EmptyWorld && Fresh(a.seen, c.session, c.number)
    ensures ServeCommand(p, a, c, now).1.outcome == Applied
  {
  }

  function RepeatedStart(c: ControlCommand, now: nat): seq<ChannelEvent>
    requires c.number > 0
  {
    [AgentOpen(c.session, c.number - 1)] + [Issue(c)] + [ToAgent(Command(c), now)]
  }

  /**
   Repeated: for every such draft the agent applies the first copy and answers the second
   one Rejected, and that Rejected is what the issuer takes.
   */
  lemma RepeatedFrameTaken(p: Policy, trusted: map<string, set<Key>>, c: ControlCommand, now: nat, later: nat)
    requires TrustsAgent(p, trusted) && GoodDraft(p, c) && c.number > 0
    ensures var start := RepeatedStart(c, now);
            var r := AnswerTo(p, trusted, start, c, later);
            var s := RunChannel(p, trusted, start + [ToAgent(Command(c), later)] + [ToIssuer(Result(r))]);
            && Possible(p, trusted, start + [ToAgent(Command(c), later)] + [ToIssuer(Result(r))])
            && s.accepted == [r] && r.outcome == CommandOutcome.Rejected && WasApplied(s.answers, c)
  {
    hide RunChannel, ServeCommand, Possible, Misleads, AppliesAt;
    var none: seq<ChannelEvent> := [];
    var e0, start := [AgentOpen(c.session, c.number - 1)], RepeatedStart(c, now);
    var e1 := e0 + [Issue(c)];
    assert none + e0 == e0 && start == e1 + [ToAgent(Command(c), now)];
    EmptyRun(p, trusted);
    RunSnoc(p, trusted, none, e0[0]);
    RunSnoc(p, trusted, e0, Issue(c));
    RunSnoc(p, trusted, e1, ToAgent(Command(c), now));
    var s1, s2 := RunChannel(p, trusted, e1), RunChannel(p, trusted, start);
    assert s1.agent.world == EmptyWorld && Fresh(s1.agent.seen, c.session, c.number);
    DraftApplied(p, s1.agent, c, now);
    NotToIssuer(p, Start, e0[0]);
    NotToIssuer(p, RunChannel(p, trusted, e0), Issue(c));
    NotToIssuer(p, s1, ToAgent(Command(c), now));
    PossibleSnoc(p, trusted, none, e0[0]);
    PossibleSnoc(p, trusted, e0, Issue(c));
    PossibleSnoc(p, trusted, e1, ToAgent(Command(c), now));
    FirstCopyApplies(p, trusted, c, now);
    AnyFrameAfterApplied(p, trusted, start, c, 2, c, later);
    var r := AnswerTo(p, trusted, start, c, later);
    var s := RunChannel(p, trusted, start + [ToAgent(Command(c), later)] + [ToIssuer(Result(r))]);
    assert s.answers == s2.answers + [Answer(c, r)];
    assert s.answers[0].cmd == c && s.answers[0].result.outcome == Applied && Own(s.answers[0], c);
  }

  lemma FirstCopyApplies(p: Policy, trusted: map<string, set<Key>>, c: ControlCommand, now: nat)
    requires c.number > 0
    requires var e1 := [AgentOpen(c.session, c.number - 1)] + [Issue(c)];
             ServeCommand(p, RunChannel(p, trusted, e1).agent, c, now).1.outcome == Applied
    ensures AppliesAt(p, trusted, RepeatedStart(c, now), c, 2)
  {
    hide RunChannel, ServeCommand;
    var start := RepeatedStart(c, now);
    assert start[..2] == [AgentOpen(c.session, c.number - 1)] + [Issue(c)];
  }
}
