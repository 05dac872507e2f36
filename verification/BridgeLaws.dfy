/**
 What every bridge operation keeps: the audit trail alone determines every action's
 state, the executor only ever runs recorded action bodies on the targets they name,
 and the set of applied targets never loses a host that still carries the change.
 */
module BridgeLaws {
  import opened Basics
  import opened Remediation

  // ----- reading the two logs back -----

  /** The state of `id` as a reader of the audit trail sees it: the destination of the
      last event about `id` that was not a rejection. */
  ghost function ReplayedState(audit: seq<AuditEvent>, id: string): Option<ActionState>
    decreases |audit|
  {
    if audit == [] then None
    else
      var e := audit[|audit| - 1];
      if e.actionId == id && e.outcome != Rejected then Some(e.to)
      else ReplayedState(audit[..|audit| - 1], id)
  }

  /** The targets on which the payload of `id` is in effect, as the executor saw it:
      successful applies minus successful reverts. */
  ghost function Live(calls: seq<ExecCall>, id: string): multiset<string>
    decreases |calls|
  {
    if calls == [] then multiset{}
    else
      var c := calls[|calls| - 1];
      var before := Live(calls[..|calls| - 1], id);
      if c.action.id != id || !c.ok then before
      else if c.Apply? then before + multiset{c.target}
      else before - multiset{c.target}
  }

  lemma ReplayAppend(audit: seq<AuditEvent>, e: AuditEvent, id: string)
    ensures ReplayedState(audit + [e], id) ==
            if e.actionId == id && e.outcome != Rejected then Some(e.to) else ReplayedState(audit, id)
  {
    assert (audit + [e])[..|audit|] == audit;
  }

  lemma LiveAppend(calls: seq<ExecCall>, c: ExecCall, id: string)
    ensures Live(calls + [c], id) ==
            if c.action.id != id || !c.ok then Live(calls, id)
            else if c.Apply? then Live(calls, id) + multiset{c.target}
            else Live(calls, id) - multiset{c.target}
  {
    assert (calls + [c])[..|calls|] == calls;
  }

  lemma {:induction false} ReplayFrame(short: seq<AuditEvent>, long: seq<AuditEvent>, id: string, k: string)
    requires short <= long && k != id
    requires forall i :: |short| <= i < |long| ==> long[i].actionId == id
    ensures ReplayedState(long, k) == ReplayedState(short, k)
    decreases |long|
  {
    if |short| < |long| {
      ReplayFrame(short, long[..|long| - 1], id, k);
    } else {
      assert short == long;
    }
  }

  lemma {:induction false} LiveFrame(short: seq<ExecCall>, long: seq<ExecCall>, id: string)
    requires short <= long
    requires forall i :: |short| <= i < |long| ==> long[i].action.id != id
    ensures Live(long, id) == Live(short, id)
    decreases |long|
  {
    if |short| < |long| {
      LiveFrame(short, long[..|long| - 1], id);
    } else {
      assert short == long;
    }
  }

  // ----- one action being worked on -----

  ghost predicate EventsOf(audit: seq<AuditEvent>, from: nat, id: string) {
    forall i :: from <= i < |audit| ==> audit[i].actionId == id && audit[i].number == i
  }

  ghost predicate CallsOf(calls: seq<ExecCall>, from: nat, action: Action) {
    forall i :: from <= i < |calls| ==> calls[i].action == action && calls[i].target in action.targets
  }

  /** `after` continues `before`: same action, logs only grow, and only with entries of
      this action, applied to targets it names. */
  ghost predicate Continues(before: Job, after: Job) {
    && after.id == before.id
    && after.rec.action == before.rec.action
    && before.audit <= after.audit
    && EventsOf(after.audit, |before.audit|, before.id)
    && before.calls <= after.calls
    && CallsOf(after.calls, |before.calls|, before.rec.action)
  }

  lemma ContinuesTrans(a: Job, b: Job, c: Job)
    requires Continues(a, b) && Continues(b, c)
    ensures Continues(a, c)
  {
    forall i | |a.audit| <= i < |c.audit| ensures c.audit[i].actionId == a.id && c.audit[i].number == i {
      if i < |b.audit| { assert c.audit[i] == b.audit[i]; }
    }
    forall i | |a.calls| <= i < |c.calls|
      ensures c.calls[i].action == a.rec.action && c.calls[i].target in a.rec.action.targets
    {
      if i < |b.calls| { assert c.calls[i] == b.calls[i]; }
    }
  }

  ghost predicate Within(part: seq<string>, whole: seq<string>) {
    forall t :: t in part ==> t in whole
  }

  ghost predicate Scoped(j: Job) {
    j.rec.action.id == j.id && j.rec.action.targets != [] && Within(j.rec.applied, j.rec.action.targets)
  }

  /** No host that carries the change is missing from `applied`; only an incomplete
      operator rollback may list more. */
  ghost predicate AppliedSound(rec: Record, live: multiset<string>) {
    && live <= multiset(rec.applied)
    && (rec.state != RollbackIncomplete ==> live == multiset(rec.applied))
  }

  ghost predicate JobSound(j: Job) {
    && Scoped(j)
    && ReplayedState(j.audit, j.id) == Some(j.rec.state)
    && AppliedSound(j.rec, Live(j.calls, j.id))
  }

  lemma LogContinues(j: Job, from: Option<ActionState>, to: ActionState, actor: string, outcome: Outcome)
    ensures var j' := Log(j, from, to, actor, outcome);
            && Continues(j, j')
            && ReplayedState(j'.audit, j.id) ==
               (if outcome != Rejected then Some(to) else ReplayedState(j.audit, j.id))
  {
    ReplayAppend(j.audit, Event(j.audit, j.id, from, to, actor, outcome), j.id);
  }

  /** An audited move is sound whenever the applied set is right for the new state. */
  lemma MoveKeeps(j: Job, to: ActionState, actor: string, outcome: Outcome)
    requires Scoped(j) && outcome != Rejected && AppliedSound(j.rec.(state := to), Live(j.calls, j.id))
    ensures var j' := Move(j, to, actor, outcome);
            JobSound(j') && Continues(j, j') && j'.calls == j.calls && j'.rec == j.rec.(state := to)
  {
    LogContinues(j.(rec := j.rec.(state := to)), Some(j.rec.state), to, actor, outcome);
  }

  lemma GuardedKeeps(j: Job, allowed: set<ActionState>, to: ActionState, actor: string)
    requires JobSound(j) && to != RollbackIncomplete && RollbackIncomplete !in allowed
    ensures var (j', r) := Guarded(j, allowed, to, actor);
            && JobSound(j') && Continues(j, j') && j'.calls == j.calls
            && (r.Done? <==> j.rec.state in allowed)
            && j'.rec == if r.Done? then j.rec.(state := to) else j.rec
  {
    if j.rec.state in allowed { MoveKeeps(j, to, actor, Ok); }
    else { LogContinues(j, Some(j.rec.state), to, actor, Rejected); }
  }

  lemma DryRunKeeps(j: Job, actor: string)
    requires JobSound(j)
    ensures var (j', r) := DryRunJob(j, actor);
            && JobSound(j') && Continues(j, j') && j'.calls == j.calls
            && (r.Done? <==> j.rec.state in {Drafted, Mapped})
            && j'.rec == if r.Done? then j.rec.(state := DryRun) else j.rec
  {
    if j.rec.state in {Drafted, Mapped} { MoveKeeps(j, DryRun, actor, Ok); }
    else { LogContinues(j, Some(j.rec.state), DryRun, actor, Rejected); }
  }

  lemma ApplyOneKeeps(h: Host, j: Job, target: string, stage: ActionState, actor: string)
    requires JobSound(j) && j.rec.state == stage && stage != RollbackIncomplete
    requires target in j.rec.action.targets
    ensures var (j', ok) := ApplyOne(h, j, target, stage, actor);
            JobSound(j') && Continues(j, j') && j'.rec.state == stage
  {
    var ok := h.applies(j.calls, j.rec.action, target);
    var c := Apply(j.rec.action, target, ok);
    var rec := if ok then j.rec.(applied := j.rec.applied + [target]) else j.rec;
    var called := j.(calls := j.calls + [c], rec := rec);
    LiveAppend(j.calls, c, j.id);
    assert multiset(j.rec.applied + [target]) == multiset(j.rec.applied) + multiset{target};
    assert Continues(j, called);
    LogContinues(called, Some(stage), stage, actor, if ok then Ok else Failed);
    ContinuesTrans(j, called, Log(called, Some(stage), stage, actor, if ok then Ok else Failed));
  }

  lemma {:induction false} ApplyTargetsKeeps(h: Host, j: Job, targets: seq<string>, stage: ActionState, actor: string)
    requires JobSound(j) && j.rec.state == stage && stage != RollbackIncomplete
    requires Within(targets, j.rec.action.targets)
    ensures var (j', failures) := ApplyTargets(h, j, targets, stage, actor);
            JobSound(j') && Continues(j, j') && j'.rec.state == stage
    decreases |targets|
  {
    if targets != [] {
      var j1 := ApplyOne(h, j, targets[0], stage, actor).0;
      ApplyOneKeeps(h, j, targets[0], stage, actor);
      ApplyTargetsKeeps(h, j1, targets[1..], stage, actor);
      ContinuesTrans(j, j1, ApplyTargets(h, j1, targets[1..], stage, actor).0);
    }
  }

  lemma RevertOneKeeps(h: Host, j: Job, target: string, actor: string)
    requires Scoped(j) && target in j.rec.action.targets
    ensures var (j', ok) := RevertOne(h, j, target, actor);
            && Continues(j, j') && j'.id == j.id && j'.rec == j.rec && |j'.calls| == |j.calls| + 1
            && Live(j'.calls, j.id) == if ok then Live(j.calls, j.id) - multiset{target} else Live(j.calls, j.id)
  {
    var ok := h.reverts(j.calls, j.rec.action, target);
    var c := Revert(j.rec.action, target, ok);
    var called := j.(calls := j.calls + [c]);
    LiveAppend(j.calls, c, j.id);
    assert Continues(j, called);
    LogContinues(called, None, RolledBack, actor, if ok then Ok else Failed);
    ContinuesTrans(j, called, Log(called, None, RolledBack, actor, if ok then Ok else Failed));
  }

  /** Taking one copy of `t` out of the live set, or out of the share still to be reverted. */
  lemma RevertedShare(live: multiset<string>, t: string, todo: multiset<string>, rest: multiset<string>)
    requires live <= multiset{t} + todo + rest
    ensures live - multiset{t} <= todo + rest && live <= todo + (rest + multiset{t})
    ensures live == multiset{t} + todo + rest ==>
              live - multiset{t} == todo + rest && live == todo + (rest + multiset{t})
  {
  }

  /** Reverting a list of targets: every success leaves the live set, every failure stays.
      `rest` is what was live besides the listed targets. */
  lemma {:induction false} RevertTargetsKeeps(h: Host, j: Job, targets: seq<string>, actor: string, rest: multiset<string>)
    requires Scoped(j) && Within(targets, j.rec.action.targets)
    requires Live(j.calls, j.id) <= multiset(targets) + rest
    ensures var (j', failed) := RevertTargets(h, j, targets, actor);
            && Continues(j, j') && j'.rec == j.rec
            && Within(failed, targets)
            && |j'.calls| == |j.calls| + |targets|
            && Live(j'.calls, j.id) <= multiset(failed) + rest
            && (Live(j.calls, j.id) == multiset(targets) + rest ==> Live(j'.calls, j.id) == multiset(failed) + rest)
    decreases |targets|
  {
    hide Continues, Live, RevertOne;
    if targets == [] {
      ContinuesSelf(j);
    } else {
      var t := targets[0];
      var (j1, ok) := RevertOne(h, j, t, actor);
      RevertOneKeeps(h, j, t, actor);
      SplitFirst(targets);
      var rest' := if ok then rest else rest + multiset{t};
      RevertedShare(Live(j.calls, j.id), t, multiset(targets[1..]), rest);
      RevertTargetsKeeps(h, j1, targets[1..], actor, rest');
      var (j2, failed) := RevertTargets(h, j1, targets[1..], actor);
      ContinuesTrans(j, j1, j2);
      FailedShare(t, ok, failed, rest);
    }
  }

  lemma ContinuesSelf(j: Job)
    ensures Continues(j, j)
  {
  }

  lemma SplitFirst(targets: seq<string>)
    requires targets != []
    ensures multiset(targets) == multiset{targets[0]} + multiset(targets[1..])
  {
    assert targets == [targets[0]] + targets[1..];
  }

  /** A target that failed moves from the rest to the failed ones. */
  lemma FailedShare(t: string, ok: bool, failed: seq<string>, rest: multiset<string>)
    ensures var rest' := if ok then rest else rest + multiset{t};
            var failed' := if ok then failed else [t] + failed;
            multiset(failed') + rest == multiset(failed) + rest'
  {
    assert multiset([t] + failed) == multiset{t} + multiset(failed);
  }

  lemma RollbackAppliedKeeps(h: Host, j: Job, actor: string)
    requires Scoped(j) && Live(j.calls, j.id) <= multiset(j.rec.applied)
    ensures var j' := RollbackApplied(h, j, actor);
            && Scoped(j') && Continues(j, j') && j'.rec.state == j.rec.state
            && |j'.calls| == |j.calls| + |j.rec.applied|
            && Live(j'.calls, j.id) <= multiset(j'.rec.applied)
            && (Live(j.calls, j.id) == multiset(j.rec.applied) ==> Live(j'.calls, j.id) == multiset(j'.rec.applied))
  {
    RevertTargetsKeeps(h, j, j.rec.applied, actor, multiset{});
  }

  lemma RevertStageKeeps(h: Host, j: Job, actor: string)
    requires JobSound(j) && j.rec.state != RollbackIncomplete
    ensures var (j', r) := RevertStage(h, j, actor);
            JobSound(j') && Continues(j, j') && j'.rec.state == RolledBack
  {
    RollbackAppliedKeeps(h, j, actor);
    var j1 := RollbackApplied(h, j, actor);
    MoveKeeps(j1, RolledBack, actor, Ok);
    ContinuesTrans(j, j1, Move(j1, RolledBack, actor, Ok));
  }

  lemma FinishCanaryKeeps(h: Host, j: Job, rate: real, actor: string)
    requires JobSound(j) && j.rec.state == CanaryVerify
    ensures var (j', r) := FinishCanary(h, j, rate, actor);
            && JobSound(j') && Continues(j, j')
            && ((r == Done(Promoted) && j'.rec.state == Rollout) || (r == Done(Reverted) && j'.rec.state == RolledBack))
  {
    if rate > j.rec.action.failureThreshold || !h.fixed(|j.audit|, j.calls, j.rec.action, j.rec.applied) {
      RevertStageKeeps(h, j, actor);
    } else {
      MoveKeeps(j, Rollout, actor, Ok);
    }
  }

  lemma ApplyCanaryKeeps(h: Host, j: Job, actor: string)
    requires JobSound(j) && j.rec.state == Canary
    ensures var (j', r) := ApplyCanary(h, j, actor);
            && JobSound(j') && Continues(j, j')
            && ((r == Done(Promoted) && j'.rec.state == Rollout) || (r == Done(Reverted) && j'.rec.state == RolledBack))
  {
    var cohort := Cohort(j.rec.action);
    ApplyTargetsKeeps(h, j, cohort, Canary, actor);
    var (j1, failures) := ApplyTargets(h, j, cohort, Canary, actor);
    var j2 := Move(j1, CanaryVerify, actor, Ok);
    MoveKeeps(j1, CanaryVerify, actor, Ok);
    hide JobSound, Continues, FinishCanary, ApplyTargets, Move;
    var rate := FailureRate(failures, |cohort|);
    FinishCanaryKeeps(h, j2, rate, actor);
    ContinuesTrans(j, j1, j2);
    ContinuesTrans(j, j2, FinishCanary(h, j2, rate, actor).0);
  }

  /** A canary runs exactly from Approved and ends promoted or rolled back. */
  lemma CanaryKeeps(h: Host, j: Job, actor: string)
    requires JobSound(j)
    ensures var (j', r) := CanaryJob(h, j, actor);
            && JobSound(j') && Continues(j, j')
            && (r.Done? <==> j.rec.state == Approved)
            && (r.Refuse? ==> j'.rec == j.rec && j'.calls == j.calls)
            && (r.Done? ==> || (r == Done(Promoted) && j'.rec.state == Rollout)
                            || (r == Done(Reverted) && j'.rec.state == RolledBack))
  {
    GuardedKeeps(j, {Approved}, Canary, actor);
    var (j1, entry) := Guarded(j, {Approved}, Canary, actor);
    if entry.Done? {
      hide JobSound, Continues, ApplyCanary;
      ApplyCanaryKeeps(h, j1, actor);
      ContinuesTrans(j, j1, ApplyCanary(h, j1, actor).0);
    }
  }

  lemma FinishRolloutKeeps(h: Host, j: Job, rate: real, actor: string)
    requires JobSound(j) && j.rec.state == Verify
    ensures var (j', r) := FinishRollout(h, j, rate, actor);
            && JobSound(j') && Continues(j, j')
            && (|| (r == Done(Finished) && j'.rec.state == Closed)
                || (r == Done(AppliedUnverified) && j'.rec == j.rec && j'.calls == j.calls)
                || (r == Done(Reverted) && j'.rec.state == RolledBack))
  {
    if rate > j.rec.action.failureThreshold {
      RevertStageKeeps(h, j, actor);
    } else if h.fixed(|j.audit|, j.calls, j.rec.action, j.rec.applied) {
      MoveKeeps(j, Closed, actor, Ok);
    } else {
      LogContinues(j, Some(Verify), Verify, actor, Rejected);
    }
  }

  /** A rollout runs exactly from Rollout and ends closed, applied-unverified or rolled back. */
  lemma RolloutKeeps(h: Host, j: Job, actor: string)
    requires JobSound(j)
    ensures var (j', r) := RolloutJob(h, j, actor);
            && JobSound(j') && Continues(j, j')
            && (r.Done? <==> j.rec.state == Rollout)
            && (r.Refuse? ==> j'.rec == j.rec && j'.calls == j.calls)
            && (r.Done? ==> || (r == Done(Finished) && j'.rec.state == Closed)
                            || (r == Done(AppliedUnverified) && j'.rec.state == Verify)
                            || (r == Done(Reverted) && j'.rec.state == RolledBack))
  {
    if j.rec.state != Rollout {
      LogContinues(j, Some(j.rec.state), Rollout, actor, Rejected);
    } else {
      var remaining := Missing(j.rec.action.targets, j.rec.applied);
      ApplyTargetsKeeps(h, j, remaining, Rollout, actor);
      var (j1, failures) := ApplyTargets(h, j, remaining, Rollout, actor);
      var j2 := Move(j1, Verify, actor, Ok);
      MoveKeeps(j1, Verify, actor, Ok);
      var rate := FailureRate(failures, |remaining|);
      FinishRolloutKeeps(h, j2, rate, actor);
      ContinuesTrans(j, j1, j2);
      ContinuesTrans(j, j2, FinishRollout(h, j2, rate, actor).0);
    }
  }

  /**
   An operator rollback from an applied state always calls the executor. It reports
   success exactly when every listed target reverted, and then no host carries the
   change any more; otherwise the action is RollbackIncomplete with the rest retained.
   */
  lemma RollbackKeeps(h: Host, j: Job, actor: string)
    requires JobSound(j)
    ensures var (j', r) := RollbackJob(h, j, actor);
            && JobSound(j') && Continues(j, j')
            && (j.rec.state !in Revertible ==> r.Refuse? && j'.rec == j.rec && j'.calls == j.calls)
            && (j.rec.state in Revertible ==> |j'.calls| > |j.calls|)
            && (r.Done? ==> j.rec.state in Revertible && r == Done(RolledBackByOperator)
                            && j'.rec.state == RolledBack && Live(j'.calls, j.id) == multiset{})
            && (j.rec.state in Revertible && r.Refuse? ==> j'.rec.state == RollbackIncomplete && j'.rec.applied != [])
  {
    if j.rec.state !in Revertible {
      LogContinues(j, Some(j.rec.state), RolledBack, actor, Rejected);
    } else {
      var j1 := if j.rec.applied == [] then j.(rec := j.rec.(applied := j.rec.action.targets)) else j;
      RollbackAppliedKeeps(h, j1, actor);
      var j2 := RollbackApplied(h, j1, actor);
      assert Continues(j, j1);
      ContinuesTrans(j, j1, j2);
      if j2.rec.applied != [] {
        MoveKeeps(j2, RollbackIncomplete, actor, Failed);
        ContinuesTrans(j, j2, Move(j2, RollbackIncomplete, actor, Failed));
      } else {
        MoveKeeps(j2, RolledBack, actor, Ok);
        ContinuesTrans(j, j2, Move(j2, RolledBack, actor, Ok));
      }
    }
  }

  // ----- all actions together -----

  ghost predicate CallSound(w: World, c: ExecCall) {
    && c.action.id in w.actions
    && w.actions[c.action.id].action == c.action
    && c.target in c.action.targets
  }

  ghost predicate Sound(w: World) {
    && (forall k :: k in w.actions ==> Scoped(Open(w, k)) && AppliedSound(w.actions[k], Live(w.calls, k)))
    && (forall k :: ReplayedState(w.audit, k) == StateOf(w, k))
    && (forall i :: 0 <= i < |w.calls| ==> CallSound(w, w.calls[i]))
    && (forall i :: 0 <= i < |w.audit| ==> w.audit[i].number == i)
  }

  lemma SoundOpen(w: World, id: string)
    requires Sound(w) && id in w.actions
    ensures JobSound(Open(w, id))
  {
    assert ReplayedState(w.audit, id) == StateOf(w, id);
  }

  /** Putting a soundly continued action back keeps the whole world sound. */
  lemma SoundPut(w: World, id: string, j: Job)
    requires Sound(w) && id in w.actions && Continues(Open(w, id), j) && JobSound(j)
    ensures Sound(Put(w, j))
  {
    var w' := Put(w, j);
    forall k ensures ReplayedState(w'.audit, k) == StateOf(w', k) {
      if k != id { ReplayFrame(w.audit, w'.audit, id, k); }
    }
    forall k | k in w'.actions ensures Scoped(Open(w', k)) && AppliedSound(w'.actions[k], Live(w'.calls, k)) {
      assert id in w.actions && Scoped(Open(w, id));
      if k != id {
        LiveFrame(w.calls, w'.calls, k);
        assert Scoped(Open(w, k));
      }
    }
    forall i | 0 <= i < |w'.calls| ensures CallSound(w', w'.calls[i]) {
      if i < |w.calls| { assert w'.calls[i] == w.calls[i] && CallSound(w, w.calls[i]); }
      else { assert Scoped(Open(w, id)); }
    }
    forall i | 0 <= i < |w'.audit| ensures w'.audit[i].number == i {
      if i < |w.audit| { assert w'.audit[i] == w.audit[i]; }
    }
  }

  /** An audit entry that is a rejection, or confirms the current state, is harmless. */
  lemma SoundAudit(w: World, e: AuditEvent)
    requires Sound(w) && e.number == |w.audit|
    requires e.outcome != Rejected ==> StateOf(w, e.actionId) == Some(e.to)
    ensures Sound(w.(audit := w.audit + [e]))
  {
    var w' := w.(audit := w.audit + [e]);
    forall k ensures ReplayedState(w'.audit, k) == StateOf(w', k) {
      ReplayAppend(w.audit, e, k);
      assert ReplayedState(w.audit, k) == StateOf(w, k);
    }
    forall k | k in w'.actions ensures Scoped(Open(w', k)) && AppliedSound(w'.actions[k], Live(w'.calls, k)) {
      assert Scoped(Open(w, k));
    }
    forall i | 0 <= i < |w'.calls| ensures CallSound(w', w'.calls[i]) { assert CallSound(w, w.calls[i]); }
  }

  /** The executor was never asked anything else under this id, and left nothing behind. */
  ghost predicate Unused(w: World, action: Action) {
    && Live(w.calls, action.id) == multiset{}
    && forall i :: 0 <= i < |w.calls| && w.calls[i].action.id == action.id ==> w.calls[i].action == action
  }

  lemma NewIdUnused(w: World, action: Action)
    requires Sound(w) && action.id !in w.actions
    ensures Unused(w, action)
  {
    forall i | 0 <= i < |w.calls| ensures w.calls[i].action.id != action.id { assert CallSound(w, w.calls[i]); }
    LiveFrame([], w.calls, action.id);
  }

  /** The stored record is what the executor saw only if the id is unused. */
  lemma StoreNeedsUnused(w: World, action: Action, actor: string)
    requires action.targets != [] && Sound(Draft(w, action, actor).0)
    ensures Unused(w, action)
  {
    var w' := Draft(w, action, actor).0;
    assert AppliedSound(w'.actions[action.id], Live(w'.calls, action.id));
    forall i | 0 <= i < |w.calls| && w.calls[i].action.id == action.id ensures w.calls[i].action == action {
      assert CallSound(w', w'.calls[i]);
    }
  }

  /** A record of an unused id enters with an empty applied set, which is what the executor saw. */
  lemma SoundStore(w: World, action: Action, actor: string)
    requires Sound(w) && Unused(w, action) && action.targets != []
    ensures Sound(Draft(w, action, actor).0)
  {
    var id := action.id;
    var w' := Draft(w, action, actor).0;
    var e := Event(w.audit, id, None, Drafted, actor, Ok);
    forall k ensures ReplayedState(w'.audit, k) == StateOf(w', k) {
      ReplayAppend(w.audit, e, k);
      assert ReplayedState(w.audit, k) == StateOf(w, k);
    }
    forall i | 0 <= i < |w.calls| ensures CallSound(w', w.calls[i]) { assert CallSound(w, w.calls[i]); }
    forall k | k in w'.actions ensures Scoped(Open(w', k)) && AppliedSound(w'.actions[k], Live(w'.calls, k)) {
      if k != id { assert Scoped(Open(w, k)); }
    }
  }

  /** A draft replaces whatever stood under its id. That keeps the world sound exactly when
      it is refused or the executor was never used for another body under this id and left
      nothing behind; a new id always qualifies. */
  lemma DraftKeeps(w: World, action: Action, actor: string)
    requires Sound(w)
    ensures var (w', r) := Draft(w, action, actor);
            && w'.calls == w.calls
            && (r.Done? <==> action.targets != [])
            && w'.actions == (if r.Done? then w.actions[action.id := Record(action, Drafted, [])] else w.actions)
            && (Sound(w') <==> r.Refuse? || Unused(w, action))
            && (action.id !in w.actions ==> Sound(w'))
  {
    hide Sound, Unused;
    if action.targets == [] {
      SoundAudit(w, Event(w.audit, action.id, None, Drafted, actor, Rejected));
    } else {
      if Unused(w, action) { SoundStore(w, action, actor); }
      if Sound(Draft(w, action, actor).0) { StoreNeedsUnused(w, action, actor); }
      if action.id !in w.actions { NewIdUnused(w, action); }
    }
  }

  /** `after` differs from `before` only in what work on `id` may change. */
  ghost predicate OnlyTouches(before: World, after: World, id: string) {
    && after.actions.Keys == before.actions.Keys
    && (forall k :: k in before.actions && k != id ==> after.actions[k] == before.actions[k])
    && before.audit <= after.audit
    && before.calls <= after.calls
    && (forall i :: |before.calls| <= i < |after.calls| ==>
          id in before.actions && after.calls[i].action == before.actions[id].action)
  }

  lemma TransitionKeeps(w: World, id: string, allowed: set<ActionState>, to: ActionState, actor: string)
    requires Sound(w) && to != RollbackIncomplete && RollbackIncomplete !in allowed
    ensures var (w', r) := Transition(w, id, allowed, to, actor);
            && Sound(w') && OnlyTouches(w, w', id) && w'.calls == w.calls
            && (r.Done? <==> id in w.actions && w.actions[id].state in allowed)
            && w'.actions == if r.Done? then w.actions[id := w.actions[id].(state := to)] else w.actions
  {
    hide Sound, JobSound;
    if id in w.actions {
      SoundOpen(w, id);
      GuardedKeeps(Open(w, id), allowed, to, actor);
      SoundPut(w, id, Guarded(Open(w, id), allowed, to, actor).0);
    }
  }

  lemma DryRunActionKeeps(w: World, id: string, actor: string)
    requires Sound(w)
    ensures var (w', r) := DryRunAction(w, id, actor);
            && Sound(w') && OnlyTouches(w, w', id) && w'.calls == w.calls
            && (r.Done? <==> id in w.actions && w.actions[id].state in {Drafted, Mapped})
            && w'.actions == if r.Done? then w.actions[id := w.actions[id].(state := DryRun)] else w.actions
  {
    hide Sound, JobSound;
    if id in w.actions {
      SoundOpen(w, id);
      DryRunKeeps(Open(w, id), actor);
      SoundPut(w, id, DryRunJob(Open(w, id), actor).0);
    }
  }

  /** The states from which a stage runs; from any other it is refused. */
  function EntryStates(stage: Stage): set<ActionState> {
    match stage
    case CanaryStage => {Approved}
    case RolloutStage => {Rollout}
    case RollbackStage => Revertible
  }

  /** The states in which a stage that ran leaves the action. */
  function ExitStates(stage: Stage): set<ActionState> {
    match stage
    case CanaryStage => {Rollout, RolledBack}
    case RolloutStage => {Closed, Verify, RolledBack}
    case RollbackStage => {RolledBack, RollbackIncomplete}
  }

  /** What any stage does to its action. */
  ghost predicate StageLaw(j: Job, stage: Stage, j': Job, r: Reply<StageOutcome, Refusal>) {
    var entered := j.rec.state in EntryStates(stage);
    && JobSound(j') && Continues(j, j')
    && (!entered ==> r.Refuse? && j'.rec == j.rec && j'.calls == j.calls)
    && (entered ==> j'.rec.state in ExitStates(stage))
    && (entered && r.Refuse? ==> stage == RollbackStage && j'.rec.state == RollbackIncomplete)
    && (entered && stage == RollbackStage ==> |j'.calls| > |j.calls|)
    && (r == Done(RolledBackByOperator) ==> Live(j'.calls, j.id) == multiset{})
  }

  lemma StageKeeps(h: Host, j: Job, stage: Stage, actor: string)
    requires JobSound(j)
    ensures var (j', r) := StageJob(h, j, stage, actor); StageLaw(j, stage, j', r)
  {
    hide JobSound, Continues, Live, CanaryJob, RolloutJob, RollbackJob;
    match stage {
      case CanaryStage =>
        CanaryKeeps(h, j, actor);
        assert StageJob(h, j, stage, actor) == CanaryJob(h, j, actor);
      case RolloutStage =>
        RolloutKeeps(h, j, actor);
        assert StageJob(h, j, stage, actor) == RolloutJob(h, j, actor);
      case RollbackStage =>
        RollbackKeeps(h, j, actor);
        assert StageJob(h, j, stage, actor) == RollbackJob(h, j, actor);
        assert EntryStates(stage) == Revertible;
    }
  }

  lemma PutTouches(w: World, id: string, j: Job)
    requires id in w.actions && Continues(Open(w, id), j)
    ensures OnlyTouches(w, Put(w, j), id)
  {
    assert Put(w, j).actions.Keys == w.actions.Keys;
  }

  /**
   Every execution stage keeps the world sound and works on its action alone. A refusal
   from a state outside `EntryStates` touches nothing; the only refusal of a stage that
   did run is an operator rollback that left targets behind.
   */
  lemma RunStageKeeps(h: Host, w: World, id: string, stage: Stage, actor: string)
    requires Sound(w)
    ensures var (w', r) := RunStage(h, w, id, stage, actor);
            var entered := id in w.actions && w.actions[id].state in EntryStates(stage);
            && Sound(w') && OnlyTouches(w, w', id)
            && (id in w.actions ==> w'.actions[id].action == w.actions[id].action)
            && (!entered ==> r.Refuse? && w'.actions == w.actions && w'.calls == w.calls)
            && (entered ==> w'.actions[id].state in ExitStates(stage))
            && (entered && r.Refuse? ==> stage == RollbackStage && w'.actions[id].state == RollbackIncomplete)
            && (entered && stage == RollbackStage ==> |w'.calls| > |w.calls|)
            && (r == Done(RolledBackByOperator) ==> Live(w'.calls, id) == multiset{})
  {
    hide Sound, JobSound, Live, StageJob, OnlyTouches, EntryStates, ExitStates;
    if id in w.actions {
      SoundOpen(w, id);
      var j := StageJob(h, Open(w, id), stage, actor).0;
      StageKeeps(h, Open(w, id), stage, actor);
      SoundPut(w, id, j);
      PutTouches(w, id, j);
      assert w.actions[id := w.actions[id]] == w.actions;
    } else {
      TouchesNothing(w, id);
    }
  }

  lemma TouchesNothing(w: World, id: string)
    ensures OnlyTouches(w, w, id)
  {
  }
}
