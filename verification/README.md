# Verified model of an endpoint agent and its control plane

Torda is an endpoint agent with a server side: signed remote commands drive staged
remediation on hosts, sensors feed an event sink, advisories are matched against packages,
and detections become scored findings. This project models the parts with the most state
and proves what they keep over whole runs.

`dafny verify dfyconfig.toml` checks everything (Dafny 4.11).

| modules | part |
|---|---|
| `Remediation`, `BridgeLaws`, `RevertLaws`, `StageCalls`, `StageTrail`, `BridgeClass` | the remediation bridge: drafts, approval, canary, rollout, rollback, audit |
| `Control`, `AgentLaws`, `AgentRuns`, `AgentOrders`, `AgentAnswers`, `AgentReplies`, `AuditActors`, `RetryRun`, `AgentClass` | the agent: signature, replay guard, roles, execution gate, held commands, serving and ticking |
| `Channel`, `Acknowledgments` | issuer and agent over a network that drops, repeats, reorders and invents frames |
| `FileNameCache` | the bounded file-name cache with its token deque |
| `RotatingSink` | the rotating line sink |
| `RefreshScheduler` | the periodic refresh loop |
| `OsvMatching`, `DpkgVersion`, `DpkgLaws`, `NulVersions` | advisory matching and the Debian version order |
| `FeedBundle`, `FeedStore` | feed verification and crash-safe install |
| `Scoring`, `FindingsEngine`, `GroupByFix`, `CorrelationIngest` | scoring, correlation, grouping by fix, attack chains |
| `ModelWalk`, `Cidr`, `DpkgStatus` | model-file walk, CIDR expansion, dpkg status parser |
| `Basics`, `Text`, `Sorting`, `Grouping` | shared definitions |

Classes with fields updated in place are classes here. Their methods are proved equal to
functions on values, and the laws are lemmas about those functions. A run is any sequence of
events; a law over runs has no bound on it.

Clocks, executors and verifiers, key sets, digests and I/O faults are parameters, arbitrary
in every law. Signatures are ideal: a signature is a key with the payload it signs, or junk,
and a payload is an injective function of the unsigned fields.

Where the code and its own words differ, the model follows the code:

- `crates/substrate/src/etw.rs:183-185` and `233-234` say an older token of a re-inserted key
  is skipped. The loop evicts the key at that token (`RefreshDoesNotProtect`,
  `ReopenDoesNotProtect`; `EvictsByLastTokenExactly` has the exact condition).
- `server/remediation/src/scheduler.rs:161-162` separates a dropped command from one that ran
  and failed by whether the state changed. A failed retry of an operator rollback ran and is
  still audited as dropped (`DroppedAlthoughRun` has the exact condition,
  `DroppedAlthoughRunHappens` a run).
- `server/control-server/src/issuer.rs:17-23` says a request stays unanswered until its own
  result arrives. The issuer matches session and number only, and the agent answers every
  frame, so the Rejected for a repeated or a forged frame can be the one accepted
  (`RepeatedFrameTaken`, `ForgedFrameTaken`). `AcknowledgmentMeans` says on which delivered
  frames the promise holds, `ForeignFrameMisleads` and `AnyFrameAfterApplied` that other
  frames break it, `MisleadsExactly` exactly when.
- `server/remediation/src/bridge.rs:487-491` keeps a failed operator rollback retryable. A
  canary or rollout that gives up does not: it is final even where a host kept the change
  (`GivingUpStrandsExactly`).
- Appending advisories may change a hit's fix key when the host's family is unknown and two
  families are searched (`FallbackChangesHit`; `FallbackKeepsHit` has the exact condition).
- `server/ingest/src/version.rs:12-13` allows any ASCII string as a version. The Debian
  comparison answers for every pair, but with a NUL byte it need not be transitive
  (`NulBreaksOrder`). `DpkgPreorderExactly` says exactly which versions with a NUL still fit
  the order of all versions without one.
- `server/ingest/src/correlation.rs:57-59` says a chain always outranks either half. On
  exposed critical assets both reach R = 100 (`ChainOutranksHalf`, `TripleOutranksPair`).
- The sink needs no gap-free layout to keep a suffix, only no line in a roll beyond the limit
  (`SuffixExactly`).

## Model

| member | source | states |
|---|---|---|
| BridgeLaws.CanaryKeeps | server/remediation/src/bridge.rs:289-353 | a canary starts only from Approved; it ends Promoted in Rollout or Reverted in RolledBack; replaying the audit still gives the state and the applied list still equals what the executor left on the hosts |
| BridgeLaws.RolloutKeeps | server/remediation/src/bridge.rs:359-437 | a rollout starts only from Rollout and ends Closed, still in Verify (applied but unverified, nothing reverted) or RolledBack, with audit and applied list still right |
| BridgeLaws.RollbackKeeps | server/remediation/src/bridge.rs:444-516 | an operator rollback runs only from the revertible states, always calls the executor there, reports success only when no host carries the change, and on failure leaves RollbackIncomplete with a non-empty list to retry |
| BridgeLaws.RevertTargetsKeeps | server/remediation/src/bridge.rs:588-610 | reverting a list leaves live exactly the targets whose revert failed: live hosts stay covered by the failed ones plus the untouched rest, with equality kept |
| BridgeLaws.DraftKeeps | server/remediation/src/bridge.rs:161-191 | a draft is stored exactly when it has targets, over any record of its id; the world stays sound exactly when it is refused or the executor was never used for another body under that id and left nothing behind, as for every new id |
| BridgeLaws.TransitionKeeps | server/remediation/src/bridge.rs:625-653 | a guarded move happens exactly when the state is allowed, touches one record and one field, and calls no executor |
| BridgeLaws.DryRunActionKeeps | server/remediation/src/bridge.rs:206-248 | a dry run succeeds exactly from Drafted or Mapped and never calls the executor |
| BridgeLaws.RunStageKeeps | server/remediation/src/bridge.rs:289-516 | any stage on any id keeps the whole world sound, touches no other action, changes nothing when its entry state is missing, and always leaves in one of its exit states |
| RevertLaws.RollbackRefusesExactly | server/remediation/src/bridge.rs:444-516 | from a state it accepts, an operator rollback is refused exactly when some host on its list does not let go |
| RevertLaws.AutomaticRevertExactly | server/remediation/src/bridge.rs:318-352 | a canary or rollout that gives up always ends RolledBack, and leaves hosts with the change exactly when a host it had reached does not let go |
| BridgeClass.Bridge.Record | server/remediation/src/bridge.rs:99-119 | appends one event carrying the next number and changes no record |
| BridgeClass.Bridge.AuditRejectedCommand | server/remediation/src/bridge.rs:122-138 | the class step is the specified rejection event |
| BridgeClass.Bridge.AuditExecutionFailure | server/remediation/src/bridge.rs:140-158 | the class step is the specified failure event |
| BridgeClass.Bridge.MoveGuarded | server/remediation/src/bridge.rs:625-653 | the in-place move equals the specified transition, refusals and audit included |
| BridgeClass.Bridge.StoreDraft | server/remediation/src/bridge.rs:161-191 | the in-place draft equals the specified one |
| BridgeClass.Bridge.Preview | server/remediation/src/bridge.rs:206-248 | the in-place dry run equals the specified one |
| BridgeClass.Bridge.ApplyEach | server/remediation/src/bridge.rs:539-580 | the apply loop equals the recursive account of each target's call, audit event and applied entry, and returns the failure rate |
| BridgeClass.Bridge.RevertApplied | server/remediation/src/bridge.rs:588-610 | the revert loop equals its specification, and the failed targets are the new applied list |
| BridgeClass.Bridge.RunCanary | server/remediation/src/bridge.rs:289-353 | the imperative canary refines the specified stage on the whole bridge state |
| BridgeClass.Bridge.RunRollout | server/remediation/src/bridge.rs:359-437 | the imperative rollout refines the specified stage on the whole bridge state |
| BridgeClass.Bridge.RunRollback | server/remediation/src/bridge.rs:444-516 | the imperative operator rollback refines the specified stage on the whole bridge state |
| AgentClass.ReplayGuard.TryAdmit | server/remediation/src/control.rs:367-376 | admits exactly the numbers above the session's mark of an open session, and moves the mark to them |
| AgentClass.AgentControlLoop.DispatchCommand | server/remediation/src/control.rs:301-340 | the imperative dispatch equals its specification on the bridge |
| AgentClass.AgentControlLoop.DispatchGuarded | server/remediation/src/control.rs:401-442 | signature, freshness and role in that order, then dispatch, as specified |
| AgentClass.AgentControlLoop.CheckExecution | server/remediation/src/control.rs:456-518 | the execution gate as specified |
| AgentClass.AgentControlLoop.Execute | server/control-plane/src/lib.rs:603-633 | gate, run the stage and sign the outcome, as specified |
| AgentClass.AgentControlLoop.Hold | server/remediation/src/scheduler.rs:61-118 | gate, check the window and hold the command, as specified |
| AgentClass.AgentControlLoop.HandleDraft | server/control-plane/src/lib.rs:637-657 | a draft followed at once by its dry run, as specified |
| AgentClass.AgentControlLoop.CancelFor | server/remediation/src/scheduler.rs:215-230 | drops and audits every held command of one action |
| AgentClass.AgentControlLoop.Handle | server/control-plane/src/lib.rs:568-590 | lifecycle command, and the cancel that follows an applied abort, as specified |
| AgentClass.AgentControlLoop.ServeFrame | server/control-plane/src/lib.rs:810-909 | one frame in, at most one signed result out, as specified |
| AgentClass.AgentControlLoop.TickClock | server/remediation/src/scheduler.rs:130-208 | the release loop over held commands equals its specification |
| AgentLaws.ServeCommandLaw | server/control-plane/src/lib.rs:810-909 | any command: the world stays sound, only its own action may change and only along a legal edge, a closed gate changes no record, call or held command and answers Rejected, the replay mark moves exactly for authentic fresh commands, and the answer is signed over the command's own ids |
| AgentLaws.ExecuteFreshLaw | server/remediation/src/control.rs:534-568 | the same for executing now; nothing is held or released |
| AgentLaws.EnqueueFreshLaw | server/remediation/src/scheduler.rs:61-118 | an applied enqueue appends exactly that command with its window, which is still open; a refused one leaves the queue alone |
| AgentLaws.HandleDraftLaw | server/control-plane/src/lib.rs:637-657 | drafts, with their dry run, stay within the same law and never touch the queue |
| AgentLaws.HandleLifecycleLaw | server/control-plane/src/lib.rs:568-590 | held commands disappear only through an abort of their action that was applied |
| AgentLaws.ReleaseOneLaw | server/remediation/src/scheduler.rs:130-208 | a held command reaches an executor only inside its window, and is missed or waiting exactly by the clock |
| AgentLaws.DroppedAlthoughRun | server/remediation/src/scheduler.rs:159-203 | a command in its window is audited as dropped although it called the executor exactly when it is an operator rollback, the action is RollbackIncomplete already, and some host still to be reverted does not let go |
| RetryRun.DroppedAlthoughRunHappens | server/remediation/src/scheduler.rs:159-203 | a run from a new agent reaches it: draft, submit, approve, canary, failed rollback, scheduled retry |
| AgentRuns.RunSound | server/control-plane/src/lib.rs:810-927 | every run of the agent keeps the world sound |
| AgentRuns.AuditTrailDeterminesState | server/remediation/src/bridge.rs:99-158 | in every run the audit is numbered without gaps and replaying it gives the current state of every action; every executor call is for a stored action and one of its targets |
| AgentRuns.AppliedMatchesExecutor | server/remediation/src/bridge.rs:539-610 | in every run no host that carries a change is missing from its action's applied list, and the list is exact outside RollbackIncomplete |
| AgentRuns.FrameAnswered | server/control-plane/src/lib.rs:810-909 | after any run a command frame gets exactly one signed result echoing its action, session and number; malformed and wrong-direction frames get none and change nothing |
| AgentRuns.AdmittedAtMostOncePerOpening | server/remediation/src/control.rs:342-376 | in every run a (session, number) passes the replay guard at most once per opening of its session below that number |
| AgentRuns.TerminalForever | server/remediation/src/bridge.rs:521-535 | once an action is terminal no further events change its record or call an executor for it |
| AgentRuns.KillSwitchHolds | server/control-plane/src/lib.rs:568-590 | after an applied abort nothing of that action is held, it stays Aborted and no executor is called for it, whatever follows |
| AgentRuns.LedgerGenuine | server/remediation/src/control.rs:401-442 | every command on the ledger of passed commands was delivered, permitted, and signed over its own payload by a key trusted for its actor |
| AgentRuns.ExecutedWasSignedAndApproved | server/remediation/src/control.rs:456-518 | every executor call of every run is on a target of an action whose exact body was drafted and later approved, and was ordered by a stage command on that action, an Apply by a canary or rollout, all authentic and permitted |
| AgentRuns.FourEyes | server/remediation/src/control.rs:35-89 | with roles as policy, an executed body was drafted and approved, and for every draft of it and every later approval the two actors differ unless an Admin |
| AgentRuns.VerdictByClock | server/remediation/src/scheduler.rs:130-208 | waiting, missed and due are decided by the window alone |
| AgentRuns.ScheduledCommandsConserved | server/remediation/src/scheduler.rs:61-230 | in every run, as multisets, everything enqueued is still held, released, missed or cancelled, each once |
| AgentOrders.EachStageOrderedOnce | server/control-plane/src/lib.rs:810-927 | in every run, as multisets, the commands whose stage ran and those still held lie within the commands that passed all gates: no order runs twice |
| AgentOrders.EachCallFromItsStage | server/remediation/src/bridge.rs:539-610 | every executor call of every run is assigned, in order, to a stage run on that very action, an Apply only to a canary or rollout |
| AgentOrders.StrandedForever | server/remediation/src/bridge.rs:521-535 | in every run a rolled-back action keeps exactly the hosts its record lists, through all that follows |
| AgentOrders.GivingUpStrandsExactly | server/remediation/src/bridge.rs:318-352 | after a served canary or rollout gave up, hosts carry the change for ever exactly when one it had reached did not let go then |
| AgentOrders.GivingUpInTickStrandsExactly | server/remediation/src/scheduler.rs:130-208 | the same for a held canary or rollout that gives up when a tick releases it, in the world the commands released before it left |
| RetryRun.CanaryStrandsHost | server/remediation/src/bridge.rs:341-351 | a run from a new agent that leaves a host with the change in a rolled-back action |
| Channel.ResultCorrelator.Issue | server/control-server/src/issuer.rs:35-43 | adds exactly the token |
| Channel.ResultCorrelator.TryAccept | server/control-server/src/issuer.rs:47-57 | accepts exactly verified results of outstanding tokens, and removes only an accepted one |
| Channel.ControlPlaneClient.SendCommand | server/control-server/src/issuer.rs:93-108 | the frame carries the command and its token becomes outstanding |
| Channel.ControlPlaneClient.ReceiveResult | server/control-server/src/issuer.rs:112-129 | returns a result exactly when it decodes as one and is accepted |
| Channel.AgentIsRun | server/control-plane/src/lib.rs:810-927 | inside the system of issuer, network and agent, the agent is a run in the sense above |
| Channel.AcceptedAtMostIssued | server/control-server/src/issuer.rs:35-57 | over any network a token is accepted at most as often as it was issued, and strictly less while outstanding |
| Channel.AnswersSound | server/control-plane/src/lib.rs:676-697 | every answer the agent signs echoes its command, and an Applied one is for a command that passed every gate |
| Channel.AcceptedIsGenuine | server/control-server/src/issuer.rs:47-57 | over a network that may drop, repeat, reorder and invent frames but not forge the agent's signature, every accepted result agrees in all signed fields with one the agent signed for a consumed command of that action, session and number |
| Channel.AcceptedAppliedWasIssued | server/control-server/src/issuer.rs:93-129 | with operators whose keys sign only what they issue, an accepted Applied answers a command that was issued and passed the agent's gates |
| Channel.OutstandingUntilAccepted | server/control-server/src/issuer.rs:35-57 | no sequence of events short of an acceptance takes a token out |
| Channel.AnswerStillAccepted | server/control-server/src/issuer.rs:112-129 | hence any genuine answer to an outstanding token is accepted whenever it arrives, whatever was rejected before |
| Channel.RepeatAnsweredRejected | server/control-server/src/issuer.rs:17-23 | a repeated frame of an applied command is answered Rejected under the same session and number |
| Acknowledgments.AcknowledgmentMeans | server/control-server/src/issuer.rs:17-23 | if the agent was given, under the command's session and number, that command only and once, an accepted result is its own and says Applied exactly when it was applied |
| Acknowledgments.MisleadsExactly | server/control-server/src/issuer.rs:47-57 | while the token is outstanding something misleading can be accepted exactly when the agent has answered under it what it did not answer to the command, or a Rejected although the command was applied |
| Acknowledgments.ForeignFrameMisleads | server/control-server/src/issuer.rs:47-57 | from any run with the token outstanding, a foreign frame under it, on another action or before any copy of the command, has its answer accepted in place of the command's |
| Acknowledgments.AnyFrameAfterApplied | server/control-server/src/issuer.rs:47-57 | from any run in which the command was applied and the session not opened below its number since, any further frame under the token, copy or foreign, gets a Rejected accepted |
| Acknowledgments.ForgedFrameTaken | server/control-server/src/issuer.rs:93-129 | for every command: a junk-signed frame on another action is answered, accepted and consumes the token, the command never having arrived |
| Acknowledgments.RepeatedFrameTaken | server/control-server/src/issuer.rs:93-129 | for every good draft: two copies arrive, the first is applied, and the second copy's Rejected is what is accepted |
| FileNameCache.NameCache.EvictOldest | crates/substrate/src/etw.rs:265-269 | the pop loop equals the specified eviction |
| FileNameCache.NameCache.Compact | crates/substrate/src/etw.rs:274-292 | the backwards pass keeps each live key's last token, in order |
| FileNameCache.NameCache.Put | crates/substrate/src/etw.rs:260-293 | the insert equals its specification at the source's cap |
| FileNameCache.NameCache.Drop | crates/substrate/src/etw.rs:304-306 | the remove equals its specification |
| FileNameCache.EvictTakesFirstLive | crates/substrate/src/etw.rs:265-269 | eviction removes the live key whose earliest remaining token is foremost, and all tokens up to it |
| FileNameCache.EvictKeeps | crates/substrate/src/etw.rs:260-270 | with every live key still holding a token, eviction finds a victim and keeps that so |
| FileNameCache.KeepLastOrdered | crates/substrate/src/etw.rs:274-292 | compaction leaves each live key exactly once, in order of its last token |
| FileNameCache.CompactedSize | crates/substrate/src/etw.rs:274-292 | a compacted deque is as long as the map |
| FileNameCache.AlwaysBounded | crates/substrate/src/etw.rs:156-164 | for any positive cap and any history, map within the cap, deque within twice the cap, a token for every live key |
| FileNameCache.HitIsLatest | crates/substrate/src/etw.rs:297-306 | a hit is the path of that key's latest insert with no later remove |
| FileNameCache.TokensInCreationOrder | crates/substrate/src/etw.rs:260-293 | in histories without re-inserts the live tokens stand in creation order, compactions included |
| FileNameCache.VictimIsOldest | crates/substrate/src/etw.rs:265-269 | hence eviction takes the oldest live key there |
| FileNameCache.RefreshDoesNotProtect | crates/substrate/src/etw.rs:233-234 | for every cap of two or more, re-creating the oldest live key does not save it from the next eviction |
| FileNameCache.ReopenDoesNotProtect | crates/substrate/src/etw.rs:183-185 | for every cap of two or more, a key closed and created again is evicted before an older key |
| FileNameCache.EvictsByLastTokenExactly | crates/substrate/src/etw.rs:260-270 | eviction takes the live key whose last token is foremost exactly when the key at the first live token has its last token before that of every other live key |
| FileNameCache.HistoryEvictsByLastToken | crates/substrate/src/etw.rs:183-185 | the same in every history |
| RotatingSink.FileSink.constructor | crates/agent/src/emit.rs:98-123 | opening appends to the base file and seeds the counter with its size |
| RotatingSink.FileSink.Roll | crates/agent/src/emit.rs:39-61 | the descending rename cascade equals the shift by one with the oldest dropped |
| RotatingSink.FileSink.WriteLine | crates/agent/src/emit.rs:64-77 | the write equals its specification, rotation first when the line would not fit |
| RotatingSink.RollReadsSuffix | crates/agent/src/emit.rs:39-61 | a roll loses only the oldest lines |
| RotatingSink.WriteReadsSuffix | crates/agent/src/emit.rs:64-77 | a write leaves on disk a suffix of what was there plus the line, and no roll beyond the limit |
| RotatingSink.DiskIsSuffixOfStream | crates/agent/src/emit.rs:39-123 | after any writes, rolls and restarts, reading oldest roll to base gives a contiguous suffix of everything written; a gap-free start is not needed, only no roll beyond the limit |
| RotatingSink.StrayRollBreaksSuffix | crates/agent/src/emit.rs:39-61 | for every layout with a line in a roll beyond the limit, max_rolls + 2 long lines leave a disk that is no suffix |
| RotatingSink.SuffixExactly | crates/agent/src/emit.rs:39-123 | whatever is written and restarted, the disk stays a suffix if and only if no roll beyond the limit held a line at the start |
| RotatingSink.AlwaysTight | crates/agent/src/emit.rs:39-77 | the counter equals the base size, every file fits or is one line, neighbours together exceed the threshold |
| RotatingSink.FullSetRetains | crates/agent/src/emit.rs:39-77 | from those facts, any prefix of the roll set holds more than half its files' worth of the threshold |
| RotatingSink.RetentionGuarantee | crates/agent/src/emit.rs:39-77 | a full roll set retains more than floor((max_rolls+1)/2) thresholds |
| RefreshScheduler.ApplyOverrides | crates/core/src/lib.rs:242-249 | a positive override replaces the interval, zero turns refreshing off; unnamed modules and event modules keep theirs |
| RefreshScheduler.PeriodicRunner.constructor | crates/core/src/lib.rs:261-275 | one entry per module with an interval, due one interval from its start, in module order |
| RefreshScheduler.PeriodicRunner.PickSoonest | crates/core/src/lib.rs:276-285 | the loop finds the earliest due entry, the first of equals |
| RefreshScheduler.PeriodicRunner.RunOnce | crates/core/src/lib.rs:276-293 | the picked entry alone is rescheduled from completion |
| RefreshScheduler.LagDecreases | crates/core/src/lib.rs:276-293 | with positive intervals the lag sum strictly falls on every turn that does not pick k |
| RefreshScheduler.NoStarvation | crates/core/src/lib.rs:261-293 | hence every module is picked within its initial lag |
| RefreshScheduler.OthersAtMostOnce | crates/core/src/lib.rs:276-293 | once k is overdue no other module refreshes twice before it |
| RefreshScheduler.OverdueRound | crates/core/src/lib.rs:276-293 | every such turn uses up exactly one overdue entry |
| RefreshScheduler.OverdueWithinOneRound | crates/core/src/lib.rs:276-293 | an overdue module refreshes within one round of the entries |
| RefreshScheduler.ZeroIntervalStarves | crates/core/src/lib.rs:242-249 | an interval of zero, which an override cannot set, would be picked for ever |
| OsvMatching.RangeAffects | server/ingest/src/cve_source.rs:316-349 | the flag loop equals its specification |
| OsvMatching.WalkIsLastEffective | server/ingest/src/cve_source.rs:316-349 | for any comparator, even a partial one: affected exactly when some introduction is the literal 0 or answered Equal or Greater, and from that event on every fix is answered Less and every last affected version not Greater |
| OsvMatching.WalkIsIntervalMembership | server/ingest/src/cve_source.rs:316-349 | for any total preorder on any set of versions and strictly ascending single-field events: membership in the union of [introduced, fixed), [introduced, last_affected] and [introduced, oo) |
| OsvMatching.AffectedMatches | server/ingest/src/cve_source.rs:291-308 | listed version or comparable range, as specified |
| OsvMatching.OsvSource.constructor | server/ingest/src/cve_source.rs:235-252 | the built index equals selecting from the flat list of clauses, key by key |
| OsvMatching.OsvSource.HitsFor | server/ingest/src/cve_source.rs:256-286 | the answer from the index equals the flat scan of all records |
| OsvMatching.CollectExact | server/ingest/src/cve_source.rs:256-286 | each matching id once, keyed by its first matching clause, and nothing else |
| OsvMatching.AppendOnlyAdds | server/ingest/src/cve_source.rs:256-286 | with one searched family, appended advisories leave the old answer a prefix of the new |
| OsvMatching.FallbackKeepsHit | server/ingest/src/cve_source.rs:119-135 | with the two-family fallback an old hit survives appending exactly when Debian already matched that id, or the appended Debian clauses do not match it, or their first match gives the same hit |
| OsvMatching.FallbackChangesHit | server/ingest/src/cve_source.rs:119-135 | for any id, name, version and two fixes: an Ubuntu hit is replaced when a Debian advisory of the same id is appended |
| OsvMatching.OtherFamiliesIrrelevant | server/ingest/src/cve_source.rs:87-135 | an advisory of no searched family, or of another name, never changes the answer, wherever it stands |
| OsvMatching.CompositeHits | server/ingest/src/cve_source.rs:408-427 | the nested loop equals merging all answers in order |
| OsvMatching.MergeExact | server/ingest/src/cve_source.rs:408-427 | distinct ids, exactly the union, the first claimer's hit kept |
| OsvMatching.NestingIsFlattening | server/ingest/src/cve_source.rs:408-427 | any nesting of composites answers like the flat list of its sources |
| DpkgVersion.SkipZeros | server/ingest/src/version.rs:61-67 | leading zeros change neither the number nor what follows |
| DpkgVersion.CompareRuns | server/ingest/src/version.rs:68-85 | the lock-step pass with its first difference compares the two digit runs as numbers of any length |
| DpkgVersion.VerRevCmp | server/ingest/src/version.rs:42-88 | the two-index loop equals its specification on all strings |
| DpkgVersion.WalkIsKeyOrder | server/ingest/src/version.rs:25-88 | without NUL bytes it is the zero-padded lexicographic order of a key read off each side alone |
| DpkgVersion.DpkgIsTotalPreorder | server/ingest/src/version.rs:90-116 | epoch, upstream and revision together totally preorder all versions without NUL bytes |
| NulVersions.NulBreaksOrder | server/ingest/src/version.rs:25-37 | for every text with a NUL that is first or behind no digit: it stands above one version and below another that are the other way round |
| NulVersions.GoodByKey | server/ingest/src/version.rs:42-88 | where the first NUL stands behind a digit, comparing with any text without NUL bytes is still the key order |
| NulVersions.FragmentFlips | server/ingest/src/version.rs:42-88 | swapping the sides flips the answer, on all strings |
| NulVersions.FragmentPreorderExactly | server/ingest/src/version.rs:42-88 | the fragment comparison totally preorders all strings without NUL bytes together with s if and only if the first NUL of s, if any, stands right behind a digit |
| NulVersions.DpkgPreorderExactly | server/ingest/src/version.rs:90-116 | the same for whole versions: if and only if this holds of the upstream part, and of the revision too unless the upstream part has more than NUL bytes and zeros from its first NUL on |
| NulVersions.MatchedExactly | server/ingest/src/version.rs:42-88 | among the fitting strings exactly those with only NUL bytes and zeros from their first NUL on equal one without NUL bytes |
| DpkgVersion.DebianRanges | server/ingest/src/cve_source.rs:138-162 | for Debian versions the range walk is interval membership, with no assumption on the comparator left |
| FeedBundle.VerifyBundle | crates/feed/src/bundle.rs:32-102 | the verifying loop with its early exits equals the verdict, first error included |
| FeedBundle.NoFaultMeans | crates/feed/src/bundle.rs:66-99 | no fault exactly when names are distinct and plain and every file is present, in size and of its digest |
| FeedBundle.VerifiedExactly | crates/feed/src/bundle.rs:32-113 | a bundle verifies exactly when signed by a trusted key, within the entry cap and without fault |
| FeedBundle.ContentDetermined | crates/feed/src/bundle.rs:66-99 | with a collision-free digest a verified manifest fixes every listed file |
| FeedStore.NextKeeps | crates/feed/src/store.rs:103-171 | every step, crash or failure keeps the phase invariant of an install |
| FeedStore.AlwaysCrashSafe | crates/feed/src/store.rs:103-171 | at every moment content is absent, part of the old or exactly the new; the marker is the old one, or the new one over complete new content |
| FeedStore.NeverMixed | crates/feed/src/store.rs:103-171 | over any installs, crashes and retries content never holds files of two bundles |
| FeedStore.StaleMarkerWindow | crates/feed/src/store.rs:103-171 | whenever content already differs from what the install found, staging was complete and the marker is still the old one |
| FeedStore.MarkerTruthful | crates/feed/src/store.rs:103-171 | over any path the committed marker tells the truth as long as no install has passed its staging since |
| FeedStore.StaleMarkerStays | crates/feed/src/store.rs:145-168 | past staging it need not: from any idle disk with a file, the install of any bundle that stops after one removal leaves the old marker over less, idle |
| FeedStore.Store.Install | crates/feed/src/store.rs:103-171 | an unverified bundle changes nothing; success means the new content under its marker; from any disk whatever, a crash state too, a verified install without I/O errors succeeds |
| FeedStore.Store.SwapIn | crates/feed/src/store.rs:145-157 | on failure staging stays exactly when the old content was not fully removed; only a failed move cleans it away |
| FeedStore.Store.CommitMarker | crates/feed/src/store.rs:183-220 | temporary then rename: the marker changes only together with success |
| Scoring.ScoreInRange | server/findings-engine/src/score.rs:67-89 | R lies in 0..100 |
| Scoring.ScoreMonotone | server/findings-engine/src/score.rs:9-89 | R never falls as CVSS, EPSS, maturity, exposure, criticality and reach rise together |
| Scoring.DecisionMonotone | server/findings-engine/src/decide.rs:7-29 | nor does the decision weaken or its deadline lengthen |
| Scoring.ZeroReach | server/findings-engine/src/score.rs:20-27 | reach zero gives R = 0 |
| Scoring.ComplianceMonotone | server/findings-engine/src/score.rs:98-114 | the same for a policy weight |
| FindingsEngine.Correlate | server/findings-engine/src/correlate.rs:22-52 | the grouping and sorting passes give one group per identity in identity order |
| FindingsEngine.OneFindingPerIdentity | server/findings-engine/src/lib.rs:42-97 | exactly the identities of the batch, strictly ascending |
| FindingsEngine.EvidenceConserved | server/findings-engine/src/correlate.rs:22-52 | all evidence, as a multiset with its identity, is kept and falls in confidence within a finding |
| FindingsEngine.FixKeyIsMostConfident | server/findings-engine/src/correlate.rs:30-37 | the fix key is that of the first detection with the highest confidence |
| FindingsEngine.OnlyIdentitiesMatter | server/findings-engine/src/lib.rs:42-97 | batches naming the same identities get the same scores, decisions, deadlines and statuses |
| FindingsEngine.TelemetryOnlyConfirms | server/findings-engine/src/lib.rs:52-77 | any runtime source against none: R and urgency never fall, the deadline never lengthens, the status stays, not-affected stays suppressed at R = 0 |
| FindingsEngine.FindingIdExactly | server/findings-engine/src/lib.rs:102-107 | a finding id stands for one identity exactly when no field of it holds a bar |
| GroupByFix.GroupFindings | server/findings-engine/src/aggregate.rs:13-42 | the grouping loop equals its specification |
| GroupByFix.ItemsArePlan | server/findings-engine/src/aggregate.rs:13-42 | keys strictly ascending and exactly those present; risk the maximum R; closes and assets the ascending sets of the members |
| GroupByFix.OnePlan | server/findings-engine/src/aggregate.rs:13-42 | those facts determine the items |
| GroupByFix.OrderDoesNotShow | server/findings-engine/src/aggregate.rs:13-42 | order and repeats of findings do not show |
| GroupByFix.BatchesMerge | server/findings-engine/src/aggregate.rs:13-42 | grouping A ++ B is the key-wise merge of both groupings |
| CorrelationIngest.Aggregate | server/ingest/src/correlation.rs:170-202 | the aggregation loop equals its specification |
| CorrelationIngest.StrongestRanks | server/ingest/src/correlation.rs:132-202 | each (asset, edge) that fired once, in order, at the maximum weight over all rules of all its records |
| CorrelationIngest.OneRanking | server/ingest/src/correlation.rs:170-202 | those facts determine the list |
| CorrelationIngest.ArrivalDoesNotShow | server/ingest/src/correlation.rs:170-202 | order and repeats of records do not show |
| CorrelationIngest.BatchesMerge | server/ingest/src/correlation.rs:170-202 | two batches rank as their rankings merged |
| CorrelationIngest.ComponentIsImage | server/ingest/src/correlation.rs:186-190 | the component is the process image exactly when the image holds no arrow |
| CorrelationIngest.EdgeDetermines | server/ingest/src/correlation.rs:147-154 | between images without an arrow an edge fixes image, address and 16-bit port |
| CorrelationIngest.ArrowsCollide | server/ingest/src/correlation.rs:147-154 | for all texts, an arrow in the image and the same arrow moved into the address give one edge |
| CorrelationIngest.EdgeUniqueExactly | server/ingest/src/correlation.rs:147-154 | the edge of a record stands for no other image and address exactly when neither holds an arrow |
| CorrelationIngest.ChainOutranksHalf | server/ingest/src/correlation.rs:57-60 | 0.9 scores above the single-sensor maximum 0.7 exactly off exposed, uncompensated assets of criticality High or CrownJewel, where both saturate |
| CorrelationIngest.ChainOutranksHalves | server/ingest/src/correlation.rs:57-85 | off those assets every chain weight scores above every weight a half can have |
| CorrelationIngest.TripleOutranksPair | server/ingest/src/correlation.rs:61-85 | 0.95 scores above 0.9 exactly where 0.9 does not saturate the scale |
| ModelWalk.Walk | crates/substrate/src/ai_models.rs:119-149 | the recursive budgeted walk appends the first `remaining` models of the full depth-limited traversal, and length plus budget stays constant |
| ModelWalk.Models | crates/substrate/src/ai_models.rs:199-211 | the loop over directories shares one budget and sorts at the end |
| ModelWalk.InventoryIsSortedPrefix | crates/substrate/src/ai_models.rs:199-211 | a sorted permutation of the first 512 models, all of them if there are no more |
| Cidr.AndClearsLowBits | crates/substrate/src/network_hosts.rs:63-67 | masking is clearing the low bits |
| Cidr.NetworkIsBlockStart | crates/substrate/src/network_hosts.rs:59-67 | the wrapped mask arithmetic gives the block's first address, and the block fits the word |
| Cidr.ExpansionIsBlock | crates/substrate/src/network_hosts.rs:46-71 | exactly the addresses sharing the base's first `prefix` bits, ascending and once each, or nothing on bad input or over the cap |
| DpkgStatus.ParseDpkgStatus | crates/substrate/src/packages.rs:88-106 | the line loop equals its specification |
| DpkgStatus.OnePassIsPerParagraph | crates/substrate/src/packages.rs:88-124 | the one-pass parser equals reading each blank-line paragraph alone |
| DpkgStatus.BlankSeparates | crates/substrate/src/packages.rs:88-106 | parsing a, a blank line, b is parsing a, then b |
| DpkgStatus.RoundTrip | crates/substrate/src/packages.rs:88-124 | printing trimmed packages as installed paragraphs and parsing returns them |
| StageCalls.CanaryTouches | server/remediation/src/bridge.rs:305-318 | a canary applies to the cohort alone, the first max(1, size) targets in order, and reverts exactly the hosts it reached when it gives up |
| StageCalls.RolloutTouches | server/remediation/src/bridge.rs:381-391 | a rollout applies exactly to the targets not applied yet, in order, and reverts all hosts the action reached when it gives up |
| StageCalls.RollbackTouches | server/remediation/src/bridge.rs:444-516 | an operator rollback applies nothing and reverts the applied list, or every target where none is recorded |
| StageCalls.CanaryGivesUpExactly | server/remediation/src/bridge.rs:318-352 | a canary gives up exactly when more than the threshold's share of its apply calls failed or the verifier does not see the fix |
| StageCalls.RolloutGivesUpExactly | server/remediation/src/bridge.rs:396-437 | a rollout is reverted, closed or left unverified exactly by its failed share and the verifier's answer |
| AgentAnswers.TransitionExactly | server/remediation/src/bridge.rs:625-653 | a guarded move is done exactly from an allowed state, and writes one entry with where it came from, where to, who and how |
| AgentAnswers.LifecycleAnswered | server/remediation/src/control.rs:301-340 | after any run, a submit, approve, reject or abort that passes the gates is answered Applied exactly from the documented states, lands in the documented one, and changes nothing otherwise |
| AgentAnswers.AbortStopsEveryApply | server/remediation/src/bridge.rs:521-535 | whenever a stage would still make an apply call, the kill switch is accepted |
| AgentAnswers.DraftAnswered | server/control-plane/src/lib.rs:637-657 | after any run, a draft is answered Applied exactly when its ids agree, the id is new and it has targets; then its preview is recorded, else no record changes |
| AgentAnswers.ExecutionAnswered | server/control-plane/src/lib.rs:603-633 | after any run, an immediate execution is answered Applied exactly when its stage is granted there, and carries that stage's outcome |
| AgentAnswers.ScheduleAnswered | server/remediation/src/scheduler.rs:61-118 | after any run, a scheduled execution is answered Applied and held exactly while its window has not passed; no record changes and nothing is executed |
| AgentAnswers.NewExactly | server/remediation/src/control.rs:342-376 | after any run, a number counts as new exactly when its session was opened below it and nothing taken since reached it |
| AgentOrders.KeptExactly | server/remediation/src/scheduler.rs:130-208 | a tick keeps exactly the held commands whose window is still to come, in order |
| AgentOrders.ReportedExactly | server/remediation/src/scheduler.rs:130-208 | a tick reports exactly the stages that ran to an outcome, each under its own action |
| AgentRuns.OneRoleEach | server/remediation/src/control.rs:35-89 | each kind of command belongs to exactly one role besides Admin |
| AuditActors.EveryEntryAccounted | server/remediation/src/bridge.rs:99-158 | in every run each audit entry names the actor and action of a received command, and unless a rejection, of one that passed all gates |
| FileNameCache.InsertFound | crates/substrate/src/etw.rs:260-273 | a key just inserted is found under its new path, live before or not |
| FileNameCache.InsertOthers | crates/substrate/src/etw.rs:260-273 | every other key is found as before, unless a new key came to a full map and this one was next to go |
| FileNameCache.LookupExactly | crates/substrate/src/etw.rs:260-306 | after any run a lookup answers the latest insert not removed since, and nothing exactly when an eviction took the key after it |
| OsvMatching.HitExactly | server/ingest/src/cve_source.rs:256-286 | a vulnerability is reported for a package exactly when some record with its id concerns the host's family and names the package, and lists the version or has a comparable range holding it |
| OsvMatching.FirstFixExactly | server/ingest/src/cve_source.rs:353-362 | the fix is the earliest one in range and event order, and absent exactly when no event has one |
| OsvMatching.KeyNamesFirstFix | server/ingest/src/cve_source.rs:353-362 | the remediation key names that earliest fix, or the patch of the id where there is none |
| Scoring.DecideExactly | server/findings-engine/src/decide.rs:7-29 | each decision with its hours, exactly: the known-exploited override first, then 70, 40 and 20 |
| Scoring.ScoreExactly | server/findings-engine/src/score.rs:49-89 | each factor is the documented one and R is their product in percent, cut to 0..100 and rounded to the nearest |
| Scoring.ComplianceExactly | server/findings-engine/src/score.rs:98-114 | the same for a policy weight with exposure and criticality |
| FindingsEngine.AssessExactly | server/findings-engine/src/lib.rs:46-77 | reach rises to 1 exactly for an unknown VEX confirmed at run time, and only not-affected findings are suppressed |
| FindingsEngine.KevAlwaysActs | server/findings-engine/src/lib.rs:46-77 | every reported known-exploited finding that is not marked unaffected is Act within 48 hours, whatever its score |
| CorrelationIngest.RuleWeights | server/ingest/src/correlation.rs:94-107 | the three chain rules weigh more than the 0.7 of any half, any other rule 0.3 |
| CorrelationIngest.StrongestRuleExactly | server/ingest/src/correlation.rs:139-145 | the weight of an event is attained by one of its rules and exceeded by none |
| CorrelationIngest.FlaggedExactly | server/ingest/src/correlation.rs:132-158 | an envelope contributes exactly when it is correlated activity with a rule, an image and an address; chain, edge and weight are those of the envelope |
| CorrelationIngest.ChainReported | server/ingest/src/correlation.rs:183-201 | what is reported for a chain: an open triage finding named after the edge, scored and decided by the weight |
| FeedBundle.VerifiedMeans | crates/feed/src/bundle.rs:32-113 | a verified bundle is signed over this very manifest by a trusted key, has at most 1024 entries of at most 256 MiB with the stated digests, and no name leaves the directory |
| FeedStore.InstalledIsListed | crates/feed/src/store.rs:126-139 | what is installed is exactly what the manifest lists, with the bytes of the bundle and the stated digests |
| RefreshScheduler.DueExactly | crates/core/src/lib.rs:276-293 | after any run a source is due one interval after its last refresh finished, or when it first was |
| DpkgStatus.ListedExactly | crates/substrate/src/packages.rs:88-124 | a paragraph gives one package exactly when its last Status line ends in the word installed and it has a Package line; name and version are those of the last such lines |
| RotatingSink.RollLosesExactly | crates/agent/src/emit.rs:39-61 | a roll loses the file it pushes out and nothing else |
| RotatingSink.NothingLostUntilFull | crates/agent/src/emit.rs:39-123 | until the last roll number is used, the files read back all that was found and written, in order |
| RotatingSink.NoThresholdNoRoll | crates/agent/src/emit.rs:64-77 | with threshold 0 nothing is ever rolled: everything is appended to the base file |
| ModelWalk.TraversalExactly | crates/substrate/src/ai_models.rs:119-149 | a model is found exactly when it lies behind real directories alone, no deeper than the limit |
| DpkgLaws.TextDecides | server/ingest/src/version.rs:21-60 | behind anything shared, the first different non-digit decides: tilde, then letters, then the rest |
| DpkgLaws.EndDecides | server/ingest/src/version.rs:21-60 | a tilde sorts before the end of the version, any other text after it |
| DpkgLaws.NumbersDecide | server/ingest/src/version.rs:61-85 | different numbers decide whatever follows them and whatever their length or leading zeros; equal ones leave it to what follows |
| DpkgLaws.SplitExactly | server/ingest/src/version.rs:90-106 | every version is its epoch, upstream part and revision put together, split at the first colon and the last hyphen |
| DpkgLaws.PartsDecide | server/ingest/src/version.rs:108-116 | the epoch decides, then the upstream part, then the revision |
| StageTrail.CanaryTrail | server/remediation/src/bridge.rs:289-353 | the whole trail of a canary, entry by entry: the moves, and between them one entry per executor call with Ok or Failed as the call went |
| StageTrail.RolloutTrail | server/remediation/src/bridge.rs:359-437 | the same for a rollout, with its closing, its unverified rejection or its reverts |
| StageTrail.RollbackTrail | server/remediation/src/bridge.rs:444-516 | the same for an operator rollback, whose refusal counts exactly the hosts that did not let go |
| StageTrail.RefusedStageTrail | server/remediation/src/bridge.rs:289-472 | a stage refused for the state of its action names the reason, leaves one rejection and calls nothing |
| AgentReplies.ShutGateAnswered | server/remediation/src/control.rs:401-455 | a command a gate stops is answered with the first shut gate (signature, number, role), leaves one rejection and changes nothing else but, behind the first two, the mark |
| AgentReplies.LifecycleDetail | server/remediation/src/control.rs:301-340 | behind the gates a lifecycle command is refused for its action's state alone, and the answer names that state and the goal |
| AgentReplies.DraftDetail | server/control-plane/src/lib.rs:637-662 | a draft is refused for a wrong id, a known id or no targets, in this order, and previewed otherwise |
| AgentReplies.ExecutionDetail | server/control-plane/src/lib.rs:603-633 | an immediate execution is answered with what its stage said |
| AgentReplies.ScheduleDetail | server/remediation/src/scheduler.rs:61-118 | a scheduled one with its window, or with the time at which it was over and one rejection |
| AgentReplies.WindowNeverImmediate | server/remediation/src/control.rs:534-570 | a windowed command is never run at once, whichever way it comes |
| AgentReplies.AbortCallsOff | server/remediation/src/scheduler.rs:215-230 | an applied abort leaves its move and one rejection per held command on the action, and keeps the other held commands in order |
| AgentReplies.ReleaseWrites | server/remediation/src/scheduler.rs:130-208 | what a tick writes for a held command besides its stage: a rejection when missed or dropped, a failure when it ran and failed, nothing otherwise |
| FeedBundle.RefusedExactly | crates/feed/src/bundle.rs:32-64 | which refusal comes first, exactly: keys, manifest, signature, parsing, trust, number of entries |
| FeedBundle.FaultIsOfEntry | crates/feed/src/bundle.rs:65-100 | a refusal for an entry is the fault of the first faulty one |
| FeedBundle.SameHexMeans | crates/feed/src/bundle.rs:90-91 | digests agree exactly when they differ in nothing but the case of letters |
| FindingsEngine.FindingNamesFix | server/findings-engine/src/correlate.rs:30-37 | every finding of a run names the fix of the first most confident detection of its identity |
| DpkgStatus.LinesOfEnded | crates/substrate/src/packages.rs:95-97 | lines ended by a line feed or by a carriage return and a line feed, in any mixture, are read without their endings |
| ModelWalk.ListingExactly | crates/substrate/src/ai_models.rs:196-210 | all directories together list exactly the models within the depth limit of one of them |

## Left out

- RotatingSink.RetentionGuarantee: starts from an empty directory, because files written under another threshold need not be tight.
- Text of audit events, previews and result details: only which kind of detail it is.
- `map_to_item` and the Mapped state it sets: the state exists, the operation is one guarded move.
- The unguarded `handle` and `dispatch` entries outside the agent loop: the loop uses the guarded ones.
- Cryptography, hex and JSON codecs, key files and trust reloading, transports and their errors, session ids.
- rpm and semver comparators: parameters of the matcher. Debian versions are compared per character, which is per byte for ASCII text.
- JSON parsing of advisories, envelopes and manifests, and lenient parsing: the model starts from the parsed records.
- CIDR text parsing: the model starts from the parsed address and prefix, each possibly missing.
- Model-file classification, metadata and fingerprints: a file either yields a model or does not.
- I/O failures and partial lines of the sink: its writes and renames succeed.
- Names of staging directories and temporaries: a tally that no earlier install used stands for process id and counter.
- 32-bit float rounding and NaN: scores, weights and confidences are real numbers, and rounding is half away from zero.
- `u64` limits of sequence numbers, clocks and intervals: natural numbers.
- Threads, locks and their poisoning: each operation is one step.
- Finding lifecycle (`reconcile`), storage and reports: easy members beside the findings engine.
- Process, network, file-integrity and compliance ingest: the same weighted aggregation as attack chains, with simpler keys.
- eBPF and ETW sessions, listeners, host sweeps, command-line and configuration: operating-system and network I/O.
