# Verified models of the pipeline, cron, routing and review cores

This project models the parts of the repository whose correctness rests on
state that outlives a call, and proves what they promise:

- **the durable run store** (`core/pipeline-run-store.js`): JSON diff and patch,
  the journal, the three-file commit with crash recovery, the state machine of a
  run with execution claims, uncertain writes, approvals, truth gates and budget;
- **the admission of pipeline definitions** (`core/pipeline-config.js`): cycle
  detection, ancestor searches and the "approval on every path" condition;
- **the mission coordinator** (`core/pipeline-mission-runner.js`): which call it
  makes next, and when it waits;
- **the cron engine** (`core/cron-store.js`, `core/cron-scheduler.js`): reading
  expressions, the jumping search for the next run, the durable run claims;
- **account routing and the organization broker**
  (`core/provider-account-pool.js`, `core/kiro-organization-broker.js`);
- **selective application of diffs** (`core/diff-hunks.js`).

Where the source computes a value, the model is a function; where it updates
fields or runs a loop, the model is a class or a method proved equal to a
specification function, and the guarantees are proved about that function over
all histories of calls. The table below lists the methods with loops and those
guarantees, and among them, for each call, what it does to the fields of the
state; the other methods of the classes `PipelineRunStore`, `CronRegistry`,
`ProviderAccountPoolRouter` and `KiroOrganizationBroker` and the coordinator's
`AdvanceOnce` have no row, since their contracts only name their function. Times, identifiers and executor outcomes are parameters
of the calls that use them; verifiers, digests and artifact validation are
arbitrary functions.

`dafny verify dfyconfig.toml` checks everything.

## What the proofs found

Several expected properties are false of the code; each is stated as a lemma
with the exact condition under which the code does keep it, for all inputs.

- A diff is refused by its own patch when a changed value lies under a reserved,
  empty or over-long key or too deep (`JsonDelta.DiffThenPatch`,
  `JsonDelta.ReservedKeyIsNotReplayable`), and the commit does not check this, nor
  the snapshot rules (`RunFiles.CommitIsCrashSafeExactlyWhen`).
- A torn first append makes a run read as corrupt (`RunFiles.FirstAppendMayTear`).
- Attaching more than 1000 sessions, and ending a run while a stage that does not
  write is marked uncertain, lead to snapshots the store then refuses; nothing else
  does (`RunValidity.HarmfulCallsHarm`, `RunValidity.StraysComeFromUpdates`).
- A superseded claimant can record no success, but can still record a failure on
  an interrupted, blocked or budget-paused stage
  (`RunFencing.LateFailureLandsExactlyWhen`).
- A limit of zero is not marked as reached before the first charge
  (`RunBudget.FreshBudget`).
- A write resolved for a retry is never picked up by the coordinator
  (`MissionRunner.InterruptedStageIsLeftAlone`), and keeps it waiting as
  `MissionRunner.WaitsExactlyWhen` says; a department interrupted in its last
  attempt is claimed in vain in every turn
  (`MissionRunner.InterruptedLastAttemptIsRefused`), as the exact condition for a
  granted claim shows (`MissionRunner.ClaimGrantedExactlyWhen`).
- A turn of the coordinator throws, in every turn again, where it wants to block an
  interrupted department that has no executor, or, after its last transition, a
  first pending stage that is an approval, or to fail a run with a stage still
  running or a write uncertain (`MissionTurns.TurnBlocks`,
  `MissionTurns.LastTurnBlocks`, `MissionTurns.TurnFails`).
- Recording an external run can push a running claim off a short cron log
  (`CronHistory.RecordingEvictsTheClaim`, `CronHistory.ClaimEndsExactlyWhen`), and a
  late report can make a job show a status that its log contradicts
  (`CronHistory.ShownAgreesExactlyWhen`).
- Almost every failure of a request still in flight lifts an authentication block:
  transport and soft failures, and authentication failures short of their strikes
  too (`RoutingGuarantees.BlockAfterFailureExactlyWhen`).
- Rebuilding a text drops the old lines that its operations do not mention, even
  with every hunk rejected (`DiffHunks.OldTextKeptExactlyWhen`).
- The broker loses a router lease when drawing an identifier fails after the
  grant (`BrokerHistory.LeaksExactlyWhen`), and at the last generation it throws
  before its fence (`BrokerGuarantees.FailureKeepsFence`).

The crontab utility of POSIX.1-2017 (INPUT FILES) leaves the month outside the
either-day rule; the code always requires the month, and the model follows it.

## Model

| member | source | states |
|---|---|---|
| `JsonDelta.ApplyDelta` | core/pipeline-run-store.js:423-471 | The patch loop over a row's operations computes the fold `Apply`, with the same first refusal. |
| `JsonDelta.BadPathIsRefused` | core/pipeline-run-store.js:409-427 | A delta with an ill-formed path is refused wherever that path stands and whatever precedes it. |
| `JsonDelta.BuildDelta` | core/pipeline-run-store.js:377-407 | The recursive diff appends operations that edit the old subtree into the new one, and every path it emits is well formed exactly when the two trees are replayable from that depth. |
| `JsonDelta.DiffShared` | core/pipeline-run-store.js:380-383 | The loop over shared array positions turns the old prefix into the new one. |
| `JsonDelta.DropTail` | core/pipeline-run-store.js:384-386 | Surplus elements are dropped from the end, so each index is still there when it is dropped. |
| `JsonDelta.PutTail` | core/pipeline-run-store.js:387-389 | Missing elements are appended in order. |
| `JsonDelta.DropKeys` | core/pipeline-run-store.js:393-395 | Keys only the old object has are removed, and no other key is touched. |
| `JsonDelta.PutKeys` | core/pipeline-run-store.js:396-402 | Keys only the new object has are added and shared keys are diffed, which completes the object. |
| `JsonDelta.DiffThenPatch` | core/pipeline-run-store.js:377-471 | For every two trees: patching the old tree with the diff gives the new tree if and only if the trees are `Replayable`; otherwise the patch is refused as corrupt. |
| `JsonDelta.RootDelta` | core/pipeline-run-store.js:377-407 | A root diff replays to its target exactly when the trees are `Replayable`. |
| `JsonDelta.TameIsReplayable` | core/pipeline-run-store.js:409-421 | Trees within the depth limit and the key rules are always replayable against each other. |
| `JsonDelta.ReservedKeyIsNotReplayable` | core/pipeline-run-store.js:411-417 | A changed value under a key such as `constructor` gives a diff that its own patch refuses: the round trip is false there. |
| `RunJournal.RecoverJournalState` | core/pipeline-run-store.js:723-773 | The line loop returns exactly the fold `Recover`: the state and sequence of the last whole row, the byte length kept, a torn last line ignored, anything else corrupt. |
| `RunJournal.AppendKeepsClean` | core/pipeline-run-store.js:723-773 | Appending one whole well-formed row to a clean log leaves a clean log that recovers the row's state. |
| `RunJournal.ScanConcat` | core/pipeline-run-store.js:736-771 | Scanning two stretches of lines is scanning the first and then the second from where it stopped. |
| `RunJournal.ScanLastRow` | core/pipeline-run-store.js:744-770 | The recovered state is the one the last row commits, with that row's sequence. |
| `JournalText.LawsCanBeKept` | core/pipeline-run-store.js:619-676 | The laws asked of the row text and its decoder can be kept: for any digests and verifiers, an encoding of every row as one line without blanks or line breaks and a decoder that reads exactly those lines back, and no line is a proper prefix of another. |
| `JournalText.RowLineIsExact` | core/pipeline-run-store.js:619-676 | A row written as one line is read back as that row, whatever its tree of states and operations. |
| `RunFiles.RunStore.ReadRaw` | core/pipeline-run-store.js:1162-1233 | The read (with or without repair) returns the verdict of the three files and performs exactly the repair writes that go with it, in order. |
| `RunFiles.RunStore.Commit` | core/pipeline-run-store.js:1235-1301 | The commit performs append, snapshot and head in that order, or refuses and writes nothing. |
| `RunFiles.ReadIntact` | core/pipeline-run-store.js:1162-1233 | Reading intact files returns their state, and a repair that completes makes the three files agree on it. |
| `RunFiles.RepairMayStop` | core/pipeline-run-store.js:1220-1233 | A process that stops anywhere inside a repair leaves intact files with the same state. |
| `RunFiles.CommitMayStop` | core/pipeline-run-store.js:1235-1301 | A process that stops anywhere inside a commit, torn appends included, leaves intact files with the previous or the next state. |
| `RunFiles.CommitCompletes` | core/pipeline-run-store.js:1235-1301 | A commit that runs to its end leaves three files that agree on the next state. |
| `RunFiles.CrashAtomicity` | core/pipeline-run-store.js:1162-1301 | Over any life of a run after its first commit, with any number of commits, repairs and stops at any point, a repairing read returns exactly the last committed or the next state and never a corruption error. |
| `RunFiles.CommitIsCrashSafeExactlyWhen` | core/pipeline-run-store.js:1235-1301 | A commit leaves files that read back, wherever it stops, if and only if the new state passes the snapshot check and its delta is replayable; the commit itself checks neither. |
| `RunFiles.FirstAppendMayTear` | core/pipeline-run-store.js:1235-1301 | A stop inside the very first append: the run reads as corrupt exactly when the row was cut before its last character. |
| `RunFiles.FirstCommitCompletes` | core/pipeline-run-store.js:1235-1301 | A completed first commit leaves three files that agree on its state, so every later life of the run starts from intact files. |
| `RunFiles.JournalPrefixReplays` | core/pipeline-run-store.js:723-773 | Replaying the journal up to any commit gives the state committed at that sequence. |
| `RunFiles.AppendCorrupts` | core/pipeline-run-store.js:744-770 | One row that does not replay makes the whole journal unreadable. |
| `JournalGuarantees.ReplayedExactlyWhen` | core/pipeline-run-store.js:744-770 | A row is replayed to a state if and only if it is genuine: the state passes the check, follows the one before by sequence and, for a patch, by base and digest; payload, row and result digests fit; and the sizes are within their limits. |
| `JournalGuarantees.RecoveredCountsItsRows` | core/pipeline-run-store.js:723-773 | The sequence of a recovered state is the number of rows in the journal: none is missing and none is read twice. |
| `JournalGuarantees.CommitTakenExactlyWhen` | core/pipeline-run-store.js:1235-1301 | A commit is taken if and only if its row is within the size limits, a first state passes the snapshot check, and over a previous state the head vouches for that state and the journal has the bytes the head speaks of. |
| `PipelineGraph.GraphHasCycle` | core/pipeline-config.js:251-268 | The visiting/visited search answers true if and only if the dependencies between known stages have a cycle. |
| `PipelineGraph.Visit` | core/pipeline-config.js:254-266 | One visit finds a cycle through its stack, or leaves a larger set from which no cycle can be reached. |
| `PipelineGraph.HasAncestor` | core/pipeline-config.js:270-283 | True if and only if some stage that satisfies the predicate is reached without passing through a stopping stage. |
| `PipelineGraph.CountAncestors` | core/pipeline-config.js:285-299 | The number of distinct matching ancestors. |
| `PipelineGraph.GraphFor` | core/pipeline-config.js:240-249 | The table of stages by identifier, and for every stage exactly the stages that depend on it. |
| `PipelineGraph.HasDescendant` | core/pipeline-config.js:312-325 | True if and only if some matching stage depends, directly or not, on the start. |
| `PipelineGraph.ReverseWalk` | core/pipeline-config.js:240-249 | Walking the reversed edges forward is walking the dependencies back. |
| `PipelineAdmission.EveryInboundPathApproved` | core/pipeline-config.js:327-345 | True if and only if every dependency path back to a root or to the nearest truth gate crosses an approval; the memo never changes the answer. |
| `PipelineAdmission.VisitInbound` | core/pipeline-config.js:329-343 | The memoised visit answers for its stage and leaves a memo that is right for every stage in it. |
| `PipelineAdmission.ActionHasDirectDepartmentApproval` | core/pipeline-config.js:301-310 | True if and only if some direct dependency is an approval with a department among its own dependencies. |
| `PipelineAdmission.DefinitionViolation` | core/pipeline-config.js:347-423 | No violation if and only if the definition is admissible; otherwise the first defect in the order of the checks: no stages, then the first bad reference, then a cycle, then an unsafe stage. |
| `PipelineAdmission.MissingReference` | core/pipeline-config.js:351-363 | The reference checks fail exactly when some stage names an unknown profile, dependency or helper, or itself; the first such stage decides, its profile before its dependencies before its helpers. |
| `PipelineAdmission.StageTransitionSafe` | core/pipeline-config.js:367-420 | The per-stage rule holds if and only if actions follow approvals on every path and gates follow actions. |
| `PipelineAdmission.HelpIsSafe` | core/pipeline-config.js:372-381 | Help is accepted exactly when every helper is a department above the stage that asks. |
| `RunBudget.ApplyBudgetPatch` | core/pipeline-run-store.js:944-1036 | The accepting loop and the marking loop compute `Patch`, with the same first error. |
| `RunBudget.ApplyBudgetDelta` | core/pipeline-run-store.js:1038-1073 | The adding loop computes `Delta`. |
| `RunBudget.MarkLimits` | core/pipeline-run-store.js:1012-1035 | The loop over the limits sets exhausted, overdrawn and overage as `Marks` says. |
| `RunBudget.PatchLaws` | core/pipeline-run-store.js:944-1036 | A patch never lowers a consumption, keeps the limits, and leaves the marks exact. |
| `RunBudget.ChargeConserves` | core/pipeline-run-store.js:1038-1073 | A charge is added field by field and moves nothing else; balanced token totals stay balanced. |
| `RunBudget.RepairLaws` | core/pipeline-run-store.js:1723-1743 | A repair charge adds exactly one cycle, stays within the limit and keeps the marks exact. |
| `RunBudget.FreshBudget` | core/pipeline-run-store.js:1012-1025 | With positive limits a fresh budget is marked exactly; with a zero limit it is not, since nothing is marked before the first charge. |
| `RunBudget.PatchAcceptedExactlyWhen` | core/pipeline-run-store.js:944-1036 | A patch is accepted if and only if no field goes down, every field but the cost is a safe whole number, the token total covers input plus output, and unmetered calls do not go down. |
| `RunBudget.ExhaustedMeans` | core/pipeline-run-store.js:1012-1025 | With exact marks and balanced tokens, exhausted holds if and only if input plus output reach the token limit, metered plus unmetered calls reach the call limit, or another amount reaches its limit. |
| `RunUpdaters.UpstreamActionReceiptDigests` | core/pipeline-run-store.js:901-920 | The walk ends on any graph, fails exactly when an upstream stage is unknown or an upstream write has no receipt, and otherwise returns each upstream receipt digest once. |
| `RunUpdaters.VisitUpstream` | core/pipeline-run-store.js:905-917 | One visit covers what is reachable from its stage and was not visited yet. |
| `RunUpdaters.PipelineRunStore.Mutate` | core/pipeline-run-store.js:1456-1479 | Every call ends in the state `After` names, of which the effects are proved; a terminal run takes run-level calls only; from a valid state a call that is not harmful leads to a valid state. |
| `RunValidity.StepKeeps` | core/pipeline-run-store.js:473-617 | Every successful call from a valid state leads to a valid state unless it is one of the two harmful ones. |
| `RunValidity.HarmfulCallsHarm` | core/pipeline-run-store.js:473-617 | For every successful call from a valid state, the next state passes the snapshot check if and only if the call neither attaches a session beyond the cap nor ends the run (a transition to a terminal status, or a cancel with no unresolved write) while a stage that does not write is uncertain. |
| `RunValidity.StraysComeFromUpdates` | core/pipeline-run-store.js:1593-1700 | Such a stage comes about in exactly one way: a raw update that marks a running stage uncertain although it does not write. |
| `RunValidity.StrayUncertainBricksTheRun` | core/pipeline-run-store.js:1481-1507 | For example: a running stage that does not write is set uncertain, the run may then be failed, and the terminal state fails the snapshot check. |
| `RunValidity.AttachKeeps` | core/pipeline-run-store.js:1585-1591 | Attaching keeps a state valid if and only if the session is known or the cap is not reached. |
| `RunValidity.LineageIsKept` | core/pipeline-run-store.js:586-597 | A gate's citation of its upstream receipts stays right under every change that keeps receipts. |
| `RunValidity.TerminalIsFrozen` | core/pipeline-run-store.js:1456-1507 | Every call on a completed, failed or cancelled run leaves it as it is. |
| `RunValidity.TerminalHasNoOpenStage` | core/pipeline-run-store.js:1487-1500 | A valid terminal run has no running or uncertain stage; a completed one has every stage completed with its durable evidence. |
| `RunLifecycle.CompletesExactlyWhen` | core/pipeline-run-store.js:1481-1509 | A run can be completed if and only if it is active and every stage is completed with its durable evidence. |
| `RunLifecycle.FailsExactlyWhen` | core/pipeline-run-store.js:1481-1509 | A run can be failed if and only if it is active, paused for its budget, awaiting a decision, blocked or interrupted, nothing runs and no write is uncertain. |
| `RunLifecycle.MovesExactlyWhen` | core/pipeline-run-store.js:60-87 | Exactly which moves between live statuses, and to cancelled, a transition accepts; it changes nothing but the status. |
| `RunLifecycle.StatusMovesOnlyBy` | core/pipeline-run-store.js:1456-1583 | Only a transition, a cancel, a restart or a resume moves the status of a run, each to its own statuses, and never out of a terminal one. |
| `RunLifecycle.CancelStops` | core/pipeline-run-store.js:1511-1534 | A cancel leaves nothing running; the run is cancelled if and only if it had no unresolved write, otherwise interrupted, and cancelling again changes nothing. |
| `RunLifecycle.RecoverStops` | core/pipeline-run-store.js:2110-2141 | After a restart nothing runs and the run is not active, and a second restart changes nothing. |
| `RunLifecycle.RecoverInterrupts` | core/pipeline-run-store.js:2110-2141 | A restart interrupts exactly the live runs that are active or have a stage running: running writes become uncertain, other running stages interrupted, and nothing else moves. |
| `RunLifecycle.CancelInterrupts` | core/pipeline-run-store.js:1511-1534 | A cancel of a live run stops its running stages in the same way and moves nothing else but the status. |
| `RunLifecycle.ResumeSettles` | core/pipeline-run-store.js:1536-1583 | After a resume nothing is uncertain: every uncertain stage was settled by a marker offered for it that the verifier accepted, and no other stage changed except blocked ones that were re-armed. |
| `RunLifecycle.ResumeFollowsItsMarkers` | core/pipeline-run-store.js:848-884 | After a resume every stage that was uncertain is completed if its marker says applied, with the marker as its receipt; failed if it says abandoned; and interrupted with one authorised retry if it says retry. |
| `RunResume.ResumeGrantedExactlyWhen` | core/pipeline-run-store.js:1536-1583 | A resume goes through if and only if the run is paused, interrupted or blocked, every uncertain stage is offered a marker that the verifier accepts and that names an outcome, all markers that fix the workspace name the same one, and the last of them is complete. |
| `RunResume.ResumeRecordsTheWorkspace` | core/pipeline-run-store.js:1559-1577 | After a resume the workspace on record is the one that every fixing marker names, and stays without one. |
| `RunLifecycle.DecisionsAreFinal` | core/pipeline-run-store.js:2055-2108 | Under every call a stage is asked for a decision at most once, before it is decided, and decided at most once; nothing recorded is lost. |
| `RunEffects.StartsFromTheCheckpoint` | core/pipeline-run-store.js:1690-1765 | In every call from every valid state: a write that starts, starts from the workspace on record, which its update or its stage names; a stage of any kind starts only in an active run by an update of its own, with one attempt more, under the given claim, and from pending only over completed dependencies. |
| `RunEffects.StartsWithinItsAttempts` | core/pipeline-run-store.js:1702-1752 | A stage starts only with attempts left, one where no limit is set; or it is a write that uses up a retry authorised before or by the very marker that settles it. |
| `RunEffects.WriteEndsWithItsReceipt` | core/pipeline-run-store.js:1766-1793 | A running write that an update completes carries the verified receipt it was given, for the very workspace it was started from, and the resulting workspace becomes the one on record; otherwise it stays running, becomes uncertain or waits for an approval. |
| `RunEffects.GateCompletesWithItsReceipt` | core/pipeline-run-store.js:1794-1815 | A gate that an update completes carries the receipt it was given, which the verifier accepts and whose workspace becomes the one on record. |
| `RunEffects.ActionCompletesExactlyWhen` | core/pipeline-run-store.js:1640-1793 | The completion of an action by its claimant is accepted if and only if its receipt is verified, complete, and for the workspace the action was started from. |
| `RunEffects.GateCompletesExactlyWhen` | core/pipeline-run-store.js:1628-1815 | The completion of a gate by its claimant is accepted if and only if its receipt is verified, complete, and cites exactly the receipts of the writes above it. |
| `RunEffects.CheckpointMovesOnlyBy` | core/pipeline-run-store.js:1766-1815 | The workspace on record moves only when a running write or a gate is completed, or in a resume. |
| `RunEffects.UpdateTouchesOneStage` | core/pipeline-run-store.js:1593-1618 | A stage update moves its own stage, the budget and the workspace at most; with another status than expected it moves nothing. |
| `RunEffects.LateUpdateIsIgnored` | core/pipeline-run-store.js:1601-1604 | A claim that finds another status than it expected is no error and returns the run as it is. |
| `RunEffects.UpdateMovesAlong` | core/pipeline-run-store.js:88-130 | From which statuses an update can take a stage to each status, unless it settles an uncertain one. |
| `RunEffects.UpdatesNeverSkipOrDecide` | core/pipeline-run-store.js:1622-1632 | No update skips a stage, and none moves an approval stage. |
| `RunEffects.RetryLimitIsNotUpdated` | core/pipeline-run-store.js:1615-1618 | An update that would touch the retry limit changes nothing. |
| `RunEffects.UpdateFollowsItsMarker` | core/pipeline-run-store.js:1682-1700 | An update that settles an uncertain stage carries a verified marker and follows it: completed means applied, failed means abandoned, running means a retry. |
| `RunEffects.SettledForGood` | core/pipeline-run-store.js:1702-1710 | In every history, a write settled as applied or abandoned keeps that settlement and is never run again. |
| `RunEffects.DecisionShows` | core/pipeline-run-store.js:2055-2108 | A decision that is recorded completes, fails or cancels its stage as it says, or lets it wait; its record is appended, and nothing else moves. |
| `RunEffects.DecisionTakenExactlyWhen` | core/pipeline-run-store.js:2055-2085 | A decision is taken if and only if it is on record already, or there is room for it, the run is active, paused or awaiting a decision, its stage is an approval over completed dependencies, and the stage is pending, or waits and the decision is more than a request. |
| `RunEffects.ApprovalsAreWhatIsRecorded` | core/pipeline-run-store.js:2055-2108 | In every state of every history, an approval stage is completed if and only if an approval of it is on record, failed if and only if a rejection is, cancelled if and only if a withdrawal or expiry is, and pending if and only if nothing is. |
| `RunEffects.AttachAppends` | core/pipeline-run-store.js:1585-1591 | An attached session is on record afterwards, once, behind the others, and nothing else moves. |
| `RunEffects.ArtifactIsListed` | core/pipeline-run-store.js:1849-1870 | A recorded artifact is valid, new, of its stage's kind, and listed with that stage and nowhere else. |
| `RunEffects.ArtifactsFitTheirStages` | core/pipeline-run-store.js:1849-1939 | In every history every artifact is of the kind its stage produces. |
| `RunEffects.DepartmentFails` | core/pipeline-run-store.js:1872-1901 | An accepted failure report fails its running department, charges the usage in the same step, and moves nothing else. |
| `RunEffects.DepartmentCompletes` | core/pipeline-run-store.js:1903-1939 | An accepted completion gives its running department exactly one artifact, charges the usage in the same step, and moves nothing else. |
| `RunEffects.DepartmentCompletesExactlyWhen` | core/pipeline-run-store.js:1903-1939 | The completion of a department by its claimant is accepted if and only if it has no artifact yet, the artifact is valid, its own and new, the artifact limit is not reached and the usage can be charged. |
| `RunCoordination.FreshIsDisciplined` | core/pipeline-run-store.js:1303-1380 | A run as created keeps the discipline. |
| `RunCoordination.StepDisciplined` | core/pipeline-run-store.js:1593-1830 | Every coordinated call keeps it: started stages have completed dependencies, completed approvals are on record, completed stages have durable evidence. |
| `RunCoordination.ResumeDisciplined` | core/pipeline-run-store.js:1536-1583 | Resume keeps the discipline whatever markers it is given. |
| `RunCoordination.ApprovalDisciplined` | core/pipeline-run-store.js:2055-2108 | Recording a decision keeps the discipline: a completed approval has its approval on record. |
| `RunGuarantees.AncestorsCompleted` | core/pipeline-run-store.js:1676-1681 | A stage that was started has every upstream stage completed. |
| `RunGuarantees.ApprovalBeforeWrite` | core/pipeline-config.js:327-423 | Over an admitted definition, an action that is running, uncertain or completed has a recorded approval on every dependency path back to a root or the nearest gate. |
| `RunGuarantees.ClaimedGateHasLineage` | core/pipeline-run-store.js:1794-1815 | For a claimed truth gate the upstream walk cannot fail. |
| `RunGuarantees.GateCitesWrites` | core/pipeline-run-store.js:586-597 | A completed gate's receipt cites exactly the receipts of all writes upstream. |
| `RunGuarantees.StepKeepsReceipts` | core/pipeline-run-store.js:1593-1830 | No call rewrites a stage's design, the receipt of a write or a completed status. |
| `RunGuarantees.UncertainNeedsResolution` | core/pipeline-run-store.js:1682-1693 | An uncertain write leaves that status in one call only through a marker the verifier accepted, which is then kept on the stage. |
| `RunGuarantees.RunningWriteEnds` | core/pipeline-run-store.js:1669-1693 | A running write leaves running only as completed with an accepted receipt, or as uncertain. |
| `RunGuarantees.StoppedWriteIsUncertain` | core/pipeline-run-store.js:1511-1534 | A running write that is cancelled, recovered or reported failed, blocked or interrupted becomes uncertain, and the run cannot become terminal with it. |
| `RunFencing.ReachedIsDisciplined` | core/pipeline-run-store.js:1456-1479 | Every state of every history of coordinated calls keeps the discipline. |
| `RunFencing.HistoryKeeps` | core/pipeline-run-store.js:1456-1479 | Design, action receipts and completed statuses last for the rest of a history. |
| `RunFencing.NoWriteWithoutApproval` | core/pipeline-config.js:327-423 | In every state of every history over an admitted definition, no write was ever started without a recorded approval on each path above it. |
| `RunFencing.GateLineageLasts` | core/pipeline-run-store.js:586-597 | A completed gate cites, in every later state, exactly the upstream write receipts, which are still the ones it saw. |
| `RunFencing.Origin` | core/pipeline-run-store.js:1832-1847 | Whoever holds a stage won it at one earlier call and has held it since. |
| `RunFencing.ClaimEndsOnce` | core/pipeline-run-store.js:1832-1939 | Among any interleaving, a claim is held on one stage only and ends at most once. |
| `RunFencing.EachAttemptHasOneWinner` | core/pipeline-run-store.js:1593-1618 | Two winning claims of one stage win different attempts. |
| `RunFencing.SupersededCannotReport` | core/pipeline-run-store.js:1593-1618 | A claimant that no longer holds its stage can record no completion and no charge. |
| `RunFencing.LateFailureLandsExactlyWhen` | core/pipeline-run-store.js:1593-1618 | For a stage in any status, a failure report under an old claim leaves it failed if and only if the run is active, the stage still carries the claim, and it is failed already or, not being an approval, runs without writing or is interrupted, blocked or paused for budget. |
| `RunFencing.SupersededFailureLands` | core/pipeline-run-store.js:2110-2141 | After a restart and a resume, the old claimant of an interrupted department can still record its failure. |
| `RunRetries.StageExecutionsBounded` | core/pipeline-run-store.js:1702-1765 | In every history of store calls, executions of a stage never exceed its attempt limit plus the verified retry resolutions it received. |
| `RunRetries.TotalExecutionsBounded` | core/pipeline-run-store.js:1723-1765 | In every history, executions in total never exceed one per stage plus the repair-cycle limit. |
| `RunLedger.DepartmentUsage` | core/pipeline-mission-runner.js:133-162 | A department's reported metrics become a charge whose token total is input plus output and whose calls split into metered and unmetered, or are refused. |
| `RunLedger.UsageIsWhatWasReported` | core/pipeline-mission-runner.js:133-162 | Metrics are accepted if and only if the total is input plus output, no more calls are unmetered than made, and a provider's own report leaves out nothing but the cost; each number is then charged where it belongs. |
| `RunLedger.ConsumptionIsTheLedger` | core/pipeline-run-store.js:944-1073 | Over every history of store calls that are not harmful, each metered field and the count of unmetered calls hold exactly what the calls posted: usages and repair cycles added, levels set by budget updates. |
| `RunLedger.HistoryIsStoreHistory` | core/pipeline-run-store.js:1593-1830 | A coordinated call is never harmful, so all that holds of such store histories holds of coordinated ones. |
| `RunLedger.ConsumptionNeverFalls` | core/pipeline-run-store.js:944-1073 | No field and no count of unmetered calls ever falls over such a history, budget updates included. |
| `RunLedger.MarksStayExact` | core/pipeline-run-store.js:1012-1035 | With positive limits, in every state of such a history, exhausted holds if and only if some limit is reached, and overage is exactly used minus limit. |
| `RunLedger.AmountsStayWhole` | core/pipeline-run-store.js:944-1073 | In every state of such a history every amount but the cost is a whole number, and a token total on record covers its parts. |
| `RunLedger.TokensStayBalanced` | core/pipeline-run-store.js:1872-1939 | Token totals stay input plus output over a history whose charges come from department usage and whose budget updates set the three token fields together, in balance. |
| `RunLedger.ClaimIsChargedOnce` | core/pipeline-run-store.js:1872-1939 | A claim is charged at most once, in the call in which its stage leaves running. |
| `MissionRunner.FindReady` | core/pipeline-mission-runner.js:470-473 | The first stage that may start and has its dependencies completed. |
| `MissionRunner.CallsAreCoordinated` | core/pipeline-mission-runner.js:455-534 | Every call the coordinator makes on a disciplined run is a coordinated one. |
| `MissionRunner.ClaimsOnlyAfterItsUpstream` | core/pipeline-mission-runner.js:470-510 | What it claims has everything upstream completed. |
| `MissionRunner.ClaimGrantedExactlyWhen` | core/pipeline-mission-runner.js:505-514 | Its claim is granted if and only if attempts are left, a repetition finds a repair cycle left in the budget, and the stage is not a write already settled as applied or abandoned; then the stage runs under the claim with one attempt more. |
| `MissionRunner.InterruptedLastAttemptIsRefused` | core/pipeline-mission-runner.js:470-514 | A department interrupted in its last attempt is claimed in every turn, and every claim is refused as exhausted. |
| `MissionRunner.SomethingIsReady` | core/pipeline-mission-runner.js:470-486 | Over an acyclic design, as long as some startable stage has no parked stage above it, some stage is ready. |
| `MissionRunner.WaitsExactlyWhen` | core/pipeline-mission-runner.js:455-486 | For an active run of an admitted definition, the coordinator waits if and only if the budget is not exhausted, no stage has failed, some stage is parked where only another party can move it, and every startable stage lies below a parked one; after its last transition, if and only if no stage is pending and the budget is not exhausted unless all is completed. |
| `MissionRunner.InterruptedStageIsLeftAlone` | core/pipeline-mission-runner.js:470-510 | In every turn of every disciplined run, no call of the coordinator is about an interrupted stage that is not a department, and none changes it. |
| `MissionRunner.RetriedWriteIsLeftAlone` | core/pipeline-mission-runner.js:470-473 | For example: a write resolved for a retry, with everything else completed, makes the coordinator wait. |
| `MissionTurns.TurnCompletes` | core/pipeline-mission-runner.js:474-479 | With every stage completed and transitions left, a turn completes the run and moves nothing else. |
| `MissionTurns.TurnFails` | core/pipeline-mission-runner.js:480-485 | With nothing ready and a stage failed, a turn fails the run if and only if nothing runs and no write is uncertain, and otherwise leaves it as it is. |
| `MissionTurns.TurnPauses` | core/pipeline-mission-runner.js:455-462 | With the budget exhausted and work left, a turn pauses the run for its budget. |
| `MissionTurns.TurnAsks` | core/pipeline-mission-runner.js:410-440 | Where the first ready stage is an approval, a turn requests the decision and leaves stage and run waiting for it. |
| `MissionTurns.TurnBlocks` | core/pipeline-mission-runner.js:235-243 | Without an executor for the first ready stage a turn blocks stage and run if the stage is pending; an interrupted department cannot be blocked, and the turn changes nothing. |
| `MissionTurns.LastTurnBlocks` | core/pipeline-mission-runner.js:464-468 | After the last transition a turn blocks the first pending stage and the run, unless that stage is an approval: then it changes nothing. |
| `MissionTurns.TurnClaims` | core/pipeline-mission-runner.js:503-514 | Otherwise a turn leaves the first ready stage running under the new claim with one attempt more, a write from the workspace on record, if the stage may start, and changes nothing if it may not. |
| `Calendar.SameStamp` | core/cron-store.js:82-110 | The minute number determines the moment. |
| `Calendar.WithinMonth` | core/cron-store.js:88-93 | A jump to the first of the next month passes only moments of the present month. |
| `Calendar.WithinDay` | core/cron-store.js:94-98 | A jump to the next midnight passes only moments of the present day. |
| `Calendar.WithinHour` | core/cron-store.js:99-102 | A jump to the next hour passes only moments of the present hour. |
| `Calendar.LeapWithinEight` | core/cron-store.js:86-87 | Any eight years in a row contain a leap year, also across a century that is not one. |
| `CronSearch.NextCronRun` | core/cron-store.js:79-110 | The search that jumps months, days and hours returns the first matching minute strictly after the start; it gives up only when nothing matches up to the end of the eighth year, and never for an accepted schedule. |
| `CronSearch.MatchWithinHorizon` | core/cron-store.js:86-109 | Every accepted schedule has a match after every start, no later than eight years on. |
| `CronSearch.HorizonIsTight` | core/cron-store.js:86-87 | Eight years are needed: from 29 February 1896 the leap-day schedule first matches in 1904. |
| `CronSearch.StrictlyLaterInMilliseconds` | core/cron-store.js:82-84 | Later by the minute is later in milliseconds, whatever the seconds of the start. |
| `CronParse.ParseField` | core/cron-store.js:430-472 | The loop over the parts of a field computes `ReadField`, with the first error. |
| `CronParse.AddValues` | core/cron-store.js:465-467 | The step loop adds exactly the values start, start + step, ... up to end, with 7 taken as Sunday. |
| `CronParse.PartIsRead` | core/cron-store.js:437-464 | Every spelling the grammar allows is read as what it says. |
| `CronParse.PartWasWritten` | core/cron-store.js:437-464 | Everything read is a spelling the grammar allows. |
| `CronParse.FieldGrammar` | core/cron-store.js:430-472 | A field is accepted if and only if it is legal parts joined by commas. |
| `CronParse.WrittenFieldIsRead` | core/cron-store.js:430-472 | The values of an accepted field are exactly those its parts name, in ascending order, within bounds, without 7. |
| `CronParse.ParseCronExpression` | core/cron-store.js:32-58 | The five fields are read in order and the calendar check follows, with the first error. |
| `CronParse.AcceptedIsAcceptable` | core/cron-store.js:481-488 | Every accepted expression yields a schedule the search can satisfy. |
| `CronParse.StoredFormReadsTheSame` | core/cron-store.js:32-58 | The stored form of an expression reads as the same schedule and stays as it is. |
| `CronParse.NextRunOf` | core/cron-store.js:79-110 | The next run of an expression given as text fails only where the expression is refused. |
| `CronRule.AcceptedExactlyWhen` | core/cron-store.js:32-58 | An expression is accepted if and only if it is five words, each of its field's grammar, and, where only the day of the month restricts the day, some day it names exists in some year. |
| `CronRule.MatchesWhatIsWritten` | core/cron-store.js:490-497 | An accepted expression is matched by exactly the minutes its text names: minute, hour and month as listed, and the day by either day field, where a bare star counts only if both are. |
| `CronRule.WeekdaysGoRound` | core/cron-store.js:490-492 | Weekdays go round by seven from day to day, and 1 January 1970 was a Thursday. |
| `CronClaims.NextRunExists` | core/cron-store.js:79-110 | Every accepted expression has a next run after every time in milliseconds. |
| `CronClaims.NextRunIsLater` | core/cron-store.js:79-110 | The next run is later than the start and than the start's minute, and falls on a minute. |
| `CronSafety.StepIsGood` | core/cron-store.js:182-379 | Every store operation, at any clock reading, keeps one running record a job, distinct identifiers, the log limit, stored expressions that parse, and a next run exactly for enabled jobs. |
| `CronSafety.ReloadIsGood` | core/cron-store.js:509-599 | A restart over the store's own file loses no job, changes no schedule, and leaves no record running. |
| `CronSafety.NewestIsTidy` | core/cron-store.js:565-599 | Reading a log back closes every running record, orders by start and keeps every identifier. |
| `CronHistory.RegistryStaysGood` | core/cron-store.js:182-379 | In every history, however the clock moves, a job has at most one running record. |
| `CronHistory.SlotsIncrease` | core/cron-store.js:263-320 | While the clock does not go back and scheduled calls name the tick's minute, the slots claimed for a job strictly increase and an enabled job's next run lies after all of them. |
| `CronHistory.ClaimStaysOrderly` | core/cron-scheduler.js:92-130 | A scheduled claim goes to a later slot than every earlier one and moves the next run past it. |
| `CronHistory.ClaimGrantedExactlyWhen` | core/cron-store.js:263-320 | A claim is granted if and only if the job exists, all its running records are stale, and a scheduled one finds the job enabled and the slot new. |
| `CronHistory.ClaimEndsExactlyWhen` | core/cron-store.js:263-379 | A running claim survives a call if and only if the call is not its finish, the job's removal, a restart, a later claim once it is stale, or a record that pushes it off the log. |
| `CronHistory.RecordingEvictsTheClaim` | core/cron-store.js:344-379 | With a history limit of one, recording an external run drops the running claim and a second run is granted. |
| `CronHistory.LateReportOverwrites` | core/cron-store.js:322-341 | For example: a run broken as abandoned reports, and its status is shown while another run is going. |
| `CronHistory.ShownAgreesExactlyWhen` | core/cron-store.js:322-341 | After a report that is taken, the job shows what its log says (running while a record runs, else the newest record) if and only if the reported record was running or none ran, and it is the newest record or agrees with it. |
| `CronEffects.CreatedJob` | core/cron-store.js:182-205 | A new job stands behind the others, enabled unless told otherwise, without records, and if enabled shows the first match of its expression after the call. |
| `CronEffects.UpdatedJob` | core/cron-store.js:207-227 | An update sets what it is given and keeps the rest of its job, and touches nothing else; a changed expression or enablement shows the next run of the new expression from now on, a disabled job shows none, any other keeps its own. |
| `CronEffects.RemovedJob` | core/cron-store.js:229-238 | A removal takes the job and its log and nothing else. |
| `CronEffects.BegunRun` | core/cron-store.js:263-320 | A granted claim puts a new running record, started now, in front of its log, after closing the stale ones as cancelled; the oldest fall off at the limit. |
| `CronEffects.BegunJob` | core/cron-store.js:263-320 | Its job is shown running; a scheduled claim remembers its slot and shows the next run after the given start, a manual one leaves the schedule. |
| `CronEffects.RefusedRun` | core/cron-store.js:263-290 | A refused claim closes the stale records of its job and moves nothing else. |
| `CronEffects.FinishTakenExactlyWhen` | core/cron-store.js:322-331 | A report is taken if and only if the job exists and the record is still in its log. |
| `CronEffects.FinishedRun` | core/cron-store.js:322-341 | A report closes the record it names with its status, shows that status, and moves nothing else. |
| `CronEffects.RecordedRun` | core/cron-store.js:344-368 | An external run is recorded as it was told, with the time of the call where none was told, and ends no earlier than it started. |
| `CronEffects.RecordedInFront` | core/cron-store.js:369-379 | It goes in front of its job's log under an identifier of its own, the job shows its status, and no schedule moves. |
| `CronEffects.IdentifierIsTheFirstUnused` | core/cron-store.js:385-392 | Of the identifiers drawn, up to the limit, the first one not in use is taken; none if and only if all of them are in use. |
| `CronEffects.NewestKeepsRecords` | core/cron-store.js:565-599 | Reading a log back changes no record but those that were running, which it closes as cancelled at the time of the call. |
| `CronEffects.EnabledJobsShowTheirNextRun` | core/cron-store.js:182-320 | In every history, however the clock moves, every enabled job shows the first match of its present expression after some time. |
| `CronEffects.NothingIsPassedOver` | core/cron-store.js:182-320 | While the clock does not go back, that time has been reached already, so no match lies between now and the run shown. |
| `CronStore.CronRegistry.Load` | core/cron-store.js:152-167 | Reads the file back job by job. |
| `CronStore.CronRegistry.CloseStale` | core/cron-store.js:274-283 | The pass that closes abandoned claims. |
| `AccountRouting.Candidates` | core/provider-account-pool.js:439-465 | The candidates leave accounts, leases and cursor as they are; only session bindings are brought up to date. |
| `AccountRouting.AvailableAre` | core/provider-account-pool.js:443-448 | The filter keeps exactly the available accounts, in order. |
| `RoutingGuarantees.CandidatesAreAvailable` | core/provider-account-pool.js:439-465 | The candidates are exactly the available accounts of an enabled pool. |
| `RoutingGuarantees.RankedInOrder` | core/provider-account-pool.js:402-437 | Under every strategy the ranking is in order. |
| `RoutingGuarantees.PlainTakesTheBest` | core/provider-account-pool.js:467-489 | A request without affinity, preference or named account takes an available account that none ranks before, whenever there is one. |
| `RoutingGuarantees.LeasesAlwaysBalance` | core/provider-account-pool.js:467-500 | In every history each account's requests in flight are exactly its leases out and within its limit; the session table stays bounded without double keys. |
| `RoutingGuarantees.WaitingComesNearer` | core/provider-account-pool.js:416-424 | Passing over an available account brings it strictly nearer to the cursor. |
| `RoutingGuarantees.RoundRobinStarvesNobody` | core/provider-account-pool.js:416-489 | An account available at every acquisition is passed over fewer times than there are accounts, whatever happens to the others. |
| `RoutingGuarantees.StrikesAreStreaks` | core/provider-account-pool.js:565-631 | The strike counters are the lengths of the present streaks of authentication failures, capped at 31. |
| `RoutingGuarantees.BlockedExactlyWhen` | core/provider-account-pool.js:584-604 | A failure blocks an unblocked account if and only if it completes a streak of the required length. |
| `RoutingGuarantees.SoftFailuresNeverBlock` | core/provider-account-pool.js:605-627 | Transport and soft failures alone never block or disable an account. |
| `RoutingGuarantees.LateFailureLiftsTheBlock` | core/provider-account-pool.js:565-631 | For every failure of a request still in flight: once its cooldown is over, an account whose credential was rejected is ready again if and only if the failure neither disables it, nor is a rejection that reaches its strikes, nor says nothing and is not retryable. |
| `RoutingGuarantees.BlockAfterFailureExactlyWhen` | core/provider-account-pool.js:565-631 | For every account and every failure: the account is blocked afterwards if and only if the failure is a rejection that reaches the strikes of its kind, or the account was blocked and the failure says nothing and is not retryable. |
| `RoutingGuarantees.UnderThresholdLiftsTheBlock` | core/provider-account-pool.js:565-631 | For example: an uncertain rejection short of its strikes lifts a block. |
| `RoutingGuarantees.CooldownIsBounded` | core/provider-account-pool.js:542-563 | A cooldown lasts at least its base time and at most the longest one, unless the base is longer. |
| `RoutingGuarantees.FreshIsSound` | core/provider-account-pool.js:242-286 | A new router over accounts with distinct identifiers satisfies the invariant that every history keeps, whatever its saved blocks and cooldowns. |
| `SessionAffinity.GrantTakesOne` | core/provider-account-pool.js:467-489 | An accepted request takes an available account, counts one request on that account alone, and holds a lease no other request holds. |
| `SessionAffinity.ReleaseUndoesAcquire` | core/provider-account-pool.js:491-500 | Releasing a lease restores every count of before its acquisition, once; a second release does nothing. |
| `SessionAffinity.RememberBinds` | core/provider-account-pool.js:364-372 | Remembering a session binds it, and the eviction of old sessions never takes the binding just made. |
| `SessionAffinity.PrunedAre` | core/provider-account-pool.js:356-362 | Pruning keeps exactly the bindings that have not expired and whose account is known. |
| `SessionAffinity.AcquireBinds` | core/provider-account-pool.js:467-489 | An accepted request binds its session to the account it was given. |
| `SessionAffinity.BoundSessionFindsItsAccount` | core/provider-account-pool.js:374-389 | A session whose binding has not expired finds its account while that is ready and allows the model. |
| `SessionAffinity.BindingIsHonoured` | core/provider-account-pool.js:439-489 | A bound session gets its account whenever that is available and no preferred account is, whatever the strategy would rank first. |
| `SessionAffinity.SessionSticks` | core/provider-account-pool.js:439-489 | Two requests of one session in a row go to one account. |
| `RoutingEffects.GrantedExactlyWhen` | core/provider-account-pool.js:439-489 | A request is granted if and only if the pool is enabled and some account is enabled, not blocked, not cooling, free, not excluded and allows the model, and is the named one where one is named; a request that names an account gets that account. |
| `RoutingEffects.PreferredIsGranted` | core/provider-account-pool.js:450-465 | A request that prefers an account and names none gets the preferred one whenever that can take it. |
| `RoutingEffects.StrategyIsFollowed` | core/provider-account-pool.js:402-437 | A plain request gets an account than which no other that can take it is better: the next in turn, the first by priority and place, the one used longest ago, or the one that would carry the least for its weight. |
| `RoutingEffects.SuccessClears` | core/provider-account-pool.js:502-517 | After a success nothing is held against the account, an enabled one is ready and its session bound, and the other accounts are as they were. |
| `RoutingEffects.ResetClears` | core/provider-account-pool.js:520-536 | A reset clears the account's condition and exactly the sessions bound to it, and leaves the other accounts. |
| `RoutingEffects.FailureCounts` | core/provider-account-pool.js:565-631 | A failure counts one more up to 31 and is remembered; one that disables takes the account out; its sessions are dropped if and only if it is not ready afterwards; the other accounts are as they were. |
| `RoutingEffects.CooldownHeedsTheProvider` | core/provider-account-pool.js:542-563 | A failure that cools keeps the account away at least as long as the provider asks for, up to the longest time. |
| `RoutingEffects.CooldownDoubles` | core/provider-account-pool.js:542-563 | Without advice each cooldown in a row doubles until the longest is reached, and the first lasts the base time. |
| `RoutingEffects.FreshShows` | core/provider-account-pool.js:242-286 | A new router shows each account as it was saved, idle, with no lease and no session. |
| `AccountPool.ProviderAccountPoolRouter.PruneSessions` | core/provider-account-pool.js:356-362 | Removes exactly the expired bindings and those to unknown accounts. |
| `AccountPool.ProviderAccountPoolRouter.RememberSession` | core/provider-account-pool.js:364-372 | Binds a session and evicts the oldest bindings beyond the limit. |
| `AccountPool.ProviderAccountPoolRouter.ClearAccountSessions` | core/provider-account-pool.js:396-400 | Removes exactly the bindings of one account. |
| `AccountPool.ProviderAccountPoolRouter.OrderedCandidates` | core/provider-account-pool.js:439-465 | Filters, binds and orders as `Candidates` says. |
| `BrokerGuarantees.OneLeaseAnAccount` | core/kiro-organization-broker.js:164-188 | No account has two live leases. |
| `BrokerEffects.LeaseKeepsThePolicy` | core/kiro-organization-broker.js:432-496 | A lease that is given is for an enabled account that is not blocked and not excluded, whose policy allows the model and the project and whose credential is affirmed in its present generation; it is recorded with that generation, and only the router moves besides. |
| `BrokerEffects.LeaseRefusedExactlyWhen` | core/kiro-organization-broker.js:432-460 | An open broker that can draw an identifier turns a request away if and only if the organization is disabled or no account is affirmed, allowed, not excluded, enabled and ready in the router and free, and the named one where one is named. |
| `BrokerEffects.RouterAlwaysMirrors` | core/kiro-organization-broker.js:164-188 | In every history the router runs on the broker's configuration, and each member stands for its account: identifier, weight, priority, models, one request at a time. |
| `BrokerEffects.NewRouterShows` | core/kiro-organization-broker.js:164-188 | A new router shows an account as disabled if and only if it is disabled or blocked, as waiting for its credential if and only if it is not and lacks an affirmed one, and as ready otherwise; one request at a time. |
| `BrokerEffects.Opened` | core/kiro-organization-broker.js:94-129 | A broker is opened with every account in generation one and none affirmed, no lease and no check; enabled accounts wait for their credential. |
| `BrokerEffects.ReleasedLease` | core/kiro-organization-broker.js:522-536 | A lease is released if and only if the broker is open and knows it; then it and its router lease are gone, and no other. |
| `BrokerEffects.CancelledLease` | core/kiro-organization-broker.js:467-481 | A caller that cancels stops its lease, on a closed broker too, and no other. |
| `BrokerEffects.SuccessReported` | core/kiro-organization-broker.js:538-548 | A success for a live lease clears its account in the router and moves nothing else in the broker. |
| `BrokerEffects.EntitlementDenialBlocks` | core/kiro-organization-broker.js:550-586 | A denied entitlement blocks the account of the lease under the right reason, raises its generation, stops its leases and aborts its checks, and leaves the other accounts. |
| `BrokerEffects.RejectionUnverifies` | core/kiro-organization-broker.js:550-586 | A rejected credential drops the verification of the account, raises its generation, stops its leases and aborts its checks, and leaves the other accounts. |
| `BrokerEffects.OtherFailureIsPassedOn` | core/kiro-organization-broker.js:550-586 | Any other failure goes to the router only, without the message that shows an invalid key. |
| `BrokerEffects.BegunCheck` | core/kiro-organization-broker.js:320-334 | A check that starts keeps the very key and generation it was started with. |
| `BrokerEffects.CheckThatCannotStart` | core/kiro-organization-broker.js:320-415 | A check that cannot start counts as failed: the account loses its verification and is fenced. |
| `BrokerEffects.EndedCheck` | core/kiro-organization-broker.js:335-415 | A check that ends across a fence changes nothing; one that affirms the credential makes the account affirmed and clear in the router; one that does not drops the verification and fences the account. |
| `BrokerEffects.Revoked` | core/kiro-organization-broker.js:588-603 | A revocation is refused if and only if the broker is closed, the account unknown or its generations used up; it takes the credential with all that stood on it, and fences the account. |
| `BrokerEffects.Reconfigured` | core/kiro-organization-broker.js:273-318 | A reconfiguration raises every generation, and carries a verification or a block over if and only if the stored credential is unchanged; leases, checks and vanished accounts are gone. |
| `BrokerEffects.ClosedDown` | core/kiro-organization-broker.js:675-681 | Closing stops every lease and aborts every check, and closing again changes nothing. |
| `BrokerGuarantees.StopFromKeeps` | core/kiro-organization-broker.js:220-245 | Stopping removes exactly the matching leases and gives their router leases back. |
| `BrokerGuarantees.FenceRestores` | core/kiro-organization-broker.js:264-271 | After an account's entries change, the fence leaves the other accounts' leases, all live, and none of its own. |
| `BrokerGuarantees.AcquireKeepsFence` | core/kiro-organization-broker.js:432-496 | Taking a lease keeps every live lease fenced, on every way out. |
| `BrokerGuarantees.LiveRecordIsFound` | core/kiro-organization-broker.js:498-514 | In a fenced broker a known lease is never stale. |
| `BrokerGuarantees.FailureKeepsFence` | core/kiro-organization-broker.js:550-586 | Reporting a failure keeps the leases fenced if and only if no fence is needed or generations are left. |
| `BrokerHistory.FailVerificationFences` | core/kiro-organization-broker.js:399-413 | A failed check fences its account, unless the generations have run out while the account is leased. |
| `BrokerHistory.RevokeKeepsFence` | core/kiro-organization-broker.js:588-603 | Revoking leaves no credential and no lease of the account. |
| `BrokerHistory.ReconfigureFences` | core/kiro-organization-broker.js:273-318 | A reconfiguration leaves no lease behind, even where it then throws. |
| `BrokerHistory.StepKeepsFence` | core/kiro-organization-broker.js:273-603 | Every call keeps every live lease fenced while generations last. |
| `BrokerHistory.GenerationsCountCalls` | core/kiro-organization-broker.js:264-299 | Generations grow by at most one a call. |
| `BrokerHistory.LeasesStayFenced` | core/kiro-organization-broker.js:220-603 | From opening on, after every call, each live lease holds its own router lease, is the only one of its account, and carries the present generation of a verified account that is not blocked. |
| `BrokerHistory.LeaksExactlyWhen` | core/kiro-organization-broker.js:453-468 | A call loses track of a router lease if and only if the router has granted and drawing an identifier then fails. |
| `BrokerHistory.LeasedKeysWereAffirmed` | core/kiro-organization-broker.js:301-303 | In every history a verification stands only for the very key the worker affirmed last for the account. |
| `KiroBroker.KiroOrganizationBroker.StopLeases` | core/kiro-organization-broker.js:237-245 | Walks the leases and stops those that match. |
| `KiroBroker.KiroOrganizationBroker.CarryOver` | core/kiro-organization-broker.js:290-308 | Generations, verifications and blocks carried into the next configuration. |
| `KiroBroker.KiroOrganizationBroker.CloseAll` | core/kiro-organization-broker.js:675-681 | Closes, aborting operations and stopping every lease. |
| `DiffHunks.RenderedDiffReadsBack` | core/diff-hunks.js:15-23 | A written diff reads back as the same operations. |
| `DiffHunks.LinesAreReadByTheirMarks` | core/diff-hunks.js:15-23 | Every line of a diff is one operation: added, removed or context by its mark and without it, and a line without a mark is context in full. |
| `DiffHunks.GroupOpsIntoHunks` | core/diff-hunks.js:32-53 | The hunks are numbered, pending, in order, disjoint, maximal, and cover exactly the changes. |
| `DiffHunks.GroupingIsUnique` | core/diff-hunks.js:32-53 | There is only one such grouping. |
| `DiffHunks.ApplyHunksToOldText` | core/diff-hunks.js:73-109 | The loop rebuilds the text from context lines and the side each change position takes; without operations the text stays. |
| `DiffHunks.OutputIsTheSplice` | core/diff-hunks.js:73-109 | The rebuilt lines are the hunk-by-hunk splice of new side (accepted) and old side (otherwise). |
| `DiffHunks.AllAcceptedGivesNewText` | core/diff-hunks.js:73-109 | With every hunk accepted a diff from the old text to the new gives the new text. |
| `DiffHunks.NoneAcceptedKeepsOldText` | core/diff-hunks.js:83-109 | With no hunk accepted, pending ones included, the text stays as it was. |
| `DiffHunks.OldTextKeptExactlyWhen` | core/diff-hunks.js:83-109 | With no hunk accepted, operations of any kind keep the text if and only if there are none or they list its lines in full; lines they do not mention are dropped. |
| `DiffHunks.EarlierBatchWins` | core/diff-hunks.js:116-124 | Within one batch the last decision of a hunk counts; across batches the first does. |
| `DiffHunks.DecidedExactlyWhen` | core/diff-hunks.js:116-124 | A pending hunk becomes accepted if and only if the last decision about it in the batch accepts, rejected if and only if it rejects; without a decision, or decided before, it stays as it is. |
| `DiffHunks.DecidingAllGivesThatText` | core/diff-hunks.js:73-124 | Accepting every hunk of a fresh diff gives the new text, and rejecting every one keeps the old. |
| `DiffHunks.OrderOfDecisionsIsFree` | core/diff-hunks.js:116-124 | Batches about distinct hunks may come in either order and give the same text. |
| `DiffHunks.AggregateMeans` | core/diff-hunks.js:130-136 | The shown status is pending if and only if some hunk is, accepted or rejected if and only if all are, and partial if and only if all are decided both ways. |
| `DiffHunks.StatusAgreesWithText` | core/diff-hunks.js:130-136 | Accepted as a whole means the new text, rejected as a whole the old one. |

## Left out

- Object key order: JSON objects are maps, so "equal up to key order" is equality; a numeric segment through an object or a text segment through an array counts as corrupt.
- Row text: the encoding of a journal row is a parameter with the laws `Lawful` and `PrefixFree`, which `JournalText.LawsCanBeKept` shows can be kept; JSON numbers are exact decimals, so minus zero is zero; the letters of JSON text itself, row type and time fields, size limits of payloads, locks, fsync, temporary-file names, directory listing and journal paging are not modelled.
- Digests and the three verifiers are arbitrary functions; no injectivity is needed. Digest syntax and case folding are types here, and a malformed digest is an absent one.
- Redaction, free text, stage output, clock stamps and identity fields of a run are not modelled; stage metadata is reduced to the retry limit.
- Artifact envelopes are an opaque predicate; lineage errors are one error code.
- Budget amounts are real numbers: rounding of costs, NaN and unknown fields are excluded by type.
- PipelineGraph.GraphFor: does not say how often a stage stands in the list of another it names twice.
- MissionTurns.TurnAsks: the approval identifier is a fresh one and the limit of approvals is not reached.
- RoutingEffects.CooldownDoubles: speaks of failures other than soft authentication failures, whose cooldown also counts their own strikes.
- SessionAffinity.SessionSticks: speaks of two requests in a row; calls of other sessions in between may evict the binding.
- RunRetries.TotalExecutionsBounded: the repair limit is taken as a whole number, which the limit normaliser ensures.
- RunRetries.StageExecutionsBounded: speaks of stages that execute; an approval stage only counts its own request.
- RunFencing.NoWriteWithoutApproval: a write stage is one of kind `action`, and calls are those of the coordinator and the control interface; the raw interface checks dependencies only from `pending` to `running`.
- MissionRunner.AdvanceOnce: one turn up to its call; executors, leases on workspaces, events and the repetition after a lost claim are left to histories of calls.
- Calendar.SameStamp: a naive Gregorian calendar with unbounded years; time zones, daylight saving and the range of dates are not modelled. Milliseconds are counted from the start of that calendar.
- CronSafety.ReloadIsGood: the file is the one this store wrote; malformed files are not modelled.
- CronHistory.SlotsIncrease: the claims of a job are counted from its creation; a job removed and created again counts anew.
- Cron job names, prompts, run results, session identifiers, due times and durations are not modelled; the identifier factory is a list of drawn identifiers; identifier syntax and failing file writes, which restore the previous state, are left out.
- Account names, the normalisation of saved pools, the snapshot methods and the reset of all accounts at once are not modelled; the message patterns that reveal an invalid key are one flag. One call reads the clock once, where the code may read it several times.
- The weights compared by the balanced strategy are exact fractions.
- Broker auditing, signals other than the one of a lease, the reflection scan of credentials, model discovery and the account snapshot are not modelled; the end of a credential operation and the recording of its outcome are one step.
- BrokerHistory.LeasesStayFenced: holds for histories shorter than 2^53 calls, after which generations run out.
- Hunk previews are not modelled; the ordinal of a hunk stands for its identifier.
- DiffHunks.RenderedDiffReadsBack: needs at least one operation and texts without line breaks, as a line diff has.
- Regular-expression normalisers and validators, network and process clients, device flows, secret redaction, skills, prompts, templates and the desktop shell are outside the model.
