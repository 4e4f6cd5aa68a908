/**
 * The durable state of one pipeline run and the updaters that the store applies
 * to it.  An updater takes the current state and either returns the next state
 * or throws; nothing is written when it throws.
 *
 * Left aside here: clock stamps, free text, stage output, stage metadata other
 * than the retry limit, and the identity fields no updater may touch.
 */
module RunState {
  import opened Common
  import opened PG = PipelineGraph
  import opened RunBudget

  type Digest = string
  type ClaimId = string

  datatype RunStatus =
    | Queued | Active | Paused | BudgetPausedRun | AwaitingDecision
    | BlockedRun | CompletedRun | FailedRun | CancelledRun | InterruptedRun

  datatype StageStatus =
    | Pending | Running | AwaitingApproval | Blocked | BudgetPaused | Completed
    | Failed | Skipped | Cancelled | Interrupted | Uncertain

  datatype Outcome = Retry | Applied | Abandoned

  /**
   * A receipt or resolution marker.  `None` stands for a field that is missing
   * or malformed; `observed` says whether its observation time parses.
   */
  datatype Receipt = Receipt(
    body: string,
    outcome: Option<Outcome>,
    workspaceDigest: Option<Digest>,
    workspaceDigestBefore: Option<Digest>,
    observed: bool,
    cites: Option<seq<Digest>>)

  datatype Resolution = Resolution(marker: Receipt, outcome: Outcome, retryAuthorized: bool, retryConsumed: bool)

  datatype RunStage = RunStage(
    id: Id,
    kind: Kind,
    dependsOn: seq<Id>,
    writeCapable: bool,
    maxAttempts: Option<int>,
    status: StageStatus,
    attempts: nat,
    claim: Option<ClaimId>,
    artifactIds: seq<string>,
    uncertain: bool,
    resolution: Option<Resolution>,
    digestBefore: Option<Digest>,
    receipt: Option<Receipt>,
    receiptDigest: Option<Digest>,
    gateReceipt: Option<Receipt>,
    gateDigest: Option<Digest>)

  datatype ArtifactKind = DepartmentArtifact | ActionArtifact | VerificationArtifact | ImprovementArtifact | AssistanceArtifact

  datatype Artifact = Artifact(id: string, stageId: Id, kind: ArtifactKind, body: string)

  datatype Decision = Requested | Approved | Rejected | Withdrawn | Expired

  datatype ApprovalRecord = ApprovalRecord(id: string, stageId: Id, status: Decision)

  datatype RunRecord = RunRecord(
    status: RunStatus,
    stages: seq<RunStage>,
    artifacts: seq<Artifact>,
    approvals: seq<ApprovalRecord>,
    budget: Budget,
    checkpoint: Digest,
    sessions: seq<string>)

  /** The callbacks of the store: the three verifiers, the receipt digest, and the artifact validator. */
  datatype Env = Env(
    resolutionVerified: Receipt -> bool,
    gateVerified: Receipt -> bool,
    actionVerified: Receipt -> bool,
    digest: Receipt -> Digest,
    envelopeOk: Artifact -> bool)

  datatype RunError =
    | RunTerminal | StatusTransitionInvalid | WriteResolutionRequired | StageActive | CompletionGateFailed
    | ResumeInvalid | ResolutionUnverified | ResolutionInvalid | ResolutionConflict | ResolutionOutcomeInvalid
    | RunInactive | StageNotFound | ClaimLost | RetryImmutable | SkipForbidden | ApprovalApiRequired
    | GateReceiptRequired | ActionReceiptRequired | DepartmentArtifactRequired | DependenciesIncomplete
    | StageTransitionInvalid | RetryExhausted | BudgetRefused(e: BudgetError) | BaselineRequired | WorkspaceChanged
    | ActionReceiptInvalid | GateReceiptInvalid | ArtifactLimit | ArtifactInvalid | ArtifactExists
    | DepartmentStageRequired | DepartmentArtifactExists | ApprovalLimit | ApprovalTransitionInvalid
    | ApprovalStageInvalid | ApprovalDependenciesIncomplete | LineageInvalid

  const MAX_ARTIFACTS := 2_000
  const MAX_APPROVALS := 2_000
  const MAX_SESSIONS := 1_000
  const MAX_CITES := 2_000

  // ---------------------------------------------------------------- tables

  predicate Terminal(s: RunStatus) {
    s.CompletedRun? || s.FailedRun? || s.CancelledRun?
  }

  function RunEdges(s: RunStatus): set<RunStatus> {
    match s
    case Queued => {Active, CancelledRun}
    case Active => {Paused, BudgetPausedRun, AwaitingDecision, BlockedRun, CompletedRun, FailedRun, CancelledRun, InterruptedRun}
    case Paused => {Active, CancelledRun}
    case BudgetPausedRun => {FailedRun, CancelledRun}
    case AwaitingDecision => {Active, BlockedRun, InterruptedRun, FailedRun, CancelledRun}
    case BlockedRun => {Active, InterruptedRun, FailedRun, CancelledRun}
    case InterruptedRun => {Active, FailedRun, CancelledRun}
    case _ => {}
  }

  function StageEdges(s: StageStatus): set<StageStatus> {
    match s
    case Pending => {Running, AwaitingApproval, Blocked, Skipped, Cancelled}
    case Running => {AwaitingApproval, Blocked, BudgetPaused, Interrupted, Uncertain, Completed, Failed, Cancelled}
    case AwaitingApproval => {Blocked, Completed, Failed, Cancelled}
    case Blocked => {Pending, Running, Failed, Skipped, Cancelled}
    case BudgetPaused => {Running, Interrupted, Failed, Cancelled}
    case Interrupted => {Running, Failed, Cancelled}
    case Failed => {Pending, Running, Skipped, Cancelled}
    case _ => {}
  }

  predicate IsWrite(s: RunStage) {
    s.writeCapable || s.kind.Action?
  }

  predicate DurableCompletion(s: RunStage) {
    if s.kind.TruthGate? then s.gateReceipt.Some?
    else if IsWrite(s) then s.receipt.Some? || (s.resolution.Some? && s.resolution.value.outcome.Applied?)
    else if s.kind.Department? then |s.artifactIds| > 0
    else true
  }

  function MaxAttempts(s: RunStage): nat {
    if s.maxAttempts.Some? && s.maxAttempts.value > 0 then s.maxAttempts.value else 1
  }

  /** The position of the first stage with this id. */
  function IndexOf(stages: seq<RunStage>, id: Id): (r: Option<nat>)
    ensures r.Some? ==> r.value < |stages| && stages[r.value].id == id
    ensures r.None? ==> forall i :: 0 <= i < |stages| ==> stages[i].id != id
    decreases |stages|
  {
    if |stages| == 0 then None
    else if stages[0].id == id then Some(0)
    else match IndexOf(stages[1..], id)
         case None =>
           assert forall i :: 1 <= i < |stages| ==> stages[i] == stages[1..][i - 1];
           None
         case Some(k) => Some(k + 1)
  }

  predicate CompletedAt(stages: seq<RunStage>, id: Id) {
    IndexOf(stages, id).Some? && stages[IndexOf(stages, id).value].status.Completed?
  }

  predicate DependenciesReady(stages: seq<RunStage>, s: RunStage) {
    forall d :: d in s.dependsOn ==> CompletedAt(stages, d)
  }

  predicate WriteUnresolved(s: RunStage) {
    IsWrite(s) && (s.status.Running? || s.status.Uncertain? || s.uncertain)
  }

  // ---------------------------------------------------------------- lineage

  function StageTable(stages: seq<RunStage>): (e: Edges)
    ensures e.Keys == set s | s in stages :: s.id
  {
    if |stages| == 0 then map[]
    else
      var last := stages[|stages| - 1];
      assert forall s :: s in stages <==> s in stages[..|stages| - 1] || s == last;
      StageTable(stages[..|stages| - 1])[last.id := last.dependsOn]
  }

  /** The stages that the given ones lead to along dependencies, themselves included. */
  ghost predicate Upstream(stages: seq<RunStage>, s: RunStage, id: Id) {
    exists d :: d in s.dependsOn && (d == id || Reaches(StageTable(stages), d, id))
  }

  /** Every upstream id is a known stage, and every upstream write carries the digest of its receipt. */
  ghost predicate LineageComplete(stages: seq<RunStage>, s: RunStage) {
    forall id :: Upstream(stages, s, id) ==>
      && IndexOf(stages, id).Some?
      && var c := stages[IndexOf(stages, id).value];
         IsWrite(c) ==> c.receiptDigest.Some?
  }

  /** The receipt digests of all upstream writes. */
  ghost function LineageDigests(stages: seq<RunStage>, s: RunStage): set<Digest> {
    set c | c in stages && IsWrite(c) && c.receiptDigest.Some? && Upstream(stages, s, c.id) :: c.receiptDigest.value
  }

  predicate CitesOk(cites: Option<seq<Digest>>) {
    && cites.Some?
    && 0 < |cites.value| <= MAX_CITES
    && forall i, j :: 0 <= i < j < |cites.value| ==> cites.value[i] != cites.value[j]
  }

  ghost predicate CitesLineage(stages: seq<RunStage>, s: RunStage, cites: Option<seq<Digest>>) {
    && CitesOk(cites)
    && LineageComplete(stages, s)
    && LineageDigests(stages, s) == set d | d in cites.value
  }

  // ---------------------------------------------------------------- run-level updaters

  function Transition(run: RunRecord, status: RunStatus): Result<RunRecord, RunError> {
    if run.status == status then Ok(run)
    else if status !in RunEdges(run.status) then Err(StatusTransitionInvalid)
    else if Terminal(status) && exists s :: s in run.stages && WriteUnresolved(s) then Err(WriteResolutionRequired)
    else if Terminal(status) && exists s :: s in run.stages && s.status.Running? then Err(StageActive)
    else if status.CompletedRun? && exists s :: s in run.stages && (!s.status.Completed? || !DurableCompletion(s))
      then Err(CompletionGateFailed)
    else Ok(run.(status := status))
  }

  /** A stop from outside: a running write is left uncertain, any other running stage interrupted. */
  function StopStage(s: RunStage): RunStage {
    if !s.status.Running? then s
    else s.(status := if IsWrite(s) then Uncertain else Interrupted, uncertain := IsWrite(s))
  }

  function StopAll(stages: seq<RunStage>): (r: seq<RunStage>)
    ensures |r| == |stages|
    ensures forall i :: 0 <= i < |stages| ==> r[i] == StopStage(stages[i])
  {
    seq(|stages|, i requires 0 <= i < |stages| => StopStage(stages[i]))
  }

  function Cancel(run: RunRecord): Result<RunRecord, RunError> {
    if run.status.CancelledRun? then Ok(run)
    else if Terminal(run.status) then Err(StatusTransitionInvalid)
    else
      var unresolved := exists s :: s in run.stages && WriteUnresolved(s);
      Ok(run.(status := if unresolved then InterruptedRun else CancelledRun, stages := StopAll(run.stages)))
  }

  function RecoverInterrupted(run: RunRecord): Result<RunRecord, RunError> {
    if Terminal(run.status) || (!run.status.Active? && !exists s :: s in run.stages && s.status.Running?) then Ok(run)
    else Ok(run.(status := InterruptedRun, stages := StopAll(run.stages)))
  }

  function ApplyResolution(env: Env, s: RunStage, marker: Receipt): Result<RunStage, RunError> {
    if !env.resolutionVerified(marker) then Err(ResolutionUnverified)
    else if marker.outcome.None? then Err(ResolutionInvalid)
    else
      var outcome := marker.outcome.value;
      var resolved := s.(
        status := match outcome { case Applied => Completed case Abandoned => Failed case Retry => Interrupted },
        uncertain := false,
        resolution := Some(Resolution(marker, outcome, outcome.Retry?, false)));
      Ok(if outcome.Applied? then resolved.(receipt := Some(marker), receiptDigest := Some(env.digest(marker))) else resolved)
  }

  predicate NeedsResolution(s: RunStage) {
    s.status.Uncertain? || s.uncertain
  }

  function Rearm(s: RunStage): RunStage {
    if s.status.Blocked? then s.(status := Pending) else s
  }

  /** The markers of a resume call: one per stage, or a single one when a single stage is uncertain. */
  datatype Markers = Markers(byStage: map<Id, Receipt>, single: Option<Receipt>)

  function MarkerFor(m: Markers, id: Id, uncertainCount: nat): Option<Receipt> {
    if id in m.byStage then Some(m.byStage[id])
    else if uncertainCount == 1 then m.single
    else None
  }

  function CountUncertain(stages: seq<RunStage>): nat {
    if |stages| == 0 then 0 else (if NeedsResolution(stages[0]) then 1 else 0) + CountUncertain(stages[1..])
  }

  /** Resolve the uncertain stages in order, remembering the last marker that fixes the workspace. */
  function ResolveAll(env: Env, stages: seq<RunStage>, m: Markers, count: nat, last: Option<Receipt>)
    : (r: Result<(seq<RunStage>, Option<Receipt>), RunError>)
    ensures r.Ok? ==> |r.value.0| == |stages|
    ensures r.Ok? ==> forall i :: 0 <= i < |stages| ==>
              if NeedsResolution(stages[i])
              then MarkerFor(m, stages[i].id, count).Some?
                   && ApplyResolution(env, stages[i], MarkerFor(m, stages[i].id, count).value) == Ok(r.value.0[i])
              else r.value.0[i] == stages[i]
    decreases |stages|
  {
    if |stages| == 0 then Ok(([], last))
    else
      var s := stages[0];
      if !NeedsResolution(s) then
        var rest :- ResolveAll(env, stages[1..], m, count, last);
        Ok(([s] + rest.0, rest.1))
      else
        var marker := MarkerFor(m, s.id, count);
        if marker.None? then Err(WriteResolutionRequired)
        else
          var resolved :- ApplyResolution(env, s, marker.value);
          var fixes := !resolved.resolution.value.outcome.Retry?;
          if fixes && last.Some? && last.value.workspaceDigest != marker.value.workspaceDigest then Err(ResolutionConflict)
          else
            var rest :- ResolveAll(env, stages[1..], m, count, if fixes then marker else last);
            Ok(([resolved] + rest.0, rest.1))
  }

  function Resume(env: Env, run: RunRecord, m: Markers): Result<RunRecord, RunError> {
    if !(run.status.Paused? || run.status.InterruptedRun? || run.status.BlockedRun?) then Err(ResumeInvalid)
    else
      var stages := if run.status.BlockedRun?
                    then seq(|run.stages|, i requires 0 <= i < |run.stages| => Rearm(run.stages[i]))
                    else run.stages;
      var resolved :- ResolveAll(env, stages, m, CountUncertain(stages), None);
      var marker := resolved.1;
      if marker.Some? && (marker.value.workspaceDigest.None? || !marker.value.observed) then Err(ResolutionInvalid)
      else
        Ok(run.(status := Active, stages := resolved.0,
                checkpoint := if marker.Some? then marker.value.workspaceDigest.value else run.checkpoint))
  }

  function AttachSession(run: RunRecord, id: string): Result<RunRecord, RunError> {
    Ok(if id in run.sessions then run else run.(sessions := run.sessions + [id]))
  }

  // ---------------------------------------------------------------- stage updates

  datatype Update = Update(
    status: Option<StageStatus>,
    expectedStatus: Option<StageStatus>,
    claim: Option<ClaimId>,
    expectedClaim: Option<ClaimId>,
    touchesRetry: bool,
    actionReceipt: Option<Receipt>,
    gateReceipt: Option<Receipt>,
    marker: Option<Receipt>,
    digestBefore: Option<Digest>)

  const NO_UPDATE := Update(None, None, None, None, false, None, None, None, None)

  /** A failing outcome reported for a running write only makes it uncertain. */
  function Effective(s: RunStage, requested: StageStatus): StageStatus {
    if IsWrite(s) && s.status.Running?
       && (requested.Blocked? || requested.BudgetPaused? || requested.Failed? || requested.Cancelled? || requested.Interrupted?)
    then Uncertain else requested
  }

  /** The guards in front of a stage update. */
  function Guard(env: Env, run: RunRecord, s: RunStage, u: Update): Option<RunError> {
    var requested := if u.status.Some? then u.status.value else s.status;
    if u.expectedClaim.Some? && s.claim != u.expectedClaim then Some(ClaimLost)
    else if u.touchesRetry then Some(RetryImmutable)
    else if requested.Skipped? && !s.status.Skipped? then Some(SkipForbidden)
    else if s.kind.Approval? && requested != s.status then Some(ApprovalApiRequired)
    else if s.kind.TruthGate? && requested.Completed? && !(u.gateReceipt.Some? && env.gateVerified(u.gateReceipt.value))
      then Some(GateReceiptRequired)
    else if IsWrite(s) && s.status.Running? && requested.Completed?
            && !(u.actionReceipt.Some? && env.actionVerified(u.actionReceipt.value)) then Some(ActionReceiptRequired)
    else if s.kind.Department? && requested.Completed? && |s.artifactIds| == 0 then Some(DepartmentArtifactRequired)
    else if s.status.Pending? && requested.Running? && !DependenciesReady(run.stages, s) then Some(DependenciesIncomplete)
    else None
  }

  /** The stage an update starts from: an uncertain stage leaves that status only through a verified marker. */
  function Base(env: Env, s: RunStage, status: StageStatus, u: Update): Result<RunStage, RunError> {
    if NeedsResolution(s) && !status.Uncertain? then
      if u.marker.None? then Err(WriteResolutionRequired)
      else
        var resolved :- ApplyResolution(env, s, u.marker.value);
        if status.Running? && !resolved.status.Interrupted? then Err(ResolutionOutcomeInvalid)
        else if (status.Completed? || status.Failed?) && resolved.status != status then Err(ResolutionOutcomeInvalid)
        else Ok(resolved)
    else if s.status != status && status !in StageEdges(s.status) then Err(StageTransitionInvalid)
    else Ok(s)
  }

  predicate CrashRetry(s: RunStage) {
    && IsWrite(s) && s.status.Interrupted?
    && s.resolution.Some? && s.resolution.value.outcome.Retry?
    && s.resolution.value.retryAuthorized && !s.resolution.value.retryConsumed
  }

  /** Starting an execution: attempts are bounded, repetitions cost a repair cycle, a crash retry is used up. */
  function Start(s: RunStage, b: Budget): Result<(RunStage, Budget), RunError> {
    if IsWrite(s) && s.resolution.Some? && (s.resolution.value.outcome.Applied? || s.resolution.value.outcome.Abandoned?)
      then Err(ResolutionOutcomeInvalid)
    else if s.attempts >= MaxAttempts(s) && !CrashRetry(s) then Err(RetryExhausted)
    else
      var charged := if s.attempts > 0 then RepairCharge(b) else Ok(b);
      if charged.Err? then Err(BudgetRefused(charged.error))
      else
        Ok((if CrashRetry(s) then s.(resolution := Some(s.resolution.value.(retryConsumed := true))) else s, charged.value))
  }

  function Baseline(run: RunRecord, s: RunStage, starting: bool, u: Update): Result<Option<Digest>, RunError> {
    if IsWrite(s) && starting then
      var d := if u.digestBefore.Some? then u.digestBefore else s.digestBefore;
      if d.None? then Err(BaselineRequired)
      else if d.value != run.checkpoint then Err(WorkspaceChanged)
      else Ok(d)
    else Ok(s.digestBefore)
  }

  function WithStage(run: RunRecord, i: nat, s: RunStage): RunRecord
    requires i < |run.stages|
  {
    run.(stages := run.stages[i := s])
  }

  /** A running write that completes: its receipt must fit the workspace digests and becomes durable. */
  function FinishAction(env: Env, run: RunRecord, i: nat, next: RunStage, r: Receipt): Result<RunRecord, RunError>
    requires i < |run.stages|
  {
    if r.workspaceDigest.None? || !r.observed || r.workspaceDigestBefore.None? || r.workspaceDigestBefore != next.digestBefore
      then Err(ActionReceiptInvalid)
    else
      Ok(WithStage(run, i, next.(receipt := Some(r), receiptDigest := Some(env.digest(r))))
         .(checkpoint := r.workspaceDigest.value))
  }

  /** A truth gate that completes: its receipt must cite exactly the upstream write receipts. */
  ghost function FinishGate(env: Env, run: RunRecord, i: nat, current: RunStage, r: Receipt): Result<RunRecord, RunError>
    requires i < |run.stages|
  {
    if !LineageComplete(run.stages, current) then Err(LineageInvalid)
    else if r.workspaceDigest.None? || !r.observed || !CitesLineage(run.stages, current, r.cites) then Err(GateReceiptInvalid)
    else
      Ok(WithStage(run, i, run.stages[i].(gateReceipt := Some(r), gateDigest := Some(env.digest(r))))
         .(checkpoint := r.workspaceDigest.value))
  }

  /** The stage and the budget after a status change, before any receipt is attached. */
  function Move(env: Env, run: RunRecord, s: RunStage, status: StageStatus, u: Update): Result<(RunStage, Budget), RunError> {
    var base :- Base(env, s, status, u);
    var started :- if status.Running? && !s.status.Running? then Start(base, run.budget) else Ok((base, run.budget));
    var starting := status.Running? && !base.status.Running?;
    var before :- Baseline(run, started.0, starting, u);
    Ok((started.0.(
          status := status,
          attempts := base.attempts + (if starting then 1 else 0),
          claim := if u.claim.Some? then u.claim else base.claim,
          uncertain := status.Uncertain? || base.uncertain,
          digestBefore := before),
        started.1))
  }

  /** The part of an update after its guards. */
  ghost function Proceed(env: Env, run: RunRecord, i: nat, status: StageStatus, u: Update): Result<RunRecord, RunError>
    requires i < |run.stages|
  {
    var s := run.stages[i];
    var next :- Move(env, run, s, status, u);
    var moved := WithStage(run, i, next.0).(budget := next.1);
    var acted :- if IsWrite(s) && s.status.Running? && status.Completed?
                 then (if u.actionReceipt.None? then Err(ActionReceiptInvalid)
                       else FinishAction(env, moved, i, next.0, u.actionReceipt.value))
                 else Ok(moved);
    if s.kind.TruthGate? && status.Completed? then
      if u.gateReceipt.None? then Err(GateReceiptInvalid)
      else FinishGate(env, acted, i, s, u.gateReceipt.value)
    else Ok(acted)
  }

  ghost function UpdateStage(env: Env, run: RunRecord, id: Id, u: Update): Result<RunRecord, RunError> {
    if !run.status.Active? then Err(RunInactive)
    else if IndexOf(run.stages, id).None? then Err(StageNotFound)
    else
      var i := IndexOf(run.stages, id).value;
      var s := run.stages[i];
      if u.expectedStatus.Some? && s.status != u.expectedStatus.value then Ok(run)
      else if Guard(env, run, s, u).Some? then Err(Guard(env, run, s, u).value)
      else Proceed(env, run, i, Effective(s, if u.status.Some? then u.status.value else s.status), u)
  }

  // ---------------------------------------------------------------- artifacts, departments, approvals

  function ExpectedKind(s: RunStage): Option<ArtifactKind> {
    if s.kind.Department? then Some(DepartmentArtifact)
    else if IsWrite(s) then Some(ActionArtifact)
    else if s.kind.TruthGate? then Some(VerificationArtifact)
    else None
  }

  predicate ArtifactFits(env: Env, s: RunStage, a: Artifact) {
    env.envelopeOk(a) && a.stageId == s.id && (ExpectedKind(s).Some? ==> a.kind == ExpectedKind(s).value)
  }

  predicate HasArtifact(run: RunRecord, id: string) {
    exists a :: a in run.artifacts && a.id == id
  }

  function RecordArtifact(env: Env, run: RunRecord, a: Artifact): Result<RunRecord, RunError> {
    if |run.artifacts| >= MAX_ARTIFACTS then Err(ArtifactLimit)
    else if IndexOf(run.stages, a.stageId).None? then Err(StageNotFound)
    else
      var i := IndexOf(run.stages, a.stageId).value;
      var s := run.stages[i];
      if !ArtifactFits(env, s, a) then Err(ArtifactInvalid)
      else if HasArtifact(run, a.id) then Err(ArtifactExists)
      else Ok(WithStage(run, i, s.(artifactIds := s.artifactIds + [a.id])).(artifacts := run.artifacts + [a]))
  }

  /** The common guard of the two department outcomes: running, and still the claimant's. */
  function DepartmentAt(run: RunRecord, id: Id, expectedClaim: Option<ClaimId>): (r: Result<nat, RunError>)
    ensures r.Ok? ==>
      && r.value < |run.stages| && IndexOf(run.stages, id) == Some(r.value)
      && run.status.Active? && run.stages[r.value].kind.Department? && run.stages[r.value].status.Running?
      && (expectedClaim.Some? ==> run.stages[r.value].claim == expectedClaim)
  {
    if !run.status.Active? then Err(RunInactive)
    else if IndexOf(run.stages, id).None? then Err(StageNotFound)
    else
      var i := IndexOf(run.stages, id).value;
      var s := run.stages[i];
      if !s.kind.Department? then Err(DepartmentStageRequired)
      else if !s.status.Running? then Err(StageTransitionInvalid)
      else if expectedClaim.Some? && s.claim != expectedClaim then Err(ClaimLost)
      else Ok(i)
  }

  function FailDepartment(run: RunRecord, id: Id, usage: Charge, expectedClaim: Option<ClaimId>): Result<RunRecord, RunError> {
    var i :- DepartmentAt(run, id, expectedClaim);
    match Delta(run.budget, usage)
    case Err(e) => Err(BudgetRefused(e))
    case Ok(b) => Ok(WithStage(run, i, run.stages[i].(status := Failed)).(budget := b))
  }

  function CompleteDepartment(env: Env, run: RunRecord, id: Id, a: Artifact, usage: Option<Charge>, expectedClaim: Option<ClaimId>)
    : Result<RunRecord, RunError>
  {
    var i :- DepartmentAt(run, id, expectedClaim);
    var s := run.stages[i];
    if |s.artifactIds| > 0 then Err(DepartmentArtifactExists)
    else if |run.artifacts| >= MAX_ARTIFACTS then Err(ArtifactLimit)
    else if !ArtifactFits(env, s, a) then Err(ArtifactInvalid)
    else if HasArtifact(run, a.id) then Err(ArtifactExists)
    else
      var charged := if usage.Some? then Delta(run.budget, usage.value) else Ok(run.budget);
      if charged.Err? then Err(BudgetRefused(charged.error))
      else
        Ok(WithStage(run, i, s.(status := Completed, artifactIds := s.artifactIds + [a.id]))
           .(artifacts := run.artifacts + [a], budget := charged.value))
  }

  function UpdateBudget(run: RunRecord, supplied: Amounts, unmetered: Option<int>): Result<RunRecord, RunError> {
    match Patch(run.budget, supplied, unmetered)
    case Err(e) => Err(BudgetRefused(e))
    case Ok(b) => Ok(run.(budget := b))
  }

  predicate Decided(run: RunRecord, stageId: Id) {
    exists a :: a in run.approvals && a.stageId == stageId && !a.status.Requested?
  }

  function AfterDecision(s: RunStage, d: Decision): RunStage {
    match d
    case Requested => s.(status := AwaitingApproval, attempts := s.attempts + 1)
    case _ =>
      s.(status := (match d { case Approved => Completed case Rejected => Failed case _ => Cancelled }),
         attempts := if s.attempts < 1 then 1 else s.attempts)
  }

  function RecordApproval(run: RunRecord, id: string, stageId: Id, d: Decision): Result<RunRecord, RunError> {
    if exists a :: a in run.approvals && a.id == id && a.status == d then Ok(run)
    else if |run.approvals| >= MAX_APPROVALS then Err(ApprovalLimit)
    else if !(run.status.Active? || run.status.Paused? || run.status.AwaitingDecision?) then Err(ApprovalTransitionInvalid)
    else if IndexOf(run.stages, stageId).None? then Err(ApprovalStageInvalid)
    else
      var i := IndexOf(run.stages, stageId).value;
      var s := run.stages[i];
      if !s.kind.Approval? then Err(ApprovalStageInvalid)
      else if !DependenciesReady(run.stages, s) then Err(ApprovalDependenciesIncomplete)
      else if Decided(run, stageId) || !(s.status.Pending? || s.status.AwaitingApproval?) then Err(ApprovalTransitionInvalid)
      else if d.Requested? && (!s.status.Pending? || exists a :: a in run.approvals && a.stageId == stageId && a.status.Requested?)
        then Err(ApprovalTransitionInvalid)
      else
        Ok(WithStage(run, i, AfterDecision(s, d)).(approvals := run.approvals + [ApprovalRecord(id, stageId, d)]))
  }

  // ---------------------------------------------------------------- one call

  /** The calls of the store's interface. */
  datatype Op =
    | DoTransition(to: RunStatus)
    | DoCancel
    | DoRecover
    | DoResume(markers: Markers)
    | DoAttach(session: string)
    | DoUpdate(stage: Id, update: Update)
    | DoArtifact(artifact: Artifact)
    | DoFailDepartment(stage: Id, usage: Charge, expectedClaim: Option<ClaimId>)
    | DoCompleteDepartment(stage: Id, produced: Artifact, charge: Option<Charge>, expectedClaim: Option<ClaimId>)
    | DoBudget(supplied: Amounts, unmetered: Option<int>)
    | DoApproval(id: string, stage: Id, decision: Decision)

  /** Calls journaled as "run.…" events reach their updater on a terminal run too. */
  predicate RunLevel(op: Op) {
    op.DoTransition? || op.DoCancel? || op.DoRecover? || op.DoResume?
  }

  ghost function Step(env: Env, run: RunRecord, op: Op): Result<RunRecord, RunError> {
    if Terminal(run.status) && !RunLevel(op) then Err(RunTerminal)
    else
      match op
      case DoTransition(status) => Transition(run, status)
      case DoCancel => Cancel(run)
      case DoRecover => RecoverInterrupted(run)
      case DoResume(m) => Resume(env, run, m)
      case DoAttach(id) => AttachSession(run, id)
      case DoUpdate(id, u) => UpdateStage(env, run, id, u)
      case DoArtifact(a) => RecordArtifact(env, run, a)
      case DoFailDepartment(id, usage, c) => FailDepartment(run, id, usage, c)
      case DoCompleteDepartment(id, a, usage, c) => CompleteDepartment(env, run, id, a, usage, c)
      case DoBudget(supplied, unmetered) => UpdateBudget(run, supplied, unmetered)
      case DoApproval(id, stage, d) => RecordApproval(run, id, stage, d)
  }

  /** The state after a call, whether it succeeded or threw. */
  ghost function After(env: Env, run: RunRecord, op: Op): RunRecord {
    if Step(env, run, op).Ok? then Step(env, run, op).value else run
  }
}
