/**
 * What holds in every state a run reaches through the calls of the mission
 * coordinator and of the control interface: completed dependencies, recorded
 * approvals, durable completions, and hence approval before write and an
 * unbroken lineage for every truth gate.
 */
module RunCoordination {
  import opened Common
  import opened PG = PipelineGraph
  import Admission = PipelineAdmission
  import opened RunBudget
  import opened RunState
  import opened RunValidity

  // ---------------------------------------------------------------- the coordinator's calls

  function ClaimUpdate(expected: StageStatus, c: ClaimId, before: Option<Digest>): Update {
    NO_UPDATE.(status := Some(Running), expectedStatus := Some(expected), claim := Some(c), digestBefore := before)
  }

  function CompleteUpdate(c: ClaimId, action: Option<Receipt>, gate: Option<Receipt>): Update {
    NO_UPDATE.(status := Some(Completed), expectedClaim := Some(c), actionReceipt := action, gateReceipt := gate)
  }

  function FailUpdate(c: ClaimId): Update {
    NO_UPDATE.(status := Some(Failed), expectedClaim := Some(c))
  }

  const BLOCK_UPDATE := NO_UPDATE.(status := Some(Blocked))
  const INTERRUPT_UPDATE := NO_UPDATE.(status := Some(Interrupted))

  ghost predicate IsClaim(u: Update) {
    u.status == Some(Running) && u.claim.Some? && u.expectedStatus.Some?
    && u == ClaimUpdate(u.expectedStatus.value, u.claim.value, u.digestBefore)
  }

  /** A claim is made from pending, or from an interrupted department. */
  ghost predicate ProperClaim(run: RunRecord, id: Id, u: Update) {
    && IsClaim(u)
    && (u.expectedStatus.value.Pending?
        || (u.expectedStatus.value.Interrupted?
            && (IndexOf(run.stages, id).Some? ==> run.stages[IndexOf(run.stages, id).value].kind.Department?)))
  }

  ghost predicate CoordinatedUpdate(run: RunRecord, id: Id, u: Update) {
    || ProperClaim(run, id, u)
    || (u.expectedClaim.Some? && u == CompleteUpdate(u.expectedClaim.value, u.actionReceipt, u.gateReceipt))
    || (u.expectedClaim.Some? && u == FailUpdate(u.expectedClaim.value))
    || u == BLOCK_UPDATE
    || u == INTERRUPT_UPDATE
  }

  ghost predicate Coordinated(run: RunRecord, op: Op) {
    match op
    case DoUpdate(id, u) => CoordinatedUpdate(run, id, u)
    case DoAttach(s) => s in run.sessions || |run.sessions| < MAX_SESSIONS
    case DoBudget(_, _) => false
    case _ => true
  }

  // ---------------------------------------------------------------- the invariant

  /** A stage that was started, decided or finished; only such a stage needed its dependencies. */
  predicate Entered(s: RunStage) {
    !s.status.Pending? && !s.status.Blocked?
  }

  ghost predicate StageDisciplined(s: RunStage) {
    && (s.writeCapable <==> s.kind.Action?)
    && (s.status.Uncertain? || s.receipt.Some? ==> IsWrite(s))
    && (s.status.Completed? ==> DurableCompletion(s))
    && (IsWrite(s) && s.status.Completed? ==> s.receipt.Some?)
    && (s.resolution.Some? && s.resolution.value.outcome.Applied? ==> s.status.Completed?)
    && (s.status.AwaitingApproval? ==> s.kind.Approval?)
    && (s.kind.Approval? ==> !s.status.Running? && !s.status.Blocked? && !s.status.Interrupted? && !s.status.Uncertain?)
    && (s.kind.Approval? ==> s.attempts <= (if s.status.Pending? then 0 else 1))
  }

  ghost predicate DependenciesDone(stages: seq<RunStage>) {
    forall i :: 0 <= i < |stages| && (Entered(stages[i]) || stages[i].claim.Some?) ==> DependenciesReady(stages, stages[i])
  }

  ghost predicate ApprovedOnRecord(run: RunRecord, id: Id) {
    exists a :: a in run.approvals && a.stageId == id && a.status.Approved?
  }

  ghost predicate ApprovalsRecorded(run: RunRecord) {
    forall i :: 0 <= i < |run.stages| && run.stages[i].kind.Approval? && run.stages[i].status.Completed? ==>
      ApprovedOnRecord(run, run.stages[i].id)
  }

  ghost predicate Disciplined(env: Env, run: RunRecord) {
    && RunOk(env, run)
    && (forall i :: 0 <= i < |run.stages| ==> StageDisciplined(run.stages[i]))
    && DependenciesDone(run.stages)
    && ApprovalsRecorded(run)
  }

  /** A run as create() leaves it: everything pending, nothing recorded, writes are the action stages. */
  ghost predicate Fresh(run: RunRecord) {
    && run.status.Queued?
    && DistinctStages(run.stages)
    && run.artifacts == [] && run.approvals == [] && |run.sessions| <= MAX_SESSIONS && NoRepeats(run.sessions)
    && forall i :: 0 <= i < |run.stages| ==> FreshStage(run.stages, run.stages[i])
  }

  ghost predicate FreshStage(stages: seq<RunStage>, s: RunStage) {
    && s.status.Pending? && s.attempts == 0 && s.claim.None? && s.artifactIds == [] && !s.uncertain
    && s.resolution.None? && s.receipt.None? && s.receiptDigest.None? && s.gateReceipt.None? && s.gateDigest.None?
    && NoRepeats(s.dependsOn) && (forall d :: d in s.dependsOn ==> KnownStage(stages, d))
    && (s.writeCapable <==> s.kind.Action?)
  }

  lemma FreshIsDisciplined(env: Env, run: RunRecord)
    requires Fresh(run)
    ensures Disciplined(env, run)
  {
    forall i | 0 <= i < |run.stages|
      ensures StageShapeOk(env, run.stages, run.stages[i]) && StageSound(run.stages[i]) && StageDisciplined(run.stages[i])
      ensures !Entered(run.stages[i]) && run.stages[i].claim.None? && run.stages[i].artifactIds == []
    {
      assert FreshStage(run.stages, run.stages[i]);
    }
  }

  // ---------------------------------------------------------------- preservation

  lemma ReadyIsKept(stages: seq<RunStage>, after: seq<RunStage>, s: RunStage, t: RunStage)
    requires AllKept(stages, after) && t.dependsOn == s.dependsOn && DependenciesReady(stages, s)
    ensures DependenciesReady(after, t)
  {
    forall d | d in t.dependsOn ensures CompletedAt(after, d) {
      assert CompletedAt(stages, d);
      SameIndex(stages, after, d);
      var k := IndexOf(stages, d).value;
      assert Kept(stages[k], after[k]);
    }
  }

  /** A stage may become `t` from `s` without breaking the discipline. */
  ghost predicate Orderly(stages: seq<RunStage>, s: RunStage, t: RunStage) {
    && Kept(s, t) && StageDisciplined(t)
    && (Entered(t) || t.claim.Some? ==> Entered(s) || s.claim.Some? || DependenciesReady(stages, s))
  }

  lemma OrderlyStep(env: Env, run: RunRecord, after: RunRecord)
    requires Disciplined(env, run) && RunOk(env, after) && |after.stages| == |run.stages|
    requires forall i :: 0 <= i < |run.stages| ==> Orderly(run.stages, run.stages[i], after.stages[i])
    requires forall a :: a in run.approvals ==> a in after.approvals
    requires forall i :: 0 <= i < |run.stages| && after.stages[i].kind.Approval? && after.stages[i].status.Completed? ==>
               run.stages[i].status.Completed? || ApprovedOnRecord(after, after.stages[i].id)
    ensures Disciplined(env, after)
  {
    forall i | 0 <= i < |run.stages| ensures Kept(run.stages[i], after.stages[i]) && StageDisciplined(after.stages[i]) {
      assert Orderly(run.stages, run.stages[i], after.stages[i]);
    }
    forall i | 0 <= i < |after.stages| && (Entered(after.stages[i]) || after.stages[i].claim.Some?)
      ensures DependenciesReady(after.stages, after.stages[i])
    {
      assert Orderly(run.stages, run.stages[i], after.stages[i]);
      ReadyIsKept(run.stages, after.stages, run.stages[i], after.stages[i]);
    }
    forall i | 0 <= i < |after.stages| && after.stages[i].kind.Approval? && after.stages[i].status.Completed?
      ensures ApprovedOnRecord(after, after.stages[i].id)
    {
      if run.stages[i].status.Completed? {
        assert ApprovedOnRecord(run, run.stages[i].id);
        var a :| a in run.approvals && a.stageId == run.stages[i].id && a.status.Approved?;
        assert a in after.approvals;
      }
    }
  }

  lemma SelfOrderly(env: Env, run: RunRecord, i: nat)
    requires Disciplined(env, run) && i < |run.stages|
    ensures Orderly(run.stages, run.stages[i], run.stages[i])
  {
  }

  lemma StopOrderly(env: Env, run: RunRecord, i: nat)
    requires Disciplined(env, run) && i < |run.stages|
    ensures Orderly(run.stages, run.stages[i], StopStage(run.stages[i]))
    ensures StopStage(run.stages[i]).status.Completed? ==> run.stages[i].status.Completed?
  {
    assert StageDisciplined(run.stages[i]) && StageSound(run.stages[i]);
  }

  lemma RearmOrderly(stages: seq<RunStage>, s: RunStage)
    requires StageDisciplined(s) && StageSound(s) && (s.claim.Some? ==> DependenciesReady(stages, s))
    ensures Orderly(stages, s, Rearm(s)) && StageSound(Rearm(s))
    ensures Rearm(s).status.Completed? ==> s.status.Completed?
  {
  }

  lemma ResolveOrderly(env: Env, stages: seq<RunStage>, s: RunStage, marker: Receipt)
    requires StageDisciplined(s) && StageSound(s) && ReceiptsOk(env, s) && NeedsResolution(s)
    requires ApplyResolution(env, s, marker).Ok?
    ensures Orderly(stages, s, ApplyResolution(env, s, marker).value)
    ensures !ApplyResolution(env, s, marker).value.kind.Approval?
  {
  }

  /** The stages a resume call starts its resolutions from. */
  function Rearmed(run: RunRecord): (r: seq<RunStage>)
    ensures |r| == |run.stages|
    ensures forall i :: 0 <= i < |r| ==> r[i] == run.stages[i] || (run.status.BlockedRun? && r[i] == Rearm(run.stages[i]))
  {
    if run.status.BlockedRun?
    then seq(|run.stages|, i requires 0 <= i < |run.stages| => Rearm(run.stages[i]))
    else run.stages
  }

  lemma ResumeAt(env: Env, run: RunRecord, m: Markers, i: nat)
    requires i < |run.stages| && Resume(env, run, m).Ok?
    ensures var s := Rearmed(run)[i];
            var t := Resume(env, run, m).value.stages[i];
            if NeedsResolution(s)
            then MarkerFor(m, s.id, CountUncertain(Rearmed(run))).Some?
                 && ApplyResolution(env, s, MarkerFor(m, s.id, CountUncertain(Rearmed(run))).value) == Ok(t)
            else t == s
  {
  }

  lemma ResumeOrderly(env: Env, run: RunRecord, m: Markers, i: nat)
    requires Disciplined(env, run) && i < |run.stages| && Resume(env, run, m).Ok?
    ensures var t := Resume(env, run, m).value.stages[i];
            && Orderly(run.stages, run.stages[i], t)
            && (t.kind.Approval? && t.status.Completed? ==> run.stages[i].status.Completed?)
  {
    var s := Rearmed(run)[i];
    assert StageDisciplined(run.stages[i]) && StageSound(run.stages[i]) && StageShapeOk(env, run.stages, run.stages[i]);
    SelfOrderly(env, run, i);
    RearmOrderly(run.stages, run.stages[i]);
    ResumeAt(env, run, m, i);
    if NeedsResolution(s) {
      ResolveOrderly(env, run.stages, s, MarkerFor(m, s.id, CountUncertain(Rearmed(run))).value);
    }
  }

  /** The stage produced by a coordinated status change, receipts still to come. */
  lemma MoveOrderly(env: Env, run: RunRecord, i: nat, u: Update)
    requires Disciplined(env, run) && i < |run.stages|
    requires IndexOf(run.stages, run.stages[i].id) == Some(i)
    requires CoordinatedUpdate(run, run.stages[i].id, u)
    requires u.expectedStatus.None? || run.stages[i].status == u.expectedStatus.value
    requires Guard(env, run, run.stages[i], u).None?
    requires Move(env, run, run.stages[i], Effective(run.stages[i], u.status.value), u).Ok?
    ensures var s := run.stages[i];
            var t := Move(env, run, s, Effective(s, u.status.value), u).value.0;
            && (Entered(t) || t.claim.Some? ==> Entered(s) || s.claim.Some? || DependenciesReady(run.stages, s))
            && (s.kind.Approval? ==> t.status == s.status)
            && (t.resolution.Some? && t.resolution.value.outcome.Applied? ==> s.resolution.Some? && s.resolution.value.outcome.Applied?)
            && (t.status.Completed? && !s.status.Completed? ==> s.status.Running?)
            && t.receipt == s.receipt && t.gateReceipt == s.gateReceipt && t.artifactIds == s.artifactIds
            && SameDesign(s, t)
            && (t.status.AwaitingApproval? ==> s.status.AwaitingApproval?)
            && (s.kind.Approval? ==> t.attempts == s.attempts)
  {
    var s := run.stages[i];
    assert StageDisciplined(s) && StageSound(s);
    assert u.marker.None?;
  }

  /** Replacing one stage in an orderly way, with the approvals untouched. */
  lemma OneOrderly(env: Env, run: RunRecord, after: RunRecord, i: nat)
    requires Disciplined(env, run) && RunOk(env, after) && i < |run.stages|
    requires |after.stages| == |run.stages| && after.stages == run.stages[i := after.stages[i]]
    requires Orderly(run.stages, run.stages[i], after.stages[i])
    requires forall a :: a in run.approvals ==> a in after.approvals
    requires after.stages[i].kind.Approval? && after.stages[i].status.Completed? ==>
               run.stages[i].status.Completed? || ApprovedOnRecord(after, after.stages[i].id)
    ensures Disciplined(env, after)
  {
    forall k | 0 <= k < |run.stages| ensures Orderly(run.stages, run.stages[k], after.stages[k]) {
      if k != i { SelfOrderly(env, run, k); }
    }
    OrderlyStep(env, run, after);
  }

  lemma UpdateDisciplined(env: Env, run: RunRecord, id: Id, u: Update)
    requires Disciplined(env, run) && CoordinatedUpdate(run, id, u) && UpdateStage(env, run, id, u).Ok?
    ensures Disciplined(env, UpdateStage(env, run, id, u).value)
  {
    var i := IndexOf(run.stages, id).value;
    var s := run.stages[i];
    var after := UpdateStage(env, run, id, u).value;
    UpdateKeeps(env, run, id, u);
    if u.expectedStatus.None? || s.status == u.expectedStatus.value {
      var status := Effective(s, u.status.value);
      assert StageDisciplined(s) && StageSound(s) && StageShapeOk(env, run.stages, s);
      MoveKeeps(env, run, run.stages, s, status, u);
      MoveOrderly(env, run, i, u);
      FinishedStage(env, run, i, u);
      OneOrderly(env, run, after, i);
    }
  }

  /** What the receipts add to the moved stage. */
  lemma FinishedStage(env: Env, run: RunRecord, i: nat, u: Update)
    requires Disciplined(env, run) && i < |run.stages|
    requires IndexOf(run.stages, run.stages[i].id) == Some(i)
    requires CoordinatedUpdate(run, run.stages[i].id, u)
    requires u.expectedStatus.None? || run.stages[i].status == u.expectedStatus.value
    requires Guard(env, run, run.stages[i], u).None?
    requires Proceed(env, run, i, Effective(run.stages[i], u.status.value), u).Ok?
    ensures var s := run.stages[i];
            var after := Proceed(env, run, i, Effective(s, u.status.value), u).value;
            && |after.stages| == |run.stages| && after.stages == run.stages[i := after.stages[i]]
            && after.approvals == run.approvals
            && Orderly(run.stages, s, after.stages[i])
            && (s.kind.Approval? ==> after.stages[i].status == s.status)
  {
    var s := run.stages[i];
    var status := Effective(s, u.status.value);
    assert StageDisciplined(s) && StageSound(s) && StageShapeOk(env, run.stages, s);
    MoveKeeps(env, run, run.stages, s, status, u);
    MoveOrderly(env, run, i, u);
  }

  lemma DepartmentDisciplined(env: Env, run: RunRecord, after: RunRecord, i: nat)
    requires Disciplined(env, run) && RunOk(env, after) && i < |run.stages|
    requires |after.stages| == |run.stages| && after.stages == run.stages[i := after.stages[i]]
    requires after.approvals == run.approvals
    requires var s, t := run.stages[i], after.stages[i];
             s.kind.Department? && s.status.Running?
             && (t == s.(status := Failed) || (t == s.(status := Completed, artifactIds := t.artifactIds) && |t.artifactIds| > 0))
    ensures Disciplined(env, after)
  {
    assert StageDisciplined(run.stages[i]);
    OneOrderly(env, run, after, i);
  }

  lemma ArtifactDisciplined(env: Env, run: RunRecord, a: Artifact)
    requires Disciplined(env, run) && RecordArtifact(env, run, a).Ok? && RunOk(env, RecordArtifact(env, run, a).value)
    ensures Disciplined(env, RecordArtifact(env, run, a).value)
  {
    var i := IndexOf(run.stages, a.stageId).value;
    assert StageDisciplined(run.stages[i]);
    OneOrderly(env, run, RecordArtifact(env, run, a).value, i);
  }

  lemma ResumeDisciplined(env: Env, run: RunRecord, m: Markers)
    requires Disciplined(env, run) && Resume(env, run, m).Ok? && RunOk(env, Resume(env, run, m).value)
    ensures Disciplined(env, Resume(env, run, m).value)
  {
    var after := Resume(env, run, m).value;
    forall i | 0 <= i < |run.stages|
      ensures Orderly(run.stages, run.stages[i], after.stages[i])
      ensures after.stages[i].kind.Approval? && after.stages[i].status.Completed? ==> run.stages[i].status.Completed?
    {
      ResumeOrderly(env, run, m, i);
    }
    OrderlyStep(env, run, after);
  }

  /** Every coordinated call, whether it succeeds or throws, keeps the discipline. */
  lemma StepDisciplined(env: Env, run: RunRecord, op: Op)
    requires Disciplined(env, run) && Coordinated(run, op)
    ensures Disciplined(env, After(env, run, op))
  {
    if Step(env, run, op).Ok? {
      StepKeeps(env, run, op);
      var after := After(env, run, op);
      match op {
        case DoTransition(_) => EachOrderly(env, run, after);
        case DoCancel => StoppedDisciplined(env, run, after);
        case DoRecover => StoppedDisciplined(env, run, after);
        case DoResume(m) => ResumeDisciplined(env, run, m);
        case DoAttach(_) => EachOrderly(env, run, after);
        case DoUpdate(id, u) => UpdateDisciplined(env, run, id, u);
        case DoArtifact(a) => ArtifactDisciplined(env, run, a);
        case DoFailDepartment(id, usage, c) => DepartmentDisciplined(env, run, after, DepartmentAt(run, id, c).value);
        case DoCompleteDepartment(id, a, usage, c) => DepartmentDisciplined(env, run, after, DepartmentAt(run, id, c).value);
        case DoBudget(_, _) =>
        case DoApproval(id, stage, d) => ApprovalDisciplined(env, run, id, stage, d);
      }
    }
  }

  lemma EachOrderly(env: Env, run: RunRecord, after: RunRecord)
    requires Disciplined(env, run) && RunOk(env, after)
    requires after.stages == run.stages && after.approvals == run.approvals
    ensures Disciplined(env, after)
  {
    forall i | 0 <= i < |run.stages| ensures Orderly(run.stages, run.stages[i], after.stages[i]) {
      SelfOrderly(env, run, i);
    }
    OrderlyStep(env, run, after);
  }

  lemma StoppedDisciplined(env: Env, run: RunRecord, after: RunRecord)
    requires Disciplined(env, run) && RunOk(env, after)
    requires after.stages == run.stages || after.stages == StopAll(run.stages)
    requires after.approvals == run.approvals
    ensures Disciplined(env, after)
  {
    forall i | 0 <= i < |run.stages|
      ensures Orderly(run.stages, run.stages[i], after.stages[i])
      ensures after.stages[i].status.Completed? ==> run.stages[i].status.Completed?
    {
      SelfOrderly(env, run, i);
      StopOrderly(env, run, i);
    }
    OrderlyStep(env, run, after);
  }

  lemma ApprovalDisciplined(env: Env, run: RunRecord, id: string, stageId: Id, d: Decision)
    requires Disciplined(env, run) && RecordApproval(run, id, stageId, d).Ok?
    requires RunOk(env, RecordApproval(run, id, stageId, d).value)
    ensures Disciplined(env, RecordApproval(run, id, stageId, d).value)
  {
    var after := RecordApproval(run, id, stageId, d).value;
    if after != run {
      var i := IndexOf(run.stages, stageId).value;
      assert StageDisciplined(run.stages[i]) && StageSound(run.stages[i]);
      var record := ApprovalRecord(id, stageId, d);
      assert after.approvals[|run.approvals|] == record;
      assert after.stages[i].status.Completed? ==> d.Approved?;
      assert d.Approved? ==> ApprovedOnRecord(after, stageId);
      OneOrderly(env, run, after, i);
    }
  }
}
