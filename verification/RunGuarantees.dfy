/**
 * The promises of the pipeline: no write without an approval above it, truth
 * gates that cite exactly what was written, and uncertain writes that only a
 * verified resolution can settle.
 */
module RunGuarantees {
  import opened Common
  import opened PG = PipelineGraph
  import Admission = PipelineAdmission
  import opened RunBudget
  import opened RunState
  import opened RunValidity
  import opened RunCoordination

  // ---------------------------------------------------------------- completed ancestors

  lemma {:induction false} TableAt(stages: seq<RunStage>, k: nat)
    requires DistinctStages(stages) && k < |stages|
    ensures stages[k].id in StageTable(stages) && StageTable(stages)[stages[k].id] == stages[k].dependsOn
    decreases |stages|
  {
    if k < |stages| - 1 {
      TableAt(stages[..|stages| - 1], k);
    }
  }

  lemma CompletedIndex(stages: seq<RunStage>, id: Id) returns (k: nat)
    requires CompletedAt(stages, id)
    ensures k < |stages| && stages[k].id == id && stages[k].status.Completed? && IndexOf(stages, id) == Some(k)
  {
    k := IndexOf(stages, id).value;
  }

  /** Along a walk up the dependencies from a completed stage, every stage is completed. */
  lemma {:induction false} WalkIsCompleted(stages: seq<RunStage>, p: seq<Id>, i: nat)
    requires DistinctStages(stages) && DependenciesDone(stages)
    requires Chain(StageTable(stages), p) && i < |p| && CompletedAt(stages, p[0])
    ensures CompletedAt(stages, p[i])
    decreases i
  {
    if i > 0 {
      WalkIsCompleted(stages, p, i - 1);
      var k := CompletedIndex(stages, p[i - 1]);
      TableAt(stages, k);
      assert p[i] in stages[k].dependsOn;
      assert Entered(stages[k]);
      assert DependenciesReady(stages, stages[k]);
    }
  }

  /** Everything upstream of a stage that was started is completed. */
  lemma AncestorsCompleted(stages: seq<RunStage>, i: nat, id: Id)
    requires DistinctStages(stages) && DependenciesDone(stages)
    requires i < |stages| && Entered(stages[i]) && Upstream(stages, stages[i], id)
    ensures CompletedAt(stages, id)
  {
    var d :| d in stages[i].dependsOn && (d == id || Reaches(StageTable(stages), d, id));
    assert DependenciesReady(stages, stages[i]);
    assert CompletedAt(stages, d);
    if d != id {
      var p :| Walk(StageTable(stages), d, p, id);
      WalkIsCompleted(stages, p, |p| - 1);
    }
  }

  // ---------------------------------------------------------------- approval before write

  /** The run was created from this definition: same stages, in the same order. */
  ghost predicate FromDefinition(definition: seq<PG.Stage>, run: RunRecord) {
    && |run.stages| == |definition|
    && forall i :: 0 <= i < |definition| ==>
         && run.stages[i].id == definition[i].id
         && run.stages[i].kind == definition[i].kind
         && run.stages[i].dependsOn == definition[i].dependsOn
  }

  lemma {:induction false} DefinitionTable(definition: seq<PG.Stage>, stages: seq<RunStage>)
    requires |stages| == |definition|
    requires forall i :: 0 <= i < |definition| ==>
               stages[i].id == definition[i].id && stages[i].dependsOn == definition[i].dependsOn
    ensures StageTable(stages) == Deps(ById(definition))
    decreases |definition|
  {
    if |definition| > 0 {
      DefinitionTable(definition[..|definition| - 1], stages[..|stages| - 1]);
    }
  }

  /** The admission check at work: on the path of an action there is an approval stage. */
  lemma PathHasApproval(definition: seq<PG.Stage>, profiles: set<string>, i: nat, p: seq<Id>) returns (k: nat)
    requires DistinctIds(definition) && Admission.Admissible(definition, profiles)
    requires i < |definition| && definition[i].kind.Action?
    requires Admission.Inbound(ById(definition), p) && p[0] in definition[i].dependsOn
    ensures k < |p| && p[k] in ById(definition) && ById(definition)[p[k]].kind.Approval?
  {
    var g := ById(definition);
    ByIdFinds(definition, i);
    assert Admission.StageSafe(g, definition[i]);
    assert Admission.EveryPathCrosses(g, definition[i].id);
    assert Admission.Crosses(g, p);
    k :| 0 <= k < |p| && p[k] in g && g[p[k]].kind.Approval?;
  }

  lemma OnPathIsUpstream(stages: seq<RunStage>, s: RunStage, p: seq<Id>, k: nat)
    requires Chain(StageTable(stages), p) && p[0] in s.dependsOn && k < |p|
    ensures Upstream(stages, s, p[k])
  {
    if k > 0 {
      var q := p[..k + 1];
      assert forall m :: 0 <= m < |q| ==> q[m] == p[m];
      assert Walk(StageTable(stages), p[0], q, p[k]);
      assert Reaches(StageTable(stages), p[0], p[k]);
    }
  }

  /**
   * In every disciplined state of a run over an admissible definition, an
   * action that is running, uncertain or completed has on each path back to a
   * root or to the nearest truth gate an approval stage that is completed and
   * whose "approved" decision is on record.
   */
  lemma ApprovalBeforeWrite(env: Env, definition: seq<PG.Stage>, profiles: set<string>, run: RunRecord, i: nat, p: seq<Id>)
    returns (k: nat, j: nat)
    requires DistinctIds(definition) && Admission.Admissible(definition, profiles)
    requires FromDefinition(definition, run) && Disciplined(env, run)
    requires i < |run.stages| && run.stages[i].kind.Action?
    requires run.stages[i].status.Running? || run.stages[i].status.Uncertain? || run.stages[i].status.Completed?
    requires Admission.Inbound(ById(definition), p) && p[0] in run.stages[i].dependsOn
    ensures k < |p| && j < |run.stages| && run.stages[j].id == p[k]
    ensures run.stages[j].kind.Approval? && run.stages[j].status.Completed?
    ensures ApprovedOnRecord(run, p[k])
  {
    k := PathHasApproval(definition, profiles, i, p);
    DefinitionTable(definition, run.stages);
    OnPathIsUpstream(run.stages, run.stages[i], p, k);
    AncestorsCompleted(run.stages, i, p[k]);
    j := CompletedIndex(run.stages, p[k]);
    ByIdFinds(definition, j);
    assert ApprovalsRecorded(run);
  }

  // ---------------------------------------------------------------- truth gates

  /** A running truth gate cannot fail for want of lineage: all writes above it have their receipt. */
  lemma ClaimedGateHasLineage(env: Env, run: RunRecord, i: nat)
    requires Disciplined(env, run) && i < |run.stages|
    requires run.stages[i].kind.TruthGate? && run.stages[i].status.Running?
    ensures LineageComplete(run.stages, run.stages[i])
  {
    var stages := run.stages;
    forall id | Upstream(stages, stages[i], id)
      ensures IndexOf(stages, id).Some?
      ensures IsWrite(stages[IndexOf(stages, id).value]) ==> stages[IndexOf(stages, id).value].receiptDigest.Some?
    {
      AncestorsCompleted(stages, i, id);
      var k := CompletedIndex(stages, id);
      assert StageDisciplined(stages[k]) && StageShapeOk(env, stages, stages[k]);
    }
  }

  /** A gate that completes cites exactly the receipts of the writes above it, and carries that receipt. */
  lemma GateCitesWrites(env: Env, run: RunRecord, i: nat)
    requires Disciplined(env, run) && i < |run.stages|
    requires run.stages[i].kind.TruthGate? && run.stages[i].status.Completed?
    ensures run.stages[i].gateReceipt.Some?
    ensures CitesLineage(run.stages, run.stages[i], run.stages[i].gateReceipt.value.cites)
  {
    assert StageDisciplined(run.stages[i]);
  }

  // ---------------------------------------------------------------- what one call changes

  lemma MoveStays(env: Env, run: RunRecord, i: nat, status: StageStatus, u: Update)
    requires RunOk(env, run) && i < |run.stages| && Proceed(env, run, i, status, u).Ok?
    ensures var after := Proceed(env, run, i, status, u).value;
            && |after.stages| == |run.stages| && after.stages == run.stages[i := after.stages[i]]
            && Kept(run.stages[i], after.stages[i])
            && after.stages[i].status == status
  {
    var s := run.stages[i];
    assert StageSound(s) && StageShapeOk(env, run.stages, s);
    var base := Base(env, s, status, u).value;
    if NeedsResolution(s) && !status.Uncertain? {
      ResolutionKeeps(env, run.stages, s, u.marker.value);
    }
    assert Kept(s, base);
  }

  lemma ResumeStays(env: Env, run: RunRecord, m: Markers)
    requires RunOk(env, run) && Resume(env, run, m).Ok?
    ensures AllKept(run.stages, Resume(env, run, m).value.stages)
  {
    forall i | 0 <= i < |run.stages| ensures Kept(run.stages[i], Resume(env, run, m).value.stages[i]) {
      ResumeAt(env, run, m, i);
      var s := Rearmed(run)[i];
      assert StageSound(run.stages[i]) && StageShapeOk(env, run.stages, run.stages[i]);
      assert StageSound(s) && ReceiptsOk(env, s) && StageShapeOk(env, run.stages, s);
      if NeedsResolution(s) {
        ResolutionKeeps(env, run.stages, s, MarkerFor(m, s.id, CountUncertain(Rearmed(run))).value);
      }
    }
  }

  lemma UpdateStays(env: Env, run: RunRecord, id: Id, u: Update)
    requires RunOk(env, run) && UpdateStage(env, run, id, u).Ok?
    ensures AllKept(run.stages, UpdateStage(env, run, id, u).value.stages)
  {
    var i := IndexOf(run.stages, id).value;
    var s := run.stages[i];
    if !(u.expectedStatus.Some? && s.status != u.expectedStatus.value) {
      MoveStays(env, run, i, Effective(s, if u.status.Some? then u.status.value else s.status), u);
    }
  }

  lemma WholeRunStays(env: Env, run: RunRecord, op: Op)
    requires RunOk(env, run) && Step(env, run, op).Ok?
    requires op.DoTransition? || op.DoCancel? || op.DoRecover? || op.DoAttach? || op.DoBudget?
    ensures AllKept(run.stages, Step(env, run, op).value.stages)
  {
    var after := Step(env, run, op).value;
    assert after.stages == run.stages || after.stages == StopAll(run.stages);
  }

  lemma ArtifactStays(env: Env, run: RunRecord, op: Op)
    requires RunOk(env, run) && op.DoArtifact? && Step(env, run, op).Ok?
    ensures AllKept(run.stages, Step(env, run, op).value.stages)
  {
  }

  lemma FailedDepartmentStays(env: Env, run: RunRecord, op: Op)
    requires RunOk(env, run) && op.DoFailDepartment? && Step(env, run, op).Ok?
    ensures AllKept(run.stages, Step(env, run, op).value.stages)
  {
  }

  lemma CompletedDepartmentStays(env: Env, run: RunRecord, op: Op)
    requires RunOk(env, run) && op.DoCompleteDepartment? && Step(env, run, op).Ok?
    ensures AllKept(run.stages, Step(env, run, op).value.stages)
  {
  }

  lemma RecordingStays(env: Env, run: RunRecord, op: Op)
    requires RunOk(env, run) && Step(env, run, op).Ok?
    requires op.DoArtifact? || op.DoFailDepartment? || op.DoCompleteDepartment?
    ensures AllKept(run.stages, Step(env, run, op).value.stages)
  {
    if op.DoArtifact? {
      ArtifactStays(env, run, op);
    } else if op.DoFailDepartment? {
      FailedDepartmentStays(env, run, op);
    } else {
      CompletedDepartmentStays(env, run, op);
    }
    hide Step;
  }

  lemma DecisionStays(env: Env, run: RunRecord, id: string, stageId: Id, d: Decision)
    requires RecordApproval(run, id, stageId, d).Ok?
    ensures AllKept(run.stages, RecordApproval(run, id, stageId, d).value.stages)
  {
  }

  /** No call rewrites a stage's design, an action receipt once written, or a completed status. */
  lemma StepKeepsReceipts(env: Env, run: RunRecord, op: Op)
    requires RunOk(env, run)
    ensures AllKept(run.stages, After(env, run, op).stages)
  {
    if Step(env, run, op).Ok? {
      if op.DoResume? {
        ResumeStays(env, run, op.markers);
      } else if op.DoUpdate? {
        UpdateStays(env, run, op.stage, op.update);
      } else if op.DoApproval? {
        DecisionStays(env, run, op.id, op.stage, op.decision);
      } else if op.DoArtifact? || op.DoFailDepartment? || op.DoCompleteDepartment? {
        RecordingStays(env, run, op);
      } else {
        WholeRunStays(env, run, op);
      }
    }
  }

  // ---------------------------------------------------------------- uncertain writes

  /** How an uncertain stage was settled: a marker the resolution verifier accepted, kept on the stage. */
  ghost predicate SettledBy(env: Env, t: RunStage, marker: Receipt) {
    && env.resolutionVerified(marker)
    && t.resolution.Some? && t.resolution.value.marker == marker
    && marker.outcome == Some(t.resolution.value.outcome)
  }

  /** The marker a call offers for a stage, if it is a call that can settle one. */
  ghost predicate Offers(run: RunRecord, op: Op, id: Id, marker: Receipt) {
    || (op.DoUpdate? && op.stage == id && op.update.marker == Some(marker))
    || (op.DoResume? && MarkerFor(op.markers, id, CountUncertain(Rearmed(run))) == Some(marker))
  }

  /** Calls other than an update or a resume do not touch an uncertain stage. */
  lemma OthersLeaveUncertain(env: Env, run: RunRecord, op: Op, i: nat)
    requires RunOk(env, run) && i < |run.stages| && run.stages[i].status.Uncertain?
    requires !op.DoUpdate? && !op.DoResume?
    ensures |After(env, run, op).stages| == |run.stages| && After(env, run, op).stages[i].status.Uncertain?
  {
    IndexIs(run.stages, i);
  }

  lemma UncertainUpdate(env: Env, run: RunRecord, id: Id, u: Update, i: nat)
    requires RunOk(env, run) && i < |run.stages| && run.stages[i].status.Uncertain?
    requires UpdateStage(env, run, id, u).Ok?
    ensures var t := UpdateStage(env, run, id, u).value.stages[i];
            t.status.Uncertain? || (id == run.stages[i].id && u.marker.Some? && SettledBy(env, t, u.marker.value))
  {
    var k := IndexOf(run.stages, id).value;
    var s := run.stages[k];
    if !(u.expectedStatus.Some? && s.status != u.expectedStatus.value) {
      var status := Effective(s, if u.status.Some? then u.status.value else s.status);
      MoveStays(env, run, k, status, u);
      if k == i && !status.Uncertain? {
        assert StageSound(s) && StageShapeOk(env, run.stages, s);
        SettledUpdate(env, run, i, status, u);
      }
    }
  }

  lemma SettledUpdate(env: Env, run: RunRecord, i: nat, status: StageStatus, u: Update)
    requires i < |run.stages| && Proceed(env, run, i, status, u).Ok?
    requires run.stages[i].status.Uncertain? && !status.Uncertain?
    ensures u.marker.Some? && SettledBy(env, Proceed(env, run, i, status, u).value.stages[i], u.marker.value)
  {
    hide CitesLineage, LineageComplete;
    var base := ApplyResolution(env, run.stages[i], u.marker.value).value;
    assert SettledBy(env, base, u.marker.value);
  }

  lemma UncertainResume(env: Env, run: RunRecord, m: Markers, i: nat)
    requires i < |run.stages| && run.stages[i].status.Uncertain? && Resume(env, run, m).Ok?
    ensures Offers(run, DoResume(m), run.stages[i].id, MarkerFor(m, run.stages[i].id, CountUncertain(Rearmed(run))).value)
    ensures SettledBy(env, Resume(env, run, m).value.stages[i], MarkerFor(m, run.stages[i].id, CountUncertain(Rearmed(run))).value)
  {
    ResumeAt(env, run, m, i);
    assert Rearmed(run)[i] == run.stages[i];
  }

  /**
   * An uncertain write stays uncertain under every call, raw updates included,
   * unless the call carries a marker for it that the verifier accepts; the run
   * is not terminal meanwhile.
   */
  lemma UncertainNeedsResolution(env: Env, run: RunRecord, op: Op, i: nat)
    requires RunOk(env, run) && i < |run.stages| && run.stages[i].status.Uncertain?
    ensures !Terminal(run.status)
    ensures |After(env, run, op).stages| == |run.stages|
    ensures After(env, run, op).stages[i].status.Uncertain?
         || exists marker :: Offers(run, op, run.stages[i].id, marker) && SettledBy(env, After(env, run, op).stages[i], marker)
  {
    assert run.stages[i] in run.stages && StageSound(run.stages[i]);
    StepKeepsReceipts(env, run, op);
    if op.DoResume? && Step(env, run, op).Ok? {
      UncertainResume(env, run, op.markers, i);
    } else if op.DoUpdate? && Step(env, run, op).Ok? {
      UncertainUpdate(env, run, op.stage, op.update, i);
    } else if !op.DoUpdate? && !op.DoResume? {
      OthersLeaveUncertain(env, run, op, i);
    }
  }

  /** The two proper ends of a running write: completed with a verified receipt, or uncertain. */
  ghost predicate WriteEnded(env: Env, t: RunStage) {
    || t.status.Uncertain?
    || (t.status.Completed? && t.receipt.Some? && env.actionVerified(t.receipt.value)
        && t.receiptDigest == Some(env.digest(t.receipt.value)))
  }

  lemma RunningWriteUpdate(env: Env, run: RunRecord, id: Id, u: Update, i: nat)
    requires Disciplined(env, run) && CoordinatedUpdate(run, id, u)
    requires i < |run.stages| && IsWrite(run.stages[i]) && run.stages[i].status.Running?
    requires UpdateStage(env, run, id, u).Ok?
    ensures var t := UpdateStage(env, run, id, u).value.stages[i];
            t.status.Running? || WriteEnded(env, t)
  {
    var k := IndexOf(run.stages, id).value;
    var s := run.stages[k];
    if !(u.expectedStatus.Some? && s.status != u.expectedStatus.value) {
      var status := Effective(s, u.status.value);
      MoveStays(env, run, k, status, u);
      if k == i {
        assert StageDisciplined(s) && StageSound(s);
        assert !s.kind.TruthGate?;
      }
    }
  }

  lemma RunningWriteElsewhere(env: Env, run: RunRecord, op: Op, i: nat)
    requires Disciplined(env, run) && Step(env, run, op).Ok?
    requires i < |run.stages| && IsWrite(run.stages[i]) && run.stages[i].status.Running?
    requires op.DoApproval? || op.DoArtifact? || op.DoFailDepartment? || op.DoCompleteDepartment?
    ensures Step(env, run, op).value.stages[i].status.Running?
  {
    assert StageDisciplined(run.stages[i]);
    IndexIs(run.stages, i);
  }

  /** A running write leaves that status only as completed with a verified receipt, or as uncertain. */
  lemma RunningWriteEnds(env: Env, run: RunRecord, op: Op, i: nat)
    requires Disciplined(env, run) && Coordinated(run, op)
    requires i < |run.stages| && IsWrite(run.stages[i]) && run.stages[i].status.Running?
    ensures |After(env, run, op).stages| == |run.stages|
    ensures After(env, run, op).stages[i].status.Running? || WriteEnded(env, After(env, run, op).stages[i])
  {
    StepKeepsReceipts(env, run, op);
    if Step(env, run, op).Ok? {
      var s := run.stages[i];
      assert StageSound(s);
      if op.DoResume? {
        ResumeAt(env, run, op.markers, i);
      } else if op.DoUpdate? {
        RunningWriteUpdate(env, run, op.stage, op.update, i);
      } else if op.DoApproval? || op.DoArtifact? || op.DoFailDepartment? || op.DoCompleteDepartment? {
        RunningWriteElsewhere(env, run, op, i);
      } else {
        var after := Step(env, run, op).value;
        assert after.stages == run.stages || after.stages == StopAll(run.stages);
      }
    }
  }

  /** A stop, a block, a failure or an interruption of a running write always leaves it uncertain. */
  lemma StoppedWriteIsUncertain(env: Env, run: RunRecord, op: Op, i: nat)
    requires Disciplined(env, run)
    requires i < |run.stages| && IsWrite(run.stages[i]) && run.stages[i].status.Running?
    requires || op.DoCancel? || op.DoRecover?
             || (op.DoUpdate? && op.stage == run.stages[i].id
                 && (op.update == BLOCK_UPDATE || op.update == INTERRUPT_UPDATE
                     || (op.update.expectedClaim.Some? && op.update == FailUpdate(op.update.expectedClaim.value))))
    requires Step(env, run, op).Ok?
    ensures After(env, run, op).stages[i].status.Uncertain? && After(env, run, op).stages[i].uncertain
    ensures !Terminal(After(env, run, op).status)
  {
    var s := run.stages[i];
    assert s in run.stages && WriteUnresolved(s) && StageSound(s);
    IndexIs(run.stages, i);
    if op.DoUpdate? {
      MoveStays(env, run, i, Uncertain, op.update);
    }
  }
}
