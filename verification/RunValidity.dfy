/**
 * Every call of the store keeps the persisted state acceptable to the snapshot
 * check, with two exact exceptions; and a terminal run is frozen.
 */
module RunValidity {
  import opened Common
  import opened PG = PipelineGraph
  import opened RunBudget
  import opened RunState

  // ---------------------------------------------------------------- the snapshot check

  ghost predicate DistinctStages(stages: seq<RunStage>) {
    forall i, j :: 0 <= i < j < |stages| ==> stages[i].id != stages[j].id
  }

  ghost predicate NoRepeats<T>(xs: seq<T>) {
    forall i, j :: 0 <= i < j < |xs| ==> xs[i] != xs[j]
  }

  ghost predicate KnownStage(stages: seq<RunStage>, id: Id) {
    exists i :: 0 <= i < |stages| && stages[i].id == id
  }

  /** The receipt fields of a stage agree with their digests. */
  ghost predicate ReceiptsOk(env: Env, s: RunStage) {
    && (if s.receipt.Some? then s.receiptDigest == Some(env.digest(s.receipt.value)) else s.receiptDigest.None?)
    && (if s.gateReceipt.Some?
        then s.gateDigest == Some(env.digest(s.gateReceipt.value)) && CitesOk(s.gateReceipt.value.cites)
        else s.gateDigest.None?)
  }

  ghost predicate StageShapeOk(env: Env, stages: seq<RunStage>, s: RunStage) {
    && ReceiptsOk(env, s)
    && NoRepeats(s.dependsOn) && (forall d :: d in s.dependsOn ==> KnownStage(stages, d))
    && NoRepeats(s.artifactIds)
  }

  ghost predicate ArtifactsOk(env: Env, run: RunRecord) {
    && |run.artifacts| <= MAX_ARTIFACTS
    && (forall i, j :: 0 <= i < j < |run.artifacts| ==> run.artifacts[i].id != run.artifacts[j].id)
    && (forall a :: a in run.artifacts ==> env.envelopeOk(a) && exists s :: s in run.stages && s.id == a.stageId && a.id in s.artifactIds)
    && (forall s, x :: s in run.stages && x in s.artifactIds ==> HasArtifact(run, x))
  }

  ghost predicate GatesOk(stages: seq<RunStage>) {
    forall i :: 0 <= i < |stages| && stages[i].kind.TruthGate? && stages[i].gateReceipt.Some? ==>
      CitesLineage(stages, stages[i], stages[i].gateReceipt.value.cites)
  }

  ghost predicate ApprovalsOk(run: RunRecord) {
    |run.approvals| <= MAX_APPROVALS && forall a :: a in run.approvals ==> KnownStage(run.stages, a.stageId)
  }

  ghost predicate TerminalOk(run: RunRecord) {
    && (Terminal(run.status) ==> forall s :: s in run.stages ==> !s.status.Running? && !s.status.Uncertain? && !s.uncertain)
    && (run.status.CompletedRun? ==> forall s :: s in run.stages ==> s.status.Completed? && DurableCompletion(s))
  }

  /** What validSnapshot demands of the modelled fields. */
  ghost predicate ValidSnapshot(env: Env, run: RunRecord) {
    && DistinctStages(run.stages)
    && (forall i :: 0 <= i < |run.stages| ==> StageShapeOk(env, run.stages, run.stages[i]))
    && |run.sessions| <= MAX_SESSIONS && NoRepeats(run.sessions)
    && ArtifactsOk(env, run)
    && GatesOk(run.stages)
    && ApprovalsOk(run)
    && TerminalOk(run)
  }

  /** Facts the check does not look at but later checks depend on. */
  ghost predicate StageSound(s: RunStage) {
    && (s.uncertain <==> s.status.Uncertain?)
    && (IsWrite(s) && (s.status.Running? || s.status.Uncertain?) ==> s.receipt.None?)
    && (IsWrite(s) && s.receipt.Some? ==> s.status.Completed? || (s.resolution.Some? && s.resolution.value.outcome.Applied?))
  }

  ghost predicate RunOk(env: Env, run: RunRecord) {
    ValidSnapshot(env, run) && forall i :: 0 <= i < |run.stages| ==> StageSound(run.stages[i])
  }

  // ---------------------------------------------------------------- what an update keeps

  ghost predicate SameDesign(s: RunStage, t: RunStage) {
    && t.id == s.id && t.kind == s.kind && t.dependsOn == s.dependsOn
    && t.writeCapable == s.writeCapable && t.maxAttempts == s.maxAttempts
  }

  /** The design stays, the receipt of a write stays, and completed stays completed. */
  ghost predicate Kept(s: RunStage, t: RunStage) {
    && SameDesign(s, t)
    && (IsWrite(s) && s.receipt.Some? ==> t.receipt == s.receipt)
    && (IsWrite(s) && s.receiptDigest.Some? ==> t.receiptDigest == s.receiptDigest)
    && (s.status.Completed? ==> t.status.Completed?)
  }

  ghost predicate AllKept(stages: seq<RunStage>, after: seq<RunStage>) {
    |after| == |stages| && forall i :: 0 <= i < |stages| ==> Kept(stages[i], after[i])
  }

  lemma {:induction false} SameTable(stages: seq<RunStage>, after: seq<RunStage>)
    requires |after| == |stages|
    requires forall i :: 0 <= i < |stages| ==> SameDesign(stages[i], after[i])
    ensures StageTable(after) == StageTable(stages)
    decreases |stages|
  {
    if |stages| > 0 {
      SameTable(stages[..|stages| - 1], after[..|after| - 1]);
    }
  }

  lemma {:induction false} IndexIs(stages: seq<RunStage>, k: nat)
    requires DistinctStages(stages) && k < |stages|
    ensures IndexOf(stages, stages[k].id) == Some(k)
    decreases |stages|
  {
    if k > 0 {
      assert stages[0].id != stages[k].id;
      assert stages[1..][k - 1] == stages[k];
      IndexIs(stages[1..], k - 1);
    }
  }

  lemma {:induction false} SameIndex(stages: seq<RunStage>, after: seq<RunStage>, id: Id)
    requires |after| == |stages|
    requires forall i :: 0 <= i < |stages| ==> SameDesign(stages[i], after[i])
    ensures IndexOf(after, id) == IndexOf(stages, id)
    decreases |stages|
  {
    if |stages| > 0 {
      forall i | 0 <= i < |stages| - 1 ensures SameDesign(stages[1..][i], after[1..][i]) {
        assert SameDesign(stages[i + 1], after[i + 1]);
      }
      SameIndex(stages[1..], after[1..], id);
    }
  }

  /** A gate's lineage is fixed once complete: no later update can change the digests it cites. */
  lemma LineageIsKept(stages: seq<RunStage>, after: seq<RunStage>, s: RunStage, t: RunStage, cites: Option<seq<Digest>>)
    requires DistinctStages(stages) && AllKept(stages, after) && t.dependsOn == s.dependsOn
    requires CitesLineage(stages, s, cites)
    ensures CitesLineage(after, t, cites)
  {
    SameTable(stages, after);
    forall id ensures Upstream(after, t, id) == Upstream(stages, s, id) { }
    forall id | Upstream(after, t, id)
      ensures IndexOf(after, id).Some?
      ensures IsWrite(after[IndexOf(after, id).value]) ==> after[IndexOf(after, id).value].receiptDigest.Some?
    {
      SameIndex(stages, after, id);
      assert Kept(stages[IndexOf(stages, id).value], after[IndexOf(stages, id).value]);
    }
    forall k | 0 <= k < |stages| && IsWrite(stages[k]) && Upstream(stages, s, stages[k].id)
      ensures stages[k].receiptDigest.Some? && after[k].receiptDigest == stages[k].receiptDigest
    {
      IndexIs(stages, k);
      assert Kept(stages[k], after[k]);
    }
    var a, b := LineageDigests(stages, s), LineageDigests(after, t);
    forall d | d in a ensures d in b {
      var c :| c in stages && IsWrite(c) && c.receiptDigest.Some? && Upstream(stages, s, c.id) && c.receiptDigest.value == d;
      var k :| 0 <= k < |stages| && stages[k] == c;
      assert after[k] in after && Kept(stages[k], after[k]);
    }
    forall d | d in b ensures d in a {
      var c :| c in after && IsWrite(c) && c.receiptDigest.Some? && Upstream(after, t, c.id) && c.receiptDigest.value == d;
      var k :| 0 <= k < |after| && after[k] == c;
      assert stages[k] in stages && Kept(stages[k], after[k]);
    }
    assert a == b;
  }

  // ---------------------------------------------------------------- assembling RunOk again

  ghost predicate SameStageIds(stages: seq<RunStage>, after: seq<RunStage>) {
    |after| == |stages| && forall i :: 0 <= i < |stages| ==> after[i].id == stages[i].id
  }

  /** Stage changes that keep every stage and touch neither gate receipts nor artifact lists. */
  ghost predicate QuietlyKept(env: Env, s: RunStage, t: RunStage) {
    && Kept(s, t) && StageSound(t) && ReceiptsOk(env, t)
    && t.artifactIds == s.artifactIds && t.gateReceipt == s.gateReceipt
  }

  lemma ShapesAreKept(env: Env, stages: seq<RunStage>, after: seq<RunStage>)
    requires DistinctStages(stages)
    requires forall i :: 0 <= i < |stages| ==> StageShapeOk(env, stages, stages[i])
    requires AllKept(stages, after)
    requires forall i :: 0 <= i < |stages| ==> ReceiptsOk(env, after[i]) && NoRepeats(after[i].artifactIds)
    ensures DistinctStages(after)
    ensures forall i :: 0 <= i < |after| ==> StageShapeOk(env, after, after[i])
  {
    forall i, j | 0 <= i < j < |after| ensures after[i].id != after[j].id {
      assert Kept(stages[i], after[i]) && Kept(stages[j], after[j]);
    }
    forall i | 0 <= i < |after| ensures StageShapeOk(env, after, after[i]) {
      assert Kept(stages[i], after[i]) && StageShapeOk(env, stages, stages[i]);
      forall d | d in after[i].dependsOn ensures KnownStage(after, d) {
        assert KnownStage(stages, d);
        var k :| 0 <= k < |stages| && stages[k].id == d;
        assert Kept(stages[k], after[k]);
      }
    }
  }

  lemma KnownIsKept(stages: seq<RunStage>, after: seq<RunStage>, id: Id)
    requires SameStageIds(stages, after) && KnownStage(stages, id)
    ensures KnownStage(after, id)
  {
    var k :| 0 <= k < |stages| && stages[k].id == id;
    assert after[k].id == id;
  }

  lemma QuietArtifacts(env: Env, run: RunRecord, after: RunRecord)
    requires ArtifactsOk(env, run) && after.artifacts == run.artifacts && |after.stages| == |run.stages|
    requires forall i :: 0 <= i < |run.stages| ==>
               after.stages[i].id == run.stages[i].id && after.stages[i].artifactIds == run.stages[i].artifactIds
    ensures ArtifactsOk(env, after)
  {
    forall a | a in after.artifacts ensures exists s :: s in after.stages && s.id == a.stageId && a.id in s.artifactIds {
      var s :| s in run.stages && s.id == a.stageId && a.id in s.artifactIds;
      var k :| 0 <= k < |run.stages| && run.stages[k] == s;
      assert after.stages[k] in after.stages;
    }
    forall s, x | s in after.stages && x in s.artifactIds ensures HasArtifact(after, x) {
      var k :| 0 <= k < |after.stages| && after.stages[k] == s;
      assert run.stages[k] in run.stages && x in run.stages[k].artifactIds;
      assert HasArtifact(run, x);
      var a :| a in run.artifacts && a.id == x;
      assert a in after.artifacts;
    }
  }

  lemma QuietGates(env: Env, stages: seq<RunStage>, after: seq<RunStage>)
    requires DistinctStages(stages) && GatesOk(stages) && |after| == |stages|
    requires forall i :: 0 <= i < |stages| ==> QuietlyKept(env, stages[i], after[i])
    ensures GatesOk(after)
  {
    forall i | 0 <= i < |after| && after[i].kind.TruthGate? && after[i].gateReceipt.Some?
      ensures CitesLineage(after, after[i], after[i].gateReceipt.value.cites)
    {
      assert QuietlyKept(env, stages[i], after[i]);
      LineageIsKept(stages, after, stages[i], after[i], stages[i].gateReceipt.value.cites);
    }
  }

  /** A quiet change of the stages, with any run status that passes the terminal clauses, keeps RunOk. */
  lemma QuietChange(env: Env, run: RunRecord, after: RunRecord)
    requires RunOk(env, run)
    requires |after.stages| == |run.stages|
    requires forall i :: 0 <= i < |run.stages| ==> QuietlyKept(env, run.stages[i], after.stages[i])
    requires after.artifacts == run.artifacts && after.approvals == run.approvals && after.sessions == run.sessions
    requires TerminalOk(after)
    ensures RunOk(env, after)
  {
    forall i | 0 <= i < |run.stages|
      ensures Kept(run.stages[i], after.stages[i]) && ReceiptsOk(env, after.stages[i]) && NoRepeats(after.stages[i].artifactIds)
      ensures StageSound(after.stages[i]) && after.stages[i].id == run.stages[i].id
      ensures after.stages[i].artifactIds == run.stages[i].artifactIds
    {
      assert QuietlyKept(env, run.stages[i], after.stages[i]);
      assert StageShapeOk(env, run.stages, run.stages[i]);
    }
    ShapesAreKept(env, run.stages, after.stages);
    QuietArtifacts(env, run, after);
    QuietGates(env, run.stages, after.stages);
    forall a | a in after.approvals ensures KnownStage(after.stages, a.stageId) {
      KnownIsKept(run.stages, after.stages, a.stageId);
    }
  }

  // ---------------------------------------------------------------- run-level calls

  /** A stage that writes nothing is marked uncertain. */
  ghost predicate HasStray(stages: seq<RunStage>) {
    exists s :: s in stages && s.status.Uncertain? && !IsWrite(s)
  }

  /** Whether a call that succeeds makes a live run terminal. */
  ghost predicate EndsRun(run: RunRecord, op: Op) {
    || (op.DoTransition? && Terminal(op.to) && run.status != op.to)
    || (op.DoCancel? && !run.status.CancelledRun? && !exists s :: s in run.stages && WriteUnresolved(s))
  }

  /** The two calls whose result the store later refuses to read. */
  ghost predicate Harmful(run: RunRecord, op: Op) {
    || (op.DoAttach? && op.session !in run.sessions && |run.sessions| >= MAX_SESSIONS)
    || (EndsRun(run, op) && HasStray(run.stages))
  }

  lemma TransitionKeeps(env: Env, run: RunRecord, status: RunStatus)
    requires RunOk(env, run) && Transition(run, status).Ok?
    requires Terminal(status) && run.status != status ==> !HasStray(run.stages)
    ensures RunOk(env, Transition(run, status).value)
  {
    var after := Transition(run, status).value;
    if Terminal(status) && run.status != status {
      forall s | s in after.stages ensures !s.status.Running? && !s.status.Uncertain? && !s.uncertain {
        var k :| 0 <= k < |run.stages| && run.stages[k] == s;
        assert StageSound(run.stages[k]);
        assert !WriteUnresolved(s);
      }
    }
    forall i | 0 <= i < |run.stages| ensures QuietlyKept(env, run.stages[i], after.stages[i]) {
      assert StageShapeOk(env, run.stages, run.stages[i]);
    }
    QuietChange(env, run, after);
  }

  lemma StopStageKeeps(env: Env, stages: seq<RunStage>, s: RunStage)
    requires StageSound(s) && StageShapeOk(env, stages, s)
    ensures QuietlyKept(env, s, StopStage(s))
    ensures !StopStage(s).status.Running?
    ensures StopStage(s).status.Uncertain? <==> s.status.Uncertain? || WriteUnresolved(s)
  {
  }

  lemma StopAllKeeps(env: Env, run: RunRecord, status: RunStatus)
    requires RunOk(env, run)
    requires !status.CompletedRun?
    requires Terminal(status) ==> !HasStray(run.stages) && !exists s :: s in run.stages && WriteUnresolved(s)
    ensures RunOk(env, run.(status := status, stages := StopAll(run.stages)))
  {
    var after := run.(status := status, stages := StopAll(run.stages));
    forall i | 0 <= i < |run.stages|
      ensures QuietlyKept(env, run.stages[i], after.stages[i]) && !after.stages[i].status.Running?
      ensures after.stages[i].status.Uncertain? <==> run.stages[i].status.Uncertain? || WriteUnresolved(run.stages[i])
    {
      assert StageShapeOk(env, run.stages, run.stages[i]);
      StopStageKeeps(env, run.stages, run.stages[i]);
    }
    if Terminal(status) {
      forall s | s in after.stages ensures !s.status.Running? && !s.status.Uncertain? && !s.uncertain {
        var k :| 0 <= k < |after.stages| && after.stages[k] == s;
        assert run.stages[k] in run.stages;
        assert QuietlyKept(env, run.stages[k], after.stages[k]);
      }
    }
    QuietChange(env, run, after);
  }

  lemma CancelKeeps(env: Env, run: RunRecord)
    requires RunOk(env, run) && Cancel(run).Ok? && !Harmful(run, DoCancel)
    ensures RunOk(env, Cancel(run).value)
  {
    if !run.status.CancelledRun? {
      var unresolved := exists s :: s in run.stages && WriteUnresolved(s);
      StopAllKeeps(env, run, if unresolved then InterruptedRun else CancelledRun);
    }
  }

  lemma RecoverKeeps(env: Env, run: RunRecord)
    requires RunOk(env, run)
    ensures RecoverInterrupted(run).Ok? && RunOk(env, RecoverInterrupted(run).value)
  {
    if RecoverInterrupted(run).value != run {
      StopAllKeeps(env, run, InterruptedRun);
    }
  }

  lemma ResolutionKeeps(env: Env, stages: seq<RunStage>, s: RunStage, marker: Receipt)
    requires StageSound(s) && StageShapeOk(env, stages, s) && NeedsResolution(s)
    requires ApplyResolution(env, s, marker).Ok?
    ensures QuietlyKept(env, s, ApplyResolution(env, s, marker).value)
  {
  }

  lemma ResumeKeeps(env: Env, run: RunRecord, m: Markers)
    requires RunOk(env, run) && Resume(env, run, m).Ok?
    ensures RunOk(env, Resume(env, run, m).value)
  {
    var after := Resume(env, run, m).value;
    var stages := if run.status.BlockedRun?
                  then seq(|run.stages|, i requires 0 <= i < |run.stages| => Rearm(run.stages[i]))
                  else run.stages;
    forall i | 0 <= i < |run.stages| ensures QuietlyKept(env, run.stages[i], after.stages[i]) {
      assert StageShapeOk(env, run.stages, run.stages[i]) && StageSound(run.stages[i]);
      var s := stages[i];
      assert StageSound(s) && QuietlyKept(env, run.stages[i], s);
      assert StageShapeOk(env, run.stages, s);
      if NeedsResolution(s) {
        ResolutionKeeps(env, run.stages, s, MarkerFor(m, s.id, CountUncertain(stages)).value);
      }
    }
    QuietChange(env, run, after);
  }

  // ---------------------------------------------------------------- stage-level calls

  lemma MoveKeeps(env: Env, run: RunRecord, stages: seq<RunStage>, s: RunStage, status: StageStatus, u: Update)
    requires StageSound(s) && StageShapeOk(env, stages, s)
    requires Move(env, run, s, status, u).Ok?
    ensures QuietlyKept(env, s, Move(env, run, s, status, u).value.0)
    ensures Move(env, run, s, status, u).value.0.status == status
    ensures !status.Uncertain? && NeedsResolution(s) ==>
              u.marker.Some? && ApplyResolution(env, s, u.marker.value).Ok?
  {
    var base := Base(env, s, status, u).value;
    if NeedsResolution(s) && !status.Uncertain? {
      ResolutionKeeps(env, stages, s, u.marker.value);
    }
    assert QuietlyKept(env, s, base);
    var t := Move(env, run, s, status, u).value.0;
    assert ReceiptsOk(env, t) && SameDesign(s, t);
    assert t.receipt == base.receipt && t.receiptDigest == base.receiptDigest;
    if status.Running? && !s.status.Running? {
      assert IsWrite(s) ==> base.receipt.None?;
    }
  }

  /** One stage changes in a live run, and possibly gains a gate receipt that cites its lineage. */
  lemma OneChange(env: Env, run: RunRecord, after: RunRecord, i: nat)
    requires RunOk(env, run) && i < |run.stages|
    requires |after.stages| == |run.stages| && after.stages == run.stages[i := after.stages[i]]
    requires var s, t := run.stages[i], after.stages[i];
             && Kept(s, t) && StageSound(t) && ReceiptsOk(env, t) && t.artifactIds == s.artifactIds
             && (t.gateReceipt == s.gateReceipt || (t.gateReceipt.Some? && CitesLineage(after.stages, t, t.gateReceipt.value.cites)))
    requires after.artifacts == run.artifacts && after.approvals == run.approvals && after.sessions == run.sessions
    requires !Terminal(after.status)
    ensures RunOk(env, after)
  {
    forall k | 0 <= k < |run.stages|
      ensures Kept(run.stages[k], after.stages[k]) && ReceiptsOk(env, after.stages[k]) && NoRepeats(after.stages[k].artifactIds)
      ensures StageSound(after.stages[k]) && after.stages[k].id == run.stages[k].id
      ensures after.stages[k].artifactIds == run.stages[k].artifactIds
    {
      assert StageShapeOk(env, run.stages, run.stages[k]);
    }
    ShapesAreKept(env, run.stages, after.stages);
    QuietArtifacts(env, run, after);
    forall k | 0 <= k < |after.stages| && after.stages[k].kind.TruthGate? && after.stages[k].gateReceipt.Some?
      ensures CitesLineage(after.stages, after.stages[k], after.stages[k].gateReceipt.value.cites)
    {
      if k != i || after.stages[i].gateReceipt == run.stages[i].gateReceipt {
        LineageIsKept(run.stages, after.stages, run.stages[k], after.stages[k], run.stages[k].gateReceipt.value.cites);
      }
    }
    forall a | a in after.approvals ensures KnownStage(after.stages, a.stageId) {
      KnownIsKept(run.stages, after.stages, a.stageId);
    }
  }

  /** Attaching the two receipts keeps everything the plain status change kept. */
  lemma ProceedKeeps(env: Env, run: RunRecord, i: nat, status: StageStatus, u: Update)
    requires RunOk(env, run) && !Terminal(run.status) && i < |run.stages|
    requires Proceed(env, run, i, status, u).Ok?
    ensures RunOk(env, Proceed(env, run, i, status, u).value)
  {
    var s := run.stages[i];
    var after := Proceed(env, run, i, status, u).value;
    assert StageShapeOk(env, run.stages, s) && StageSound(s);
    MoveKeeps(env, run, run.stages, s, status, u);
    var next := Move(env, run, s, status, u).value;
    var moved := WithStage(run, i, next.0).(budget := next.1);
    var acted := if IsWrite(s) && s.status.Running? && status.Completed?
                 then FinishAction(env, moved, i, next.0, u.actionReceipt.value).value else moved;
    var t := acted.stages[i];
    assert Kept(s, t) && StageSound(t) && ReceiptsOk(env, t);
    if s.kind.TruthGate? && status.Completed? {
      OneChange(env, run, acted, i);
      var r := u.gateReceipt.value;
      assert after.stages == acted.stages[i := after.stages[i]];
      forall k | 0 <= k < |acted.stages| ensures Kept(acted.stages[k], after.stages[k]) { }
      LineageIsKept(acted.stages, after.stages, s, after.stages[i], r.cites);
      OneChange(env, acted, after, i);
    } else {
      OneChange(env, run, acted, i);
    }
  }

  lemma UpdateKeeps(env: Env, run: RunRecord, id: Id, u: Update)
    requires RunOk(env, run) && UpdateStage(env, run, id, u).Ok?
    ensures RunOk(env, UpdateStage(env, run, id, u).value)
  {
    var i := IndexOf(run.stages, id).value;
    var s := run.stages[i];
    if !(u.expectedStatus.Some? && s.status != u.expectedStatus.value) {
      ProceedKeeps(env, run, i, Effective(s, if u.status.Some? then u.status.value else s.status), u);
    }
  }

  /** A stage gains an artifact that is recorded with it. */
  lemma ArtifactChange(env: Env, run: RunRecord, after: RunRecord, i: nat, a: Artifact)
    requires RunOk(env, run) && i < |run.stages|
    requires |after.stages| == |run.stages| && after.stages == run.stages[i := after.stages[i]]
    requires var s, t := run.stages[i], after.stages[i];
             && Kept(s, t) && StageSound(t) && ReceiptsOk(env, t) && t.gateReceipt == s.gateReceipt
             && t.artifactIds == s.artifactIds + [a.id] && a.stageId == s.id
    requires after.artifacts == run.artifacts + [a] && |run.artifacts| < MAX_ARTIFACTS
    requires env.envelopeOk(a) && !HasArtifact(run, a.id)
    requires after.approvals == run.approvals && after.sessions == run.sessions && !Terminal(after.status)
    ensures RunOk(env, after)
  {
    var s := run.stages[i];
    assert s in run.stages;
    assert a.id !in s.artifactIds;
    forall k | 0 <= k < |run.stages|
      ensures Kept(run.stages[k], after.stages[k]) && ReceiptsOk(env, after.stages[k]) && NoRepeats(after.stages[k].artifactIds)
      ensures StageSound(after.stages[k])
    {
      assert StageShapeOk(env, run.stages, run.stages[k]);
    }
    ShapesAreKept(env, run.stages, after.stages);
    RecordedArtifacts(env, run, after, i, a);
    forall k | 0 <= k < |after.stages| && after.stages[k].kind.TruthGate? && after.stages[k].gateReceipt.Some?
      ensures CitesLineage(after.stages, after.stages[k], after.stages[k].gateReceipt.value.cites)
    {
      LineageIsKept(run.stages, after.stages, run.stages[k], after.stages[k], run.stages[k].gateReceipt.value.cites);
    }
    forall b | b in after.approvals ensures KnownStage(after.stages, b.stageId) {
      KnownIsKept(run.stages, after.stages, b.stageId);
    }
  }

  lemma RecordedArtifacts(env: Env, run: RunRecord, after: RunRecord, i: nat, a: Artifact)
    requires ArtifactsOk(env, run) && i < |run.stages| && |run.artifacts| < MAX_ARTIFACTS
    requires |after.stages| == |run.stages| && after.stages == run.stages[i := after.stages[i]] && after.stages[i].id == run.stages[i].id == a.stageId
    requires after.stages[i].artifactIds == run.stages[i].artifactIds + [a.id]
    requires after.artifacts == run.artifacts + [a]
    requires env.envelopeOk(a) && !HasArtifact(run, a.id)
    ensures ArtifactsOk(env, after)
  {
    forall k, l | 0 <= k < l < |after.artifacts| ensures after.artifacts[k].id != after.artifacts[l].id {
      assert run.artifacts[k] in run.artifacts;
    }
    forall b | b in after.artifacts
      ensures env.envelopeOk(b) && exists s :: s in after.stages && s.id == b.stageId && b.id in s.artifactIds
    {
      if b == a {
        assert after.stages[i] in after.stages;
        assert after.stages[i].artifactIds[|run.stages[i].artifactIds|] == a.id;
      } else {
        assert b in run.artifacts;
        var s :| s in run.stages && s.id == b.stageId && b.id in s.artifactIds;
        var k :| 0 <= k < |run.stages| && run.stages[k] == s;
        assert after.stages[k] in after.stages;
        assert b.id in after.stages[k].artifactIds;
      }
    }
    forall s, x | s in after.stages && x in s.artifactIds ensures HasArtifact(after, x) {
      var k :| 0 <= k < |after.stages| && after.stages[k] == s;
      if x == a.id {
        assert after.artifacts[|run.artifacts|] == a;
      } else {
        assert run.stages[k] in run.stages && x in run.stages[k].artifactIds;
        assert HasArtifact(run, x);
        var b :| b in run.artifacts && b.id == x;
        assert b in after.artifacts;
      }
    }
  }

  lemma ArtifactKeeps(env: Env, run: RunRecord, a: Artifact)
    requires RunOk(env, run) && !Terminal(run.status) && RecordArtifact(env, run, a).Ok?
    ensures RunOk(env, RecordArtifact(env, run, a).value)
  {
    var i := IndexOf(run.stages, a.stageId).value;
    assert StageShapeOk(env, run.stages, run.stages[i]);
    ArtifactChange(env, run, RecordArtifact(env, run, a).value, i, a);
  }

  lemma FailDepartmentKeeps(env: Env, run: RunRecord, id: Id, usage: Charge, c: Option<ClaimId>)
    requires RunOk(env, run) && FailDepartment(run, id, usage, c).Ok?
    ensures RunOk(env, FailDepartment(run, id, usage, c).value)
  {
    var i := DepartmentAt(run, id, c).value;
    assert StageShapeOk(env, run.stages, run.stages[i]) && StageSound(run.stages[i]);
    OneChange(env, run, FailDepartment(run, id, usage, c).value, i);
  }

  lemma CompleteDepartmentKeeps(env: Env, run: RunRecord, id: Id, a: Artifact, usage: Option<Charge>, c: Option<ClaimId>)
    requires RunOk(env, run) && CompleteDepartment(env, run, id, a, usage, c).Ok?
    ensures RunOk(env, CompleteDepartment(env, run, id, a, usage, c).value)
  {
    var i := DepartmentAt(run, id, c).value;
    assert StageShapeOk(env, run.stages, run.stages[i]) && StageSound(run.stages[i]);
    ArtifactChange(env, run, CompleteDepartment(env, run, id, a, usage, c).value, i, a);
  }

  lemma ApprovalKeeps(env: Env, run: RunRecord, id: string, stageId: Id, d: Decision)
    requires RunOk(env, run) && RecordApproval(run, id, stageId, d).Ok?
    ensures RunOk(env, RecordApproval(run, id, stageId, d).value)
  {
    var after := RecordApproval(run, id, stageId, d).value;
    if after != run {
      var i := IndexOf(run.stages, stageId).value;
      assert StageShapeOk(env, run.stages, run.stages[i]) && StageSound(run.stages[i]);
      var middle := WithStage(run, i, AfterDecision(run.stages[i], d));
      OneChange(env, run, middle, i);
      assert after == middle.(approvals := run.approvals + [ApprovalRecord(id, stageId, d)]);
      assert middle.stages[i].id == stageId;
      MoreApprovals(env, middle, ApprovalRecord(id, stageId, d));
    }
  }

  lemma MoreApprovals(env: Env, run: RunRecord, a: ApprovalRecord)
    requires RunOk(env, run) && |run.approvals| < MAX_APPROVALS && KnownStage(run.stages, a.stageId)
    ensures RunOk(env, run.(approvals := run.approvals + [a]))
  {
    var after := run.(approvals := run.approvals + [a]);
    assert ArtifactsOk(env, after) by {
      forall s, x | s in after.stages && x in s.artifactIds ensures HasArtifact(after, x) {
        assert HasArtifact(run, x);
      }
    }
  }

  // ---------------------------------------------------------------- every call

  lemma AttachKeeps(env: Env, run: RunRecord, id: string)
    requires RunOk(env, run) && !Terminal(run.status)
    ensures RunOk(env, AttachSession(run, id).value) <==> id in run.sessions || |run.sessions| < MAX_SESSIONS
  {
    if id !in run.sessions && |run.sessions| < MAX_SESSIONS {
      var after := run.(sessions := run.sessions + [id]);
      assert ArtifactsOk(env, after) by {
        forall s, x | s in after.stages && x in s.artifactIds ensures HasArtifact(after, x) {
          assert HasArtifact(run, x);
        }
      }
    }
  }

  lemma BudgetKeeps(env: Env, run: RunRecord, supplied: Amounts, unmetered: Option<int>)
    requires RunOk(env, run) && UpdateBudget(run, supplied, unmetered).Ok?
    ensures RunOk(env, UpdateBudget(run, supplied, unmetered).value)
  {
    forall i | 0 <= i < |run.stages| ensures QuietlyKept(env, run.stages[i], run.stages[i]) {
      assert StageShapeOk(env, run.stages, run.stages[i]);
    }
    QuietChange(env, run, UpdateBudget(run, supplied, unmetered).value);
  }

  /** Every successful call except the two harmful ones keeps the state acceptable. */
  lemma StepKeeps(env: Env, run: RunRecord, op: Op)
    requires RunOk(env, run) && Step(env, run, op).Ok? && !Harmful(run, op)
    ensures RunOk(env, Step(env, run, op).value)
  {
    match op {
      case DoTransition(status) => TransitionKeeps(env, run, status);
      case DoCancel => CancelKeeps(env, run);
      case DoRecover => RecoverKeeps(env, run);
      case DoResume(m) => ResumeKeeps(env, run, m);
      case DoAttach(id) => AttachKeeps(env, run, id);
      case DoUpdate(id, u) => UpdateKeeps(env, run, id, u);
      case DoArtifact(a) => ArtifactKeeps(env, run, a);
      case DoFailDepartment(id, usage, c) => FailDepartmentKeeps(env, run, id, usage, c);
      case DoCompleteDepartment(id, a, usage, c) => CompleteDepartmentKeeps(env, run, id, a, usage, c);
      case DoBudget(supplied, unmetered) => BudgetKeeps(env, run, supplied, unmetered);
      case DoApproval(id, stage, d) => ApprovalKeeps(env, run, id, stage, d);
    }
  }

  /** The verdict of the snapshot check after any successful call from any guarded state: only the two harmful calls fail it. */
  lemma HarmfulCallsHarm(env: Env, run: RunRecord, op: Op)
    requires RunOk(env, run) && Step(env, run, op).Ok?
    ensures ValidSnapshot(env, Step(env, run, op).value) <==> !Harmful(run, op)
  {
    if !Harmful(run, op) {
      StepKeeps(env, run, op);
    } else if !op.DoAttach? {
      StrayEndIsRefused(env, run, op);
    }
  }

  /** Ending a run leaves a stray uncertain stage as it is, and the terminal check refuses it. */
  lemma StrayEndIsRefused(env: Env, run: RunRecord, op: Op)
    requires Step(env, run, op).Ok? && EndsRun(run, op) && HasStray(run.stages)
    ensures !TerminalOk(Step(env, run, op).value)
  {
    var after := Step(env, run, op).value;
    var s :| s in run.stages && s.status.Uncertain? && !IsWrite(s);
    var k :| 0 <= k < |run.stages| && run.stages[k] == s;
    assert after.stages[k] == s && after.stages[k] in after.stages;
    assert Terminal(after.status);
  }

  /** An update that marks a running stage uncertain although it writes nothing. */
  ghost predicate StraysUncertain(run: RunRecord, id: Id, u: Update) {
    && u.status == Some(Uncertain) && (u.expectedStatus.None? || u.expectedStatus == Some(Running))
    && IndexOf(run.stages, id).Some?
    && var s := run.stages[IndexOf(run.stages, id).value];
       s.status.Running? && !IsWrite(s)
  }

  /** Where stray marks come from: among successful calls, only such an update makes the first one. */
  lemma StraysComeFromUpdates(env: Env, run: RunRecord, op: Op)
    requires RunOk(env, run) && !HasStray(run.stages) && Step(env, run, op).Ok?
    ensures HasStray(Step(env, run, op).value.stages) <==> op.DoUpdate? && StraysUncertain(run, op.stage, op.update)
  {
    var after := Step(env, run, op).value;
    match op {
      case DoUpdate(id, u) => UpdateStrays(env, run, id, u);
      case DoResume(m) =>
        forall i | 0 <= i < |run.stages| ensures after.stages[i].status.Uncertain? ==> IsWrite(after.stages[i]) {
          ResumeStrays(env, run, m, i);
        }
      case _ =>
        forall i | 0 <= i < |run.stages| ensures after.stages[i].status.Uncertain? ==> IsWrite(after.stages[i]) {
          assert run.stages[i] in run.stages;
        }
    }
  }

  lemma ResumeStrays(env: Env, run: RunRecord, m: Markers, i: nat)
    requires Resume(env, run, m).Ok? && i < |run.stages|
    ensures !Resume(env, run, m).value.stages[i].status.Uncertain?
  {
  }

  lemma ProceedStatus(env: Env, run: RunRecord, i: nat, status: StageStatus, u: Update)
    requires i < |run.stages| && Proceed(env, run, i, status, u).Ok?
    ensures var after := Proceed(env, run, i, status, u).value;
            && |after.stages| == |run.stages| && after.stages == run.stages[i := after.stages[i]]
            && after.stages[i].status == status && SameDesign(run.stages[i], after.stages[i])
  {
    hide CitesLineage, LineageComplete;
  }

  lemma UpdateStrays(env: Env, run: RunRecord, id: Id, u: Update)
    requires RunOk(env, run) && !HasStray(run.stages) && UpdateStage(env, run, id, u).Ok?
    ensures HasStray(UpdateStage(env, run, id, u).value.stages) <==> StraysUncertain(run, id, u)
  {
    var after := UpdateStage(env, run, id, u).value;
    var i := IndexOf(run.stages, id).value;
    var s := run.stages[i];
    if !(u.expectedStatus.Some? && s.status != u.expectedStatus.value) {
      var status := Effective(s, if u.status.Some? then u.status.value else s.status);
      ProceedStatus(env, run, i, status, u);
      UncertainOnlyFromRunning(env, run, i, status, u);
      hide Proceed, Guard;
      assert after.stages[i] in after.stages && s in run.stages;
      forall k | 0 <= k < |after.stages| && k != i ensures !(after.stages[k].status.Uncertain? && !IsWrite(after.stages[k])) {
        assert after.stages[k] == run.stages[k] && run.stages[k] in run.stages;
      }
    }
  }

  lemma UncertainOnlyFromRunning(env: Env, run: RunRecord, i: nat, status: StageStatus, u: Update)
    requires i < |run.stages| && StageSound(run.stages[i]) && Proceed(env, run, i, status, u).Ok?
    ensures status.Uncertain? ==> run.stages[i].status.Running? || run.stages[i].status.Uncertain?
  {
    hide CitesLineage, LineageComplete;
  }

  /**
   * A department marked uncertain through the raw update: failing the run is
   * then allowed, because the terminal check only looks at writes, and the
   * resulting snapshot is refused on the next read.
   */
  lemma StrayUncertainBricksTheRun(env: Env, run: RunRecord, id: Id, u: Update)
    requires RunOk(env, run) && UpdateStage(env, run, id, u).Ok? && StraysUncertain(run, id, u)
    requires forall s :: s in run.stages && s.status.Running? ==> s.id == id
    requires forall s :: s in run.stages ==> !WriteUnresolved(s)
    ensures var after := UpdateStage(env, run, id, u).value;
            Transition(after, FailedRun).Ok? && !ValidSnapshot(env, Transition(after, FailedRun).value)
  {
    var i := IndexOf(run.stages, id).value;
    var after := UpdateStage(env, run, id, u).value;
    assert after.stages == run.stages[i := after.stages[i]];
    assert after.stages[i].status.Uncertain? && !IsWrite(after.stages[i]) && after.stages[i] in after.stages;
    forall s | s in after.stages ensures !WriteUnresolved(s) && !s.status.Running? {
      var k :| 0 <= k < |after.stages| && after.stages[k] == s;
      if k != i {
        assert run.stages[k] in run.stages && run.stages[k] == s;
        IndexIs(run.stages, k);
      }
    }
    StrayEndIsRefused(env, after, DoTransition(FailedRun));
  }

  /** Terminal runs are frozen: every call throws or returns the state unchanged. */
  lemma TerminalIsFrozen(env: Env, run: RunRecord, op: Op)
    requires Terminal(run.status)
    ensures After(env, run, op) == run
  {
  }

  /** A terminal run that passed the check has nothing running or uncertain; a completed one has durable evidence throughout. */
  lemma TerminalHasNoOpenStage(env: Env, run: RunRecord, i: nat)
    requires RunOk(env, run) && Terminal(run.status) && i < |run.stages|
    ensures !run.stages[i].status.Running? && !run.stages[i].status.Uncertain?
    ensures run.status.CompletedRun? ==> run.stages[i].status.Completed? && DurableCompletion(run.stages[i])
  {
    assert run.stages[i] in run.stages;
  }
}
