/**
 * Whole histories of coordinated calls: every state keeps the promises, each
 * execution claim has at most one outcome, and a claimant that lost its stage
 * cannot complete it any more.
 */
module RunFencing {
  import opened Common
  import opened PG = PipelineGraph
  import Admission = PipelineAdmission
  import opened RunBudget
  import opened RunState
  import opened RunValidity
  import opened RunCoordination
  import opened RunGuarantees

  /** The states a fresh run goes through under a list of coordinated calls, each of which may also throw. */
  ghost predicate History(env: Env, runs: seq<RunRecord>, ops: seq<Op>) {
    && |runs| == |ops| + 1
    && Fresh(runs[0])
    && forall k {:trigger ops[k]} :: 0 <= k < |ops| ==> Coordinated(runs[k], ops[k]) && runs[k + 1] == After(env, runs[k], ops[k])
  }

  lemma {:induction false} ReachedIsDisciplined(env: Env, runs: seq<RunRecord>, ops: seq<Op>, k: nat)
    requires History(env, runs, ops) && k < |runs|
    ensures Disciplined(env, runs[k])
    decreases k
  {
    if k == 0 {
      FreshIsDisciplined(env, runs[0]);
    } else {
      ReachedIsDisciplined(env, runs, ops, k - 1);
      StepDisciplined(env, runs[k - 1], ops[k - 1]);
    }
  }

  /** One call of a history, ready for the lemmas about single calls. */
  lemma CallOf(env: Env, runs: seq<RunRecord>, ops: seq<Op>, k: nat)
    requires History(env, runs, ops) && k < |ops|
    ensures |runs| == |ops| + 1 && Disciplined(env, runs[k]) && Coordinated(runs[k], ops[k])
    ensures runs[k + 1] == After(env, runs[k], ops[k])
  {
    ReachedIsDisciplined(env, runs, ops, k);
  }

  lemma CallKeeps(env: Env, runs: seq<RunRecord>, ops: seq<Op>, k: nat)
    requires History(env, runs, ops) && k < |ops|
    ensures |runs| == |ops| + 1 && AllKept(runs[k].stages, runs[k + 1].stages)
  {
    ReachedIsDisciplined(env, runs, ops, k);
    StepKeepsReceipts(env, runs[k], ops[k]);
  }

  lemma KeptTwice(a: seq<RunStage>, b: seq<RunStage>, c: seq<RunStage>)
    requires AllKept(a, b) && AllKept(b, c)
    ensures AllKept(a, c)
  {
    forall i | 0 <= i < |a| ensures Kept(a[i], c[i]) {
      assert Kept(a[i], b[i]) && Kept(b[i], c[i]);
    }
  }

  /** Design, the receipts of writes and completed statuses last for the rest of the history. */
  lemma {:induction false} HistoryKeeps(env: Env, runs: seq<RunRecord>, ops: seq<Op>, j: nat, k: nat)
    requires History(env, runs, ops) && j <= k < |runs|
    ensures AllKept(runs[j].stages, runs[k].stages)
    decreases k
  {
    if j < k {
      CallKeeps(env, runs, ops, k - 1);
      hide History, AllKept;
      HistoryKeeps(env, runs, ops, j, k - 1);
      KeptTwice(runs[j].stages, runs[k - 1].stages, runs[k].stages);
    }
  }

  /** No write without an approval, in any state of any history over an admissible definition. */
  lemma NoWriteWithoutApproval(env: Env, definition: seq<PG.Stage>, profiles: set<string>,
                               runs: seq<RunRecord>, ops: seq<Op>, n: nat, i: nat, p: seq<Id>)
    requires DistinctIds(definition) && Admission.Admissible(definition, profiles)
    requires History(env, runs, ops) && FromDefinition(definition, runs[0]) && n < |runs|
    requires i < |runs[n].stages| && runs[n].stages[i].kind.Action?
    requires runs[n].stages[i].status in {Running, Uncertain, Completed}
    requires Admission.Inbound(ById(definition), p) && p[0] in runs[n].stages[i].dependsOn
    ensures exists k :: 0 <= k < |p| && ApprovedOnRecord(runs[n], p[k]) && CompletedAt(runs[n].stages, p[k])
  {
    ReachedIsDisciplined(env, runs, ops, n);
    HistoryKeeps(env, runs, ops, 0, n);
    forall m | 0 <= m < |definition|
      ensures runs[n].stages[m].id == definition[m].id
      ensures runs[n].stages[m].kind == definition[m].kind
      ensures runs[n].stages[m].dependsOn == definition[m].dependsOn
    {
      assert Kept(runs[0].stages[m], runs[n].stages[m]);
    }
    var k, j := ApprovalBeforeWrite(env, definition, profiles, runs[n], i, p);
    IndexIs(runs[n].stages, j);
  }

  /** A completed gate cites, in every later state, exactly the write receipts above it, which are still the ones it saw. */
  lemma GateLineageLasts(env: Env, runs: seq<RunRecord>, ops: seq<Op>, j: nat, k: nat, i: nat)
    requires History(env, runs, ops) && j <= k < |runs|
    requires i < |runs[j].stages| && runs[j].stages[i].kind.TruthGate? && runs[j].stages[i].status.Completed?
    ensures i < |runs[k].stages| && runs[k].stages[i].gateReceipt.Some?
    ensures CitesLineage(runs[k].stages, runs[k].stages[i], runs[k].stages[i].gateReceipt.value.cites)
    ensures runs[j].stages[i].gateReceipt.Some?
    ensures CitesLineage(runs[k].stages, runs[k].stages[i], runs[j].stages[i].gateReceipt.value.cites)
  {
    ReachedIsDisciplined(env, runs, ops, j);
    ReachedIsDisciplined(env, runs, ops, k);
    HistoryKeeps(env, runs, ops, j, k);
    assert Kept(runs[j].stages[i], runs[k].stages[i]);
    GateCitesWrites(env, runs[j], i);
    GateCitesWrites(env, runs[k], i);
    LineageIsKept(runs[j].stages, runs[k].stages, runs[j].stages[i], runs[k].stages[i], runs[j].stages[i].gateReceipt.value.cites);
  }

  // ---------------------------------------------------------------- holding a claim

  ghost predicate HoldsAt(run: RunRecord, i: nat, c: ClaimId) {
    i < |run.stages| && run.stages[i].status.Running? && run.stages[i].claim == Some(c)
  }

  /** The call that would give stage `i` to claim `c`. */
  ghost predicate ClaimsFor(run: RunRecord, op: Op, i: nat, c: ClaimId) {
    && i < |run.stages| && op.DoUpdate? && op.stage == run.stages[i].id
    && IsClaim(op.update) && op.update.claim == Some(c)
  }

  lemma UpdateHolder(env: Env, run: RunRecord, id: Id, u: Update, i: nat, c: ClaimId)
    requires Disciplined(env, run) && CoordinatedUpdate(run, id, u) && UpdateStage(env, run, id, u).Ok?
    requires HoldsAt(UpdateStage(env, run, id, u).value, i, c)
    ensures HoldsAt(run, i, c) || ClaimsFor(run, DoUpdate(id, u), i, c)
    ensures !HoldsAt(run, i, c) ==> run.stages[i].attempts + 1 == UpdateStage(env, run, id, u).value.stages[i].attempts
  {
    var k := IndexOf(run.stages, id).value;
    var s := run.stages[k];
    if !(u.expectedStatus.Some? && s.status != u.expectedStatus.value) {
      MoveStays(env, run, k, Effective(s, u.status.value), u);
      if k == i {
        assert StageSound(s) && StageDisciplined(s);
      }
    }
  }

  lemma RecordingHolder(env: Env, run: RunRecord, op: Op, i: nat, c: ClaimId)
    requires Step(env, run, op).Ok?
    requires op.DoApproval? || op.DoArtifact? || op.DoFailDepartment? || op.DoCompleteDepartment?
    requires HoldsAt(Step(env, run, op).value, i, c)
    ensures HoldsAt(run, i, c)
  {
  }

  lemma ResumeHolder(env: Env, run: RunRecord, m: Markers, i: nat, c: ClaimId)
    requires Resume(env, run, m).Ok? && HoldsAt(Resume(env, run, m).value, i, c)
    ensures HoldsAt(run, i, c)
  {
    ResumeAt(env, run, m, i);
  }

  lemma WholeRunHolder(env: Env, run: RunRecord, op: Op, i: nat, c: ClaimId)
    requires Step(env, run, op).Ok?
    requires op.DoTransition? || op.DoCancel? || op.DoRecover? || op.DoAttach? || op.DoBudget?
    requires HoldsAt(Step(env, run, op).value, i, c)
    ensures HoldsAt(run, i, c)
  {
    var after := Step(env, run, op).value;
    assert after.stages == run.stages || after.stages == StopAll(run.stages);
  }

  lemma ElsewhereHolder(env: Env, run: RunRecord, op: Op, i: nat, c: ClaimId)
    requires Step(env, run, op).Ok? && !op.DoUpdate?
    requires HoldsAt(Step(env, run, op).value, i, c)
    ensures HoldsAt(run, i, c)
  {
    if op.DoResume? {
      ResumeHolder(env, run, op.markers, i, c);
    } else if op.DoApproval? || op.DoArtifact? || op.DoFailDepartment? || op.DoCompleteDepartment? {
      RecordingHolder(env, run, op, i, c);
    } else {
      WholeRunHolder(env, run, op, i, c);
    }
  }

  /** A claim comes to hold a stage only through its own claiming call, which counts one attempt. */
  lemma HolderStep(env: Env, run: RunRecord, op: Op, i: nat, c: ClaimId)
    requires Disciplined(env, run) && Coordinated(run, op)
    requires HoldsAt(After(env, run, op), i, c)
    ensures HoldsAt(run, i, c) || ClaimsFor(run, op, i, c)
    ensures !HoldsAt(run, i, c) ==> run.stages[i].attempts + 1 == After(env, run, op).stages[i].attempts
  {
    if Step(env, run, op).Ok? {
      if op.DoUpdate? {
        UpdateHolder(env, run, op.stage, op.update, i, c);
      } else {
        ElsewhereHolder(env, run, op, i, c);
      }
    }
  }

  /** Claims carry fresh random ids. */
  ghost predicate FreshClaims(ops: seq<Op>) {
    forall j, k :: 0 <= j < k < |ops| && ops[j].DoUpdate? && ops[k].DoUpdate?
                   && ops[j].update.claim.Some? && ops[k].update.claim.Some? ==>
                     ops[j].update.claim != ops[k].update.claim
  }

  lemma FreshHoldsNothing(run: RunRecord, i: nat, c: ClaimId)
    requires Fresh(run)
    ensures !HoldsAt(run, i, c)
  {
    if i < |run.stages| { assert FreshStage(run.stages, run.stages[i]); }
  }

  /** Call `m` gives stage `i` to claim `c`, at one more attempt. */
  ghost predicate Won(runs: seq<RunRecord>, ops: seq<Op>, m: nat, i: nat, c: ClaimId) {
    && m < |ops| && |runs| == |ops| + 1
    && ClaimsFor(runs[m], ops[m], i, c)
    && !HoldsAt(runs[m], i, c) && HoldsAt(runs[m + 1], i, c)
    && runs[m + 1].stages[i].attempts == runs[m].stages[i].attempts + 1
  }

  lemma WonWhenNew(env: Env, runs: seq<RunRecord>, ops: seq<Op>, k: nat, i: nat, c: ClaimId)
    requires History(env, runs, ops) && k < |ops|
    requires HoldsAt(runs[k + 1], i, c) && !HoldsAt(runs[k], i, c)
    ensures Won(runs, ops, k, i, c)
  {
    CallOf(env, runs, ops, k);
    hide After, Disciplined, Coordinated;
    HolderStep(env, runs[k], ops[k], i, c);
  }

  /** Whoever holds a stage won it at some earlier call and has held it ever since. */
  lemma {:induction false} Origin(env: Env, runs: seq<RunRecord>, ops: seq<Op>, k: nat, i: nat, c: ClaimId) returns (m: nat)
    requires History(env, runs, ops) && k < |runs| && HoldsAt(runs[k], i, c)
    ensures m < k && Won(runs, ops, m, i, c)
    ensures forall l :: m < l <= k ==> HoldsAt(runs[l], i, c)
    decreases k
  {
    FreshHoldsNothing(runs[0], i, c);
    if HoldsAt(runs[k - 1], i, c) {
      hide History, HoldsAt, Won;
      m := Origin(env, runs, ops, k - 1, i, c);
    } else {
      m := k - 1;
      WonWhenNew(env, runs, ops, k - 1, i, c);
    }
  }

  /** Call `k` ends the hold of claim `c` on stage `i`: an outcome, a stop, or a loss. */
  ghost predicate Ends(runs: seq<RunRecord>, k: nat, i: nat, c: ClaimId) {
    k + 1 < |runs| && HoldsAt(runs[k], i, c) && !HoldsAt(runs[k + 1], i, c)
  }

  /** Among any interleaving of coordinated calls, a claim is held on one stage only and ends at most once. */
  lemma ClaimEndsOnce(env: Env, runs: seq<RunRecord>, ops: seq<Op>, k: nat, i: nat, k': nat, i': nat, c: ClaimId)
    requires History(env, runs, ops) && FreshClaims(ops)
    requires Ends(runs, k, i, c) && Ends(runs, k', i', c)
    ensures k == k' && i == i'
  {
    hide After;
    var m := Origin(env, runs, ops, k, i, c);
    var m' := Origin(env, runs, ops, k', i', c);
    assert m == m';
    ReachedIsDisciplined(env, runs, ops, m);
    IndexIs(runs[m].stages, i);
    IndexIs(runs[m].stages, i');
    assert !HoldsAt(runs[k + 1], i, c) && !HoldsAt(runs[k' + 1], i, c);
  }

  /** The attempts counter never goes back. */
  lemma {:induction false} AttemptsGrow(env: Env, runs: seq<RunRecord>, ops: seq<Op>, j: nat, k: nat, i: nat)
    requires History(env, runs, ops) && j <= k < |runs| && i < |runs[j].stages|
    ensures |runs[k].stages| == |runs[j].stages| && runs[j].stages[i].attempts <= runs[k].stages[i].attempts
    decreases k
  {
    if j < k {
      CallAttempts(env, runs, ops, k - 1);
      hide History;
      AttemptsGrow(env, runs, ops, j, k - 1, i);
    }
  }

  lemma CallAttempts(env: Env, runs: seq<RunRecord>, ops: seq<Op>, k: nat)
    requires History(env, runs, ops) && k < |ops|
    ensures |runs| == |ops| + 1 && |runs[k + 1].stages| == |runs[k].stages|
    ensures forall i :: 0 <= i < |runs[k].stages| ==> runs[k].stages[i].attempts <= runs[k + 1].stages[i].attempts
  {
    ReachedIsDisciplined(env, runs, ops, k);
    CallKeeps(env, runs, ops, k);
    forall i | 0 <= i < |runs[k].stages| ensures runs[k].stages[i].attempts <= runs[k + 1].stages[i].attempts {
      AttemptsStep(env, runs[k], ops[k], i);
    }
  }

  lemma AttemptsStep(env: Env, run: RunRecord, op: Op, i: nat)
    requires Disciplined(env, run) && i < |run.stages|
    ensures |After(env, run, op).stages| == |run.stages|
    ensures run.stages[i].attempts <= After(env, run, op).stages[i].attempts
  {
    StepKeepsReceipts(env, run, op);
    if Step(env, run, op).Ok? {
      if op.DoResume? {
        ResumeAt(env, run, op.markers, i);
      } else if op.DoUpdate? {
        UpdateAttempts(env, run, op.stage, op.update, i);
      } else {
        ElsewhereAttempts(env, run, op, i);
      }
    }
  }

  lemma ElsewhereAttempts(env: Env, run: RunRecord, op: Op, i: nat)
    requires i < |run.stages| && Step(env, run, op).Ok? && !op.DoResume? && !op.DoUpdate?
    requires |Step(env, run, op).value.stages| == |run.stages|
    ensures run.stages[i].attempts <= Step(env, run, op).value.stages[i].attempts
    ensures !run.stages[i].kind.Approval? ==> run.stages[i].attempts == Step(env, run, op).value.stages[i].attempts
  {
    if op.DoApproval? && Step(env, run, op).value != run {
      var k := IndexOf(run.stages, op.stage).value;
      assert run.stages[k].kind.Approval?;
    }
  }

  lemma UpdateAttempts(env: Env, run: RunRecord, id: Id, u: Update, i: nat)
    requires Disciplined(env, run) && i < |run.stages| && UpdateStage(env, run, id, u).Ok?
    ensures |UpdateStage(env, run, id, u).value.stages| == |run.stages|
    ensures run.stages[i].attempts <= UpdateStage(env, run, id, u).value.stages[i].attempts
  {
    var k := IndexOf(run.stages, id).value;
    var s := run.stages[k];
    if !(u.expectedStatus.Some? && s.status != u.expectedStatus.value) {
      var status := Effective(s, if u.status.Some? then u.status.value else s.status);
      MoveStays(env, run, k, status, u);
      ProceedAttempts(env, run, k, status, u);
      hide Proceed, Guard;
    }
  }

  lemma ProceedAttempts(env: Env, run: RunRecord, i: nat, status: StageStatus, u: Update)
    requires i < |run.stages| && Proceed(env, run, i, status, u).Ok?
    ensures |Proceed(env, run, i, status, u).value.stages| == |run.stages|
    ensures run.stages[i].attempts <= Proceed(env, run, i, status, u).value.stages[i].attempts
  {
    hide CitesLineage, LineageComplete;
  }

  /** Two winning claims of one stage win different attempts of it. */
  lemma EachAttemptHasOneWinner(env: Env, runs: seq<RunRecord>, ops: seq<Op>, k: nat, k': nat, i: nat, c: ClaimId, c': ClaimId)
    requires History(env, runs, ops) && k < |runs| && k' < |runs|
    requires HoldsAt(runs[k], i, c) && HoldsAt(runs[k'], i, c')
    requires runs[k].stages[i].attempts == runs[k'].stages[i].attempts
    ensures c == c'
  {
    hide After, Coordinated, Fresh;
    var m := Origin(env, runs, ops, k, i, c);
    var m' := Origin(env, runs, ops, k', i, c');
    if m < m' {
      HeldAttempt(env, runs, ops, m + 1, k, i, c);
      AttemptsGrow(env, runs, ops, m + 1, m', i);
      AttemptsGrow(env, runs, ops, m' + 1, k', i);
    } else if m' < m {
      HeldAttempt(env, runs, ops, m' + 1, k', i, c');
      AttemptsGrow(env, runs, ops, m' + 1, m, i);
      AttemptsGrow(env, runs, ops, m + 1, k, i);
    }
  }

  /** While one claim holds a stage its attempts counter stands still. */
  lemma HeldAttempt(env: Env, runs: seq<RunRecord>, ops: seq<Op>, j: nat, k: nat, i: nat, c: ClaimId)
    requires History(env, runs, ops) && j <= k < |runs|
    requires HoldsAt(runs[j], i, c) && HoldsAt(runs[k], i, c)
    requires forall l :: j <= l <= k ==> HoldsAt(runs[l], i, c)
    ensures runs[k].stages[i].attempts == runs[j].stages[i].attempts
  {
    forall l | j <= l < k ensures SameAttempts(runs, l, i) {
      assert HoldsAt(runs[l + 1], i, c);
      HeldHistoryStep(env, runs, ops, l, i, c);
    }
    StandsStill(runs, j, k, i);
  }

  ghost predicate SameAttempts(runs: seq<RunRecord>, l: nat, i: nat) {
    && l + 1 < |runs| && i < |runs[l].stages| && i < |runs[l + 1].stages|
    && runs[l + 1].stages[i].attempts == runs[l].stages[i].attempts
  }

  lemma {:induction false} StandsStill(runs: seq<RunRecord>, j: nat, k: nat, i: nat)
    requires j <= k < |runs| && i < |runs[j].stages| && i < |runs[k].stages|
    requires forall l :: j <= l < k ==> SameAttempts(runs, l, i)
    ensures runs[k].stages[i].attempts == runs[j].stages[i].attempts
    decreases k
  {
    if j < k {
      assert SameAttempts(runs, k - 1, i);
      StandsStill(runs, j, k - 1, i);
    }
  }

  lemma HeldHistoryStep(env: Env, runs: seq<RunRecord>, ops: seq<Op>, k: nat, i: nat, c: ClaimId)
    requires History(env, runs, ops) && k + 1 < |runs|
    requires HoldsAt(runs[k], i, c) && HoldsAt(runs[k + 1], i, c)
    ensures runs[k + 1].stages[i].attempts == runs[k].stages[i].attempts
  {
    ReachedIsDisciplined(env, runs, ops, k);
    HeldStep(env, runs[k], ops[k], i, c);
  }

  lemma HeldStep(env: Env, run: RunRecord, op: Op, i: nat, c: ClaimId)
    requires Disciplined(env, run) && Coordinated(run, op)
    requires HoldsAt(run, i, c) && HoldsAt(After(env, run, op), i, c)
    ensures After(env, run, op).stages[i].attempts == run.stages[i].attempts
  {
    if Step(env, run, op).Ok? {
      assert StageDisciplined(run.stages[i]) && StageSound(run.stages[i]);
      if op.DoResume? {
        ResumeAt(env, run, op.markers, i);
      } else if op.DoUpdate? {
        HeldUpdate(env, run, op.stage, op.update, i, c);
      } else if op.DoApproval? {
        IndexIs(run.stages, i);
      }
    }
  }

  lemma HeldUpdate(env: Env, run: RunRecord, id: Id, u: Update, i: nat, c: ClaimId)
    requires Disciplined(env, run) && CoordinatedUpdate(run, id, u) && UpdateStage(env, run, id, u).Ok?
    requires HoldsAt(run, i, c)
    ensures i < |UpdateStage(env, run, id, u).value.stages|
    ensures UpdateStage(env, run, id, u).value.stages[i].attempts == run.stages[i].attempts
  {
    var k := IndexOf(run.stages, id).value;
    var s := run.stages[k];
    if !(u.expectedStatus.Some? && s.status != u.expectedStatus.value) {
      MoveStays(env, run, k, Effective(s, u.status.value), u);
      if k == i {
        assert StageSound(s) && StageDisciplined(s);
      }
    }
  }

  // ---------------------------------------------------------------- superseded claimants

  /** A call by which claimant `c` reports success, or a charged failure. */
  ghost predicate Reports(op: Op, c: ClaimId) {
    || (op.DoUpdate? && op.update == CompleteUpdate(c, op.update.actionReceipt, op.update.gateReceipt))
    || (op.DoCompleteDepartment? && op.expectedClaim == Some(c))
    || (op.DoFailDepartment? && op.expectedClaim == Some(c))
  }

  /** A success report on a stage that is not running can only repeat itself. */
  lemma LateCompletion(env: Env, run: RunRecord, id: Id, u: Update, c: ClaimId)
    requires Disciplined(env, run) && u == CompleteUpdate(c, u.actionReceipt, u.gateReceipt)
    requires UpdateStage(env, run, id, u).Ok?
    requires forall i :: 0 <= i < |run.stages| ==> !HoldsAt(run, i, c)
    ensures var after := UpdateStage(env, run, id, u).value;
            var k := IndexOf(run.stages, id).value;
            && after.artifacts == run.artifacts && after.budget == run.budget
            && |after.stages| == |run.stages| && after.stages == run.stages[k := after.stages[k]]
            && run.stages[k].status.Completed? && after.stages[k].status.Completed? && run.stages[k].claim == Some(c)
            && (!run.stages[k].kind.TruthGate? ==> after.stages[k] == run.stages[k])
  {
    var k := IndexOf(run.stages, id).value;
    var s := run.stages[k];
    assert StageSound(s) && StageDisciplined(s) && !HoldsAt(run, k, c);
    assert Guard(env, run, s, u).None?;
    assert !s.status.Running?;
    MoveStays(env, run, k, Completed, u);
  }

  /**
   * A claimant that no longer holds its stage, whether interrupted, resumed or
   * claimed again, changes nothing by reporting: no status, no artifact, no
   * charge.  The one field it can still replace is the receipt of a truth gate
   * that it completed itself before.
   */
  lemma SupersededCannotReport(env: Env, run: RunRecord, op: Op, c: ClaimId)
    requires Disciplined(env, run) && Reports(op, c)
    requires forall i :: 0 <= i < |run.stages| ==> !HoldsAt(run, i, c)
    ensures var after := After(env, run, op);
            && |after.stages| == |run.stages| && after.artifacts == run.artifacts && after.budget == run.budget
            && forall i :: 0 <= i < |run.stages| ==>
                 && after.stages[i].status == run.stages[i].status
                 && (after.stages[i] == run.stages[i]
                     || (run.stages[i].kind.TruthGate? && run.stages[i].status.Completed? && run.stages[i].claim == Some(c)))
  {
    if Step(env, run, op).Ok? {
      if op.DoUpdate? {
        LateCompletion(env, run, op.stage, op.update, c);
      } else {
        var k := DepartmentAt(run, op.stage, Some(c)).value;
        assert HoldsAt(run, k, c);
      }
    }
  }

  /**
   * A failure report is not fenced in the same way: besides the running stage it
   * holds, it also lands on a stage that was interrupted, blocked or paused for
   * budget and not yet claimed by anyone else; on a failed one it changes nothing.
   */
  lemma LateFailureLandsExactlyWhen(env: Env, run: RunRecord, id: Id, c: ClaimId)
    requires Disciplined(env, run) && IndexOf(run.stages, id).Some?
    ensures var i := IndexOf(run.stages, id).value;
            var s, r := run.stages[i], UpdateStage(env, run, id, FailUpdate(c));
            (r.Ok? && r.value.stages[i].status.Failed?) <==>
              && run.status.Active? && s.claim == Some(c)
              && (s.status.Failed?
                  || (!s.kind.Approval?
                      && ((s.status.Running? && !IsWrite(s)) || s.status.Interrupted? || s.status.Blocked? || s.status.BudgetPaused?)))
  {
    var i := IndexOf(run.stages, id).value;
    assert StageSound(run.stages[i]) && StageDisciplined(run.stages[i]);
  }

  /** A restart of a run without open writes, and the resume after it. */
  lemma RestartAndResume(env: Env, run: RunRecord) returns (stopped: RunRecord, resumed: RunRecord)
    requires Disciplined(env, run) && run.status.Active?
    requires forall s :: s in run.stages ==> !WriteUnresolved(s)
    ensures stopped == After(env, run, DoRecover) && resumed == After(env, stopped, DoResume(Markers(map[], None)))
    ensures Disciplined(env, resumed) && resumed.status.Active?
    ensures stopped.stages == StopAll(run.stages) && resumed.stages == StopAll(run.stages)
  {
    stopped := After(env, run, DoRecover);
    StepDisciplined(env, run, DoRecover);
    forall s | s in stopped.stages ensures !NeedsResolution(s) {
      var k :| 0 <= k < |stopped.stages| && stopped.stages[k] == s;
      assert run.stages[k] in run.stages && StageSound(run.stages[k]);
    }
    NothingToResolve(env, stopped.stages, Markers(map[], None), CountUncertain(stopped.stages));
    resumed := After(env, stopped, DoResume(Markers(map[], None)));
    StepDisciplined(env, stopped, DoResume(Markers(map[], None)));
  }

  /** So a department claimed before a restart can still be failed by its old claimant after the resume. */
  lemma SupersededFailureLands(env: Env, run: RunRecord, i: nat, c: ClaimId) returns (stopped: RunRecord, resumed: RunRecord)
    requires Disciplined(env, run) && run.status.Active? && HoldsAt(run, i, c) && run.stages[i].kind.Department?
    requires forall s :: s in run.stages ==> !WriteUnresolved(s)
    ensures stopped == After(env, run, DoRecover) && resumed == After(env, stopped, DoResume(Markers(map[], None)))
    ensures |resumed.stages| == |run.stages| && resumed.stages[i].status.Interrupted? && !HoldsAt(resumed, i, c)
    ensures var late := UpdateStage(env, resumed, run.stages[i].id, FailUpdate(c));
            late.Ok? && i < |late.value.stages| && late.value.stages[i].status.Failed?
  {
    stopped, resumed := RestartAndResume(env, run);
    assert run.stages[i] in run.stages && StageDisciplined(run.stages[i]);
    assert resumed.stages[i] == StopStage(run.stages[i]);
    IndexIs(resumed.stages, i);
    LateFailureLandsExactlyWhen(env, resumed, run.stages[i].id, c);
  }

  lemma {:induction false} NothingToResolve(env: Env, stages: seq<RunStage>, m: Markers, count: nat)
    requires forall s :: s in stages ==> !NeedsResolution(s)
    ensures ResolveAll(env, stages, m, count, None) == Ok((stages, None))
    decreases |stages|
  {
    if |stages| > 0 {
      assert forall s :: s in stages[1..] ==> s in stages;
      NothingToResolve(env, stages[1..], m, count);
      assert [stages[0]] + stages[1..] == stages;
    }
  }
}
