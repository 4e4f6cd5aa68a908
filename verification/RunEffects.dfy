/**
 * What the calls of the store do, told by the fields of the run before and
 * after: what a started write starts from, what an ended one leaves, what a
 * decision, a marker, an artifact or a stop does to its stage, and that nothing
 * else moves.
 */
module RunEffects {
  import opened Common
  import opened PG = PipelineGraph
  import opened RunBudget
  import opened RunState
  import opened RunValidity
  import opened RunCoordination
  import opened RunGuarantees
  import opened RunLifecycle
  import opened RunRetries

  // ---------------------------------------------------------------- one stage at a time

  /** Everything but the stages, the budget and the workspace checkpoint. */
  ghost predicate SameSurroundings(run: RunRecord, after: RunRecord) {
    && after.status == run.status && after.artifacts == run.artifacts
    && after.approvals == run.approvals && after.sessions == run.sessions
  }

  /** At most the stage at `i` differs. */
  ghost predicate OnlyAt(stages: seq<RunStage>, after: seq<RunStage>, i: nat) {
    |after| == |stages| && forall k :: 0 <= k < |stages| && k != i ==> after[k] == stages[k]
  }

  lemma ProceedSurroundings(env: Env, run: RunRecord, i: nat, status: StageStatus, u: Update)
    requires i < |run.stages| && Proceed(env, run, i, status, u).Ok?
    ensures SameSurroundings(run, Proceed(env, run, i, status, u).value)
    ensures OnlyAt(run.stages, Proceed(env, run, i, status, u).value.stages, i)
    ensures Proceed(env, run, i, status, u).value.stages[i].status == status
  {
    ProceedStatus(env, run, i, status, u);
    hide CitesLineage, LineageComplete;
  }

  /** A stage update touches its own stage only; with another status than expected it touches nothing. */
  lemma UpdateTouchesOneStage(env: Env, run: RunRecord, id: Id, u: Update, i: nat)
    requires IndexOf(run.stages, id) == Some(i) && UpdateStage(env, run, id, u).Ok?
    ensures var after := UpdateStage(env, run, id, u).value;
            && SameSurroundings(run, after) && OnlyAt(run.stages, after.stages, i)
            && (u.expectedStatus.Some? && u.expectedStatus.value != run.stages[i].status ==> after == run)
  {
    var s := run.stages[i];
    if !(u.expectedStatus.Some? && s.status != u.expectedStatus.value) {
      ProceedSurroundings(env, run, i, Effective(s, if u.status.Some? then u.status.value else s.status), u);
    }
  }

  /** A claim or report that comes too late is no error: the stage has another status than expected, and the run is returned as it is. */
  lemma LateUpdateIsIgnored(env: Env, run: RunRecord, id: Id, u: Update, i: nat)
    requires run.status.Active? && IndexOf(run.stages, id) == Some(i)
    requires u.expectedStatus.Some? && u.expectedStatus.value != run.stages[i].status
    ensures UpdateStage(env, run, id, u) == Ok(run)
  {
  }

  // ---------------------------------------------------------------- starting

  /** The workspace was named by the update or, where it names none, by the stage. */
  ghost predicate Vouched(s: RunStage, u: Update, checkpoint: Digest) {
    if u.digestBefore.Some? then u.digestBefore == Some(checkpoint) else s.digestBefore == Some(checkpoint)
  }

  lemma ProceedStarts(env: Env, run: RunRecord, i: nat, status: StageStatus, u: Update)
    requires i < |run.stages| && Proceed(env, run, i, status, u).Ok?
    requires !run.stages[i].status.Running? && status.Running?
    ensures var s, t := run.stages[i], Proceed(env, run, i, status, u).value.stages[i];
            && t.attempts == s.attempts + 1
            && t.claim == (if u.claim.Some? then u.claim else s.claim)
            && (IsWrite(s) ==> t.digestBefore == Some(run.checkpoint) && Vouched(s, u, run.checkpoint))
  {
    hide CitesLineage, LineageComplete;
  }

  lemma UpdateStarts(env: Env, run: RunRecord, id: Id, u: Update, i: nat)
    requires RunOk(env, run) && i < |run.stages| && UpdateStage(env, run, id, u).Ok?
    requires !run.stages[i].status.Running?
    ensures var s, after := run.stages[i], UpdateStage(env, run, id, u).value;
            i < |after.stages| && (after.stages[i].status.Running? ==>
              && id == s.id && u.status == Some(Running) && run.status.Active? && !s.kind.Approval?
              && (s.status.Pending? ==> DependenciesReady(run.stages, s))
              && after.stages[i].attempts == s.attempts + 1
              && (u.claim.Some? ==> after.stages[i].claim == u.claim)
              && (IsWrite(s) ==> after.stages[i].digestBefore == Some(run.checkpoint) && Vouched(s, u, run.checkpoint)))
  {
    var k := IndexOf(run.stages, id).value;
    IndexIs(run.stages, i);
    UpdateTouchesOneStage(env, run, id, u, k);
    var s := run.stages[k];
    if k == i && !(u.expectedStatus.Some? && s.status != u.expectedStatus.value) {
      var status := Effective(s, if u.status.Some? then u.status.value else s.status);
      ProceedSurroundings(env, run, k, status, u);
      if status.Running? { ProceedStarts(env, run, k, status, u); }
      hide Proceed;
    }
  }

  /** Only an update starts a stage. */
  lemma OthersStartNothing(env: Env, run: RunRecord, op: Op, i: nat)
    requires i < |run.stages| && !run.stages[i].status.Running? && !op.DoUpdate? && Step(env, run, op).Ok?
    ensures i < |Step(env, run, op).value.stages| && !Step(env, run, op).value.stages[i].status.Running?
  {
    if op.DoResume? { ResumeAt(env, run, op.markers, i); }
  }

  /**
   * A write that starts, in any call from any valid state, starts from the
   * workspace the run has on record, as its update or its stage vouches; a stage of any kind starts only in an
   * active run, by an update of its own that asks for it, with one attempt more,
   * and from pending only over completed dependencies.
   */
  lemma StartsFromTheCheckpoint(env: Env, run: RunRecord, op: Op, i: nat)
    requires RunOk(env, run) && i < |run.stages| && !run.stages[i].status.Running?
    ensures |After(env, run, op).stages| == |run.stages|
    ensures var s, t := run.stages[i], After(env, run, op).stages[i];
            t.status.Running? ==>
              && op.DoUpdate? && op.stage == s.id && op.update.status == Some(Running)
              && (IsWrite(s) ==> t.digestBefore == Some(run.checkpoint) && Vouched(s, op.update, run.checkpoint))
              && run.status.Active? && !s.kind.Approval? && t.attempts == s.attempts + 1
              && (op.update.claim.Some? ==> t.claim == op.update.claim)
              && (s.status.Pending? ==> forall d :: d in s.dependsOn ==> CompletedAt(run.stages, d))
  {
    StepKeepsReceipts(env, run, op);
    if Step(env, run, op).Ok? {
      if op.DoUpdate? {
        UpdateStarts(env, run, op.stage, op.update, i);
      } else {
        OthersStartNothing(env, run, op, i);
      }
    }
  }

  /** A verified retry that was not used yet. */
  ghost predicate RetryLeft(s: RunStage) {
    && s.resolution.Some? && s.resolution.value.outcome.Retry?
    && s.resolution.value.retryAuthorized && !s.resolution.value.retryConsumed
  }

  lemma ProceedWithinAttempts(env: Env, run: RunRecord, i: nat, status: StageStatus, u: Update)
    requires i < |run.stages| && Proceed(env, run, i, status, u).Ok? && StageSound(run.stages[i])
    requires !run.stages[i].status.Running? && status.Running?
    ensures var (s, t) := (run.stages[i], Proceed(env, run, i, status, u).value.stages[i]);
            var limit := if s.maxAttempts.Some? && s.maxAttempts.value > 0 then s.maxAttempts.value else 1;
            || s.attempts < limit
            || (IsWrite(s) && s.status.Interrupted? && RetryLeft(s) && !RetryLeft(t))
            || (IsWrite(s) && s.status.Uncertain? && !RetryLeft(t))
  {
    hide CitesLineage, LineageComplete;
  }

  /**
   * A stage starts only while it has attempts left, one where no limit is set;
   * or it is a write that uses up a retry, one authorised before or by the very
   * marker that settles it.
   */
  lemma StartsWithinItsAttempts(env: Env, run: RunRecord, id: Id, u: Update, i: nat)
    requires RunOk(env, run) && i < |run.stages| && UpdateStage(env, run, id, u).Ok?
    requires !run.stages[i].status.Running?
    ensures var (s, after) := (run.stages[i], UpdateStage(env, run, id, u).value);
            var limit := if s.maxAttempts.Some? && s.maxAttempts.value > 0 then s.maxAttempts.value else 1;
            i < |after.stages| && (after.stages[i].status.Running? ==>
              || s.attempts < limit
              || (IsWrite(s) && s.status.Interrupted? && RetryLeft(s) && !RetryLeft(after.stages[i]))
              || (IsWrite(s) && s.status.Uncertain? && !RetryLeft(after.stages[i])))
  {
    var k := IndexOf(run.stages, id).value;
    IndexIs(run.stages, i);
    assert StageSound(run.stages[i]);
    UpdateTouchesOneStage(env, run, id, u, k);
    var s := run.stages[k];
    if k == i && !(u.expectedStatus.Some? && s.status != u.expectedStatus.value) {
      var status := Effective(s, if u.status.Some? then u.status.value else s.status);
      ProceedSurroundings(env, run, k, status, u);
      if status.Running? { ProceedWithinAttempts(env, run, k, status, u); }
      hide Proceed;
    }
  }

  // ---------------------------------------------------------------- ending

  /** A receipt that fits the workspace digest a write was started from. */
  ghost predicate FitsStart(env: Env, s: RunStage, r: Receipt) {
    && env.actionVerified(r) && r.observed && r.workspaceDigest.Some?
    && r.workspaceDigestBefore.Some? && r.workspaceDigestBefore == s.digestBefore
  }

  lemma ProceedCompletesWrite(env: Env, run: RunRecord, i: nat, u: Update)
    requires i < |run.stages| && Proceed(env, run, i, Completed, u).Ok?
    requires IsWrite(run.stages[i]) && run.stages[i].status.Running? && StageSound(run.stages[i])
    ensures var s, after := run.stages[i], Proceed(env, run, i, Completed, u).value;
            && u.actionReceipt.Some? && after.stages[i].receipt == u.actionReceipt
            && var r := u.actionReceipt.value;
               && after.stages[i].receiptDigest == Some(env.digest(r))
               && r.observed && r.workspaceDigest.Some?
               && r.workspaceDigestBefore.Some? && r.workspaceDigestBefore == s.digestBefore
               && (!s.kind.TruthGate? ==> after.checkpoint == r.workspaceDigest.value)
  {
    hide CitesLineage, LineageComplete;
  }

  /**
   * How a running write may end under any update, raw ones included: completed
   * with a verified receipt for the very workspace it started from, whose
   * resulting workspace becomes the run's; or uncertain; or waiting for an approval.
   */
  lemma WriteEndsWithItsReceipt(env: Env, run: RunRecord, id: Id, u: Update, i: nat)
    requires RunOk(env, run) && i < |run.stages| && UpdateStage(env, run, id, u).Ok?
    requires IsWrite(run.stages[i]) && run.stages[i].status.Running?
    ensures var s, after := run.stages[i], UpdateStage(env, run, id, u).value;
            && i < |after.stages|
            && (after.stages[i].status.Running? || after.stages[i].status.Uncertain?
                || after.stages[i].status.AwaitingApproval? || after.stages[i].status.Completed?)
            && (after.stages[i].status.Completed? ==>
                  && id == s.id && after.stages[i].receipt.Some? && after.stages[i].receipt == u.actionReceipt
                  && FitsStart(env, s, u.actionReceipt.value)
                  && after.stages[i].receiptDigest == Some(env.digest(u.actionReceipt.value))
                  && (!s.kind.TruthGate? ==> after.checkpoint == u.actionReceipt.value.workspaceDigest.value))
  {
    var k := IndexOf(run.stages, id).value;
    IndexIs(run.stages, i);
    assert StageSound(run.stages[i]);
    UpdateTouchesOneStage(env, run, id, u, k);
    var s := run.stages[k];
    if k == i && !(u.expectedStatus.Some? && s.status != u.expectedStatus.value) {
      var status := Effective(s, if u.status.Some? then u.status.value else s.status);
      ProceedSurroundings(env, run, k, status, u);
      ProceedEdge(env, run, k, status, u);
      if status.Completed? { ProceedCompletesWrite(env, run, k, u); }
      hide Proceed;
    }
  }

  /** A stage that is not uncertain moves along the table of stage transitions. */
  lemma ProceedEdge(env: Env, run: RunRecord, i: nat, status: StageStatus, u: Update)
    requires i < |run.stages| && Proceed(env, run, i, status, u).Ok? && !NeedsResolution(run.stages[i])
    ensures status == run.stages[i].status || status in StageEdges(run.stages[i].status)
  {
    hide CitesLineage, LineageComplete;
  }

  /**
   * From where an update can take a stage to each status, unless it settles an
   * uncertain one: completed, cancelled and skipped stages never move, nothing
   * is completed that was not under way, and only what is blocked or has failed
   * goes back to pending.
   */
  lemma UpdateMovesAlong(env: Env, run: RunRecord, id: Id, u: Update, i: nat)
    requires RunOk(env, run) && i < |run.stages| && UpdateStage(env, run, id, u).Ok?
    requires i < |UpdateStage(env, run, id, u).value.stages|
    ensures var (s, t) := (run.stages[i].status, UpdateStage(env, run, id, u).value.stages[i].status);
            s == t || s.Uncertain?
            || match t
               case Pending => s in {Blocked, Failed}
               case Running => s in {Pending, Blocked, BudgetPaused, Interrupted, Failed}
               case AwaitingApproval => s in {Pending, Running}
               case Blocked => s in {Pending, Running, AwaitingApproval}
               case BudgetPaused => s == Running
               case Completed => s in {Running, AwaitingApproval}
               case Failed => s in {Running, AwaitingApproval, Blocked, BudgetPaused, Interrupted}
               case Skipped => false
               case Cancelled => s in {Pending, Running, AwaitingApproval, Blocked, BudgetPaused, Interrupted, Failed}
               case Interrupted => s in {Running, BudgetPaused}
               case Uncertain => s == Running
  {
    var k := IndexOf(run.stages, id).value;
    assert StageSound(run.stages[i]);
    UpdateTouchesOneStage(env, run, id, u, k);
    UpdatesNeverSkipOrDecide(env, run, id, u, i);
    var s := run.stages[k];
    if k == i && !(u.expectedStatus.Some? && s.status != u.expectedStatus.value) && !s.status.Uncertain? {
      var status := Effective(s, if u.status.Some? then u.status.value else s.status);
      ProceedSurroundings(env, run, k, status, u);
      ProceedEdge(env, run, k, status, u);
      hide Proceed, Guard;
    }
  }

  lemma ProceedCompletesGate(env: Env, run: RunRecord, i: nat, u: Update)
    requires i < |run.stages| && Proceed(env, run, i, Completed, u).Ok? && run.stages[i].kind.TruthGate?
    ensures var after := Proceed(env, run, i, Completed, u).value;
            && u.gateReceipt.Some? && after.stages[i].gateReceipt == u.gateReceipt
            && u.gateReceipt.value.observed && u.gateReceipt.value.workspaceDigest == Some(after.checkpoint)
            && after.stages[i].gateDigest == Some(env.digest(u.gateReceipt.value))
  {
    hide CitesLineage, LineageComplete;
  }

  /** A gate that completes carries the receipt it was given, which the verifier accepts and whose workspace becomes the run's. */
  lemma GateCompletesWithItsReceipt(env: Env, run: RunRecord, id: Id, u: Update, i: nat)
    requires RunOk(env, run) && i < |run.stages| && UpdateStage(env, run, id, u).Ok?
    requires run.stages[i].kind.TruthGate? && !run.stages[i].status.Completed?
    ensures var after := UpdateStage(env, run, id, u).value;
            && i < |after.stages|
            && (after.stages[i].status.Completed? ==>
                  && u.gateReceipt.Some? && env.gateVerified(u.gateReceipt.value)
                  && after.stages[i].gateReceipt == u.gateReceipt
                  && u.gateReceipt.value.observed && u.gateReceipt.value.workspaceDigest == Some(after.checkpoint))
  {
    var k := IndexOf(run.stages, id).value;
    UpdateTouchesOneStage(env, run, id, u, k);
    var s := run.stages[k];
    if k == i && !(u.expectedStatus.Some? && s.status != u.expectedStatus.value) {
      var status := Effective(s, if u.status.Some? then u.status.value else s.status);
      ProceedSurroundings(env, run, k, status, u);
      if status.Completed? { ProceedCompletesGate(env, run, k, u); }
      hide Proceed;
    }
  }

  // ---------------------------------------------------------------- the workspace checkpoint

  lemma ProceedCheckpoint(env: Env, run: RunRecord, i: nat, status: StageStatus, u: Update)
    requires i < |run.stages| && Proceed(env, run, i, status, u).Ok?
    requires !(status.Completed? && (run.stages[i].kind.TruthGate? || (IsWrite(run.stages[i]) && run.stages[i].status.Running?)))
    ensures Proceed(env, run, i, status, u).value.checkpoint == run.checkpoint
  {
  }

  /** The workspace on record moves only when a running write or a gate is completed, or a resume settles a write. */
  lemma CheckpointMovesOnlyBy(env: Env, run: RunRecord, op: Op)
    requires RunOk(env, run) && After(env, run, op).checkpoint != run.checkpoint
    ensures op.DoUpdate? || op.DoResume?
    ensures op.DoUpdate? ==>
              exists i :: 0 <= i < |run.stages| && run.stages[i].id == op.stage && op.update.status in {None, Some(Completed)}
                && (run.stages[i].kind.TruthGate? || (IsWrite(run.stages[i]) && run.stages[i].status.Running?))
  {
    if op.DoUpdate? {
      var i, u := IndexOf(run.stages, op.stage).value, op.update;
      var s := run.stages[i];
      var status := Effective(s, if u.status.Some? then u.status.value else s.status);
      if !(status.Completed? && (s.kind.TruthGate? || (IsWrite(s) && s.status.Running?))) {
        ProceedCheckpoint(env, run, i, status, u);
      }
      hide Proceed;
    }
  }

  // ---------------------------------------------------------------- what no update does

  /** No update skips a stage, and none moves an approval stage. */
  lemma UpdatesNeverSkipOrDecide(env: Env, run: RunRecord, id: Id, u: Update, i: nat)
    requires i < |run.stages| && UpdateStage(env, run, id, u).Ok?
    ensures var s, after := run.stages[i], UpdateStage(env, run, id, u).value;
            && i < |after.stages|
            && (after.stages[i].status.Skipped? ==> s.status.Skipped?)
            && (s.kind.Approval? ==> after.stages[i].status == s.status)
  {
    var k := IndexOf(run.stages, id).value;
    UpdateTouchesOneStage(env, run, id, u, k);
    var s := run.stages[k];
    if k == i && !(u.expectedStatus.Some? && s.status != u.expectedStatus.value) {
      ProceedSurroundings(env, run, k, Effective(s, if u.status.Some? then u.status.value else s.status), u);
      hide Proceed;
    }
  }

  /** An update that would touch the retry limit changes nothing: it throws, or finds another status than it expected. */
  lemma RetryLimitIsNotUpdated(env: Env, run: RunRecord, id: Id, u: Update)
    requires u.touchesRetry
    ensures UpdateStage(env, run, id, u).Ok? ==> UpdateStage(env, run, id, u).value == run
    ensures run.status.Active? && u.expectedStatus.None? && u.expectedClaim.None? && IndexOf(run.stages, id).Some? ==>
              UpdateStage(env, run, id, u) == Err(RetryImmutable)
  {
    hide Proceed;
  }

  lemma ProceedSettles(env: Env, run: RunRecord, i: nat, status: StageStatus, u: Update)
    requires i < |run.stages| && Proceed(env, run, i, status, u).Ok? && StageSound(run.stages[i])
    requires run.stages[i].status.Uncertain? && !status.Uncertain?
    ensures var t := Proceed(env, run, i, status, u).value.stages[i];
            && u.marker.Some? && u.marker.value.outcome.Some?
            && (status.Completed? ==> u.marker.value.outcome.value.Applied?)
            && (status.Failed? ==> u.marker.value.outcome.value.Abandoned?)
            && (status.Running? ==> u.marker.value.outcome.value.Retry?)
            && (u.marker.value.outcome.value.Applied? ==> t.receipt == u.marker && t.receiptDigest == Some(env.digest(u.marker.value)))
            && !t.uncertain
  {
    hide CitesLineage, LineageComplete;
  }

  /** An update that settles an uncertain stage follows its marker: completed means applied, failed means abandoned, running means a retry. */
  lemma UpdateFollowsItsMarker(env: Env, run: RunRecord, id: Id, u: Update, i: nat)
    requires RunOk(env, run) && i < |run.stages| && UpdateStage(env, run, id, u).Ok?
    requires run.stages[i].status.Uncertain?
    ensures var after := UpdateStage(env, run, id, u).value;
            i < |after.stages| && (!after.stages[i].status.Uncertain? ==>
              var t := after.stages[i];
              && u.marker.Some? && env.resolutionVerified(u.marker.value) && u.marker.value.outcome.Some?
              && (t.status.Completed? ==> u.marker.value.outcome.value.Applied?)
              && (t.status.Failed? ==> u.marker.value.outcome.value.Abandoned?)
              && (t.status.Running? ==> u.marker.value.outcome.value.Retry?)
              && (u.marker.value.outcome.value.Applied? ==> t.receipt == u.marker && t.receiptDigest == Some(env.digest(u.marker.value))))
  {
    var k := IndexOf(run.stages, id).value;
    assert StageSound(run.stages[i]);
    UpdateTouchesOneStage(env, run, id, u, k);
    UncertainUpdate(env, run, id, u, i);
    var s := run.stages[k];
    if k == i && !(u.expectedStatus.Some? && s.status != u.expectedStatus.value) {
      var status := Effective(s, if u.status.Some? then u.status.value else s.status);
      ProceedSurroundings(env, run, k, status, u);
      if !status.Uncertain? { ProceedSettles(env, run, k, status, u); }
      hide Proceed;
    }
  }

  /** A write that was settled as applied or abandoned, and so is neither running nor uncertain. */
  ghost predicate Settled(s: RunStage) {
    && IsWrite(s) && !s.status.Running? && !s.status.Uncertain? && !s.uncertain
    && s.resolution.Some? && !s.resolution.value.outcome.Retry?
  }

  lemma ProceedKeepsSettled(env: Env, run: RunRecord, i: nat, status: StageStatus, u: Update)
    requires i < |run.stages| && Proceed(env, run, i, status, u).Ok? && Settled(run.stages[i])
    ensures Settled(Proceed(env, run, i, status, u).value.stages[i])
    ensures Proceed(env, run, i, status, u).value.stages[i].resolution == run.stages[i].resolution
  {
    hide CitesLineage, LineageComplete;
  }

  lemma OthersKeepSettled(env: Env, run: RunRecord, op: Op, i: nat)
    requires i < |run.stages| && Settled(run.stages[i]) && !op.DoUpdate? && Step(env, run, op).Ok?
    ensures i < |Step(env, run, op).value.stages| && Settled(Step(env, run, op).value.stages[i])
    ensures Step(env, run, op).value.stages[i].resolution == run.stages[i].resolution
  {
    if op.DoResume? { ResumeAt(env, run, op.markers, i); }
  }

  /** A write that was settled as applied or abandoned keeps its settlement under every call, and so is never run again. */
  lemma SettledWriteNeverRuns(env: Env, run: RunRecord, op: Op, i: nat)
    requires RunOk(env, run) && i < |run.stages| && Settled(run.stages[i])
    ensures |After(env, run, op).stages| == |run.stages| && Settled(After(env, run, op).stages[i])
    ensures After(env, run, op).stages[i].resolution == run.stages[i].resolution
  {
    StepKeepsReceipts(env, run, op);
    if Step(env, run, op).Ok? {
      if op.DoUpdate? {
        var k, u := IndexOf(run.stages, op.stage).value, op.update;
        UpdateTouchesOneStage(env, run, op.stage, u, k);
        var s := run.stages[k];
        if k == i && !(u.expectedStatus.Some? && s.status != u.expectedStatus.value) {
          ProceedKeepsSettled(env, run, k, Effective(s, if u.status.Some? then u.status.value else s.status), u);
          hide Proceed;
        }
      } else {
        OthersKeepSettled(env, run, op, i);
      }
    }
  }

  /** So it is never run again in the rest of any history. */
  lemma {:induction false} SettledForGood(env: Env, runs: seq<RunRecord>, ops: seq<Op>, j: nat, k: nat, i: nat)
    requires StoreHistory(env, runs, ops) && j <= k < |runs| && i < |runs[j].stages| && Settled(runs[j].stages[i])
    ensures i < |runs[k].stages| && Settled(runs[k].stages[i]) && runs[k].stages[i].resolution == runs[j].stages[i].resolution
    decreases k
  {
    if j < k {
      CallKeepsSettled(env, runs, ops, k - 1, i);
      hide StoreHistory, Settled;
      SettledForGood(env, runs, ops, j, k - 1, i);
    }
  }

  lemma CallKeepsSettled(env: Env, runs: seq<RunRecord>, ops: seq<Op>, k: nat, i: nat)
    requires StoreHistory(env, runs, ops) && k < |ops|
    ensures |runs| == |ops| + 1
    ensures i < |runs[k].stages| && Settled(runs[k].stages[i]) ==>
              i < |runs[k + 1].stages| && Settled(runs[k + 1].stages[i]) && runs[k + 1].stages[i].resolution == runs[k].stages[i].resolution
  {
    StoreReached(env, runs, ops, k);
    hide After, RunOk, Settled;
    if i < |runs[k].stages| && Settled(runs[k].stages[i]) { SettledWriteNeverRuns(env, runs[k], ops[k], i); }
  }

  // ---------------------------------------------------------------- decisions

  /** What a decision does: its stage shows it, its record is appended, and nothing else moves. */
  lemma DecisionShows(env: Env, run: RunRecord, id: string, stageId: Id, d: Decision)
    requires RecordApproval(run, id, stageId, d).Ok? && RecordApproval(run, id, stageId, d).value != run
    ensures var after := RecordApproval(run, id, stageId, d).value;
            exists i :: 0 <= i < |run.stages| && run.stages[i].id == stageId && run.stages[i].kind.Approval?
              && OnlyAt(run.stages, after.stages, i)
              && (after.stages[i].status.Completed? <==> d.Approved?)
              && (after.stages[i].status.Failed? <==> d.Rejected?)
              && (after.stages[i].status.Cancelled? <==> d.Withdrawn? || d.Expired?)
              && (after.stages[i].status.AwaitingApproval? <==> d.Requested?)
              && after.stages[i].attempts >= 1 && (d.Requested? ==> after.stages[i].attempts == run.stages[i].attempts + 1)
              && after.approvals == run.approvals + [ApprovalRecord(id, stageId, d)]
              && after == run.(stages := after.stages, approvals := after.approvals)
  {
    var i := IndexOf(run.stages, stageId).value;
    assert OnlyAt(run.stages, RecordApproval(run, id, stageId, d).value.stages, i);
  }

  ghost predicate Says(approvals: seq<ApprovalRecord>, id: Id, d: Decision) {
    exists a :: a in approvals && a.stageId == id && a.status == d
  }

  ghost predicate Asked(approvals: seq<ApprovalRecord>, id: Id) {
    exists a :: a in approvals && a.stageId == id
  }

  /** The status of an approval stage says exactly what is on record about it. */
  ghost predicate Tells(approvals: seq<ApprovalRecord>, s: RunStage) {
    && (s.status.Completed? <==> Says(approvals, s.id, Approved))
    && (s.status.Failed? <==> Says(approvals, s.id, Rejected))
    && (s.status.Cancelled? <==> Says(approvals, s.id, Withdrawn) || Says(approvals, s.id, Expired))
    && (s.status.Pending? <==> !Asked(approvals, s.id))
    && s.status in {Pending, AwaitingApproval, Completed, Failed, Cancelled}
  }

  ghost predicate RecordsTell(run: RunRecord) {
    && (forall i :: 0 <= i < |run.stages| && run.stages[i].kind.Approval? ==> Tells(run.approvals, run.stages[i]))
    && (forall a :: a in run.approvals ==> exists i :: 0 <= i < |run.stages| && run.stages[i].id == a.stageId && run.stages[i].kind.Approval?)
  }

  lemma OthersKeepApprovals(env: Env, run: RunRecord, op: Op, i: nat)
    requires RunOk(env, run) && i < |run.stages| && run.stages[i].kind.Approval? && !op.DoApproval? && Step(env, run, op).Ok?
    requires run.stages[i].status in {Pending, AwaitingApproval, Completed, Failed, Cancelled}
    ensures i < |Step(env, run, op).value.stages| && Step(env, run, op).value.stages[i].status == run.stages[i].status
  {
    assert StageSound(run.stages[i]);
    if op.DoUpdate? {
      UpdatesNeverSkipOrDecide(env, run, op.stage, op.update, i);
    } else if op.DoResume? {
      ResumeAt(env, run, op.markers, i);
    }
  }

  lemma MoreRecords(approvals: seq<ApprovalRecord>, a: ApprovalRecord, id: Id, d: Decision)
    ensures Says(approvals + [a], id, d) <==> Says(approvals, id, d) || (a.stageId == id && a.status == d)
    ensures Asked(approvals + [a], id) <==> Asked(approvals, id) || a.stageId == id
  {
    var more := approvals + [a];
    assert a in more;
    if Says(approvals, id, d) {
      var b :| b in approvals && b.stageId == id && b.status == d;
      assert b in more;
    }
    if Asked(approvals, id) {
      var b :| b in approvals && b.stageId == id;
      assert b in more;
    }
  }

  lemma DecidedStageTells(run: RunRecord, i: nat, d: Decision, id: string)
    requires i < |run.stages| && Tells(run.approvals, run.stages[i])
    requires run.stages[i].status.Pending? || (run.stages[i].status.AwaitingApproval? && !d.Requested?)
    ensures Tells(run.approvals + [ApprovalRecord(id, run.stages[i].id, d)], AfterDecision(run.stages[i], d))
  {
    var a, s := ApprovalRecord(id, run.stages[i].id, d), run.stages[i];
    MoreRecords(run.approvals, a, s.id, Approved);
    MoreRecords(run.approvals, a, s.id, Rejected);
    MoreRecords(run.approvals, a, s.id, Withdrawn);
    MoreRecords(run.approvals, a, s.id, Expired);
    hide Says, Asked;
  }

  lemma OtherStageTells(approvals: seq<ApprovalRecord>, a: ApprovalRecord, s: RunStage)
    requires Tells(approvals, s) && a.stageId != s.id
    ensures Tells(approvals + [a], s)
  {
    MoreRecords(approvals, a, s.id, Approved);
    MoreRecords(approvals, a, s.id, Rejected);
    MoreRecords(approvals, a, s.id, Withdrawn);
    MoreRecords(approvals, a, s.id, Expired);
    hide Says, Asked;
  }

  lemma DecisionKeepsRecordsTelling(env: Env, run: RunRecord, id: string, stageId: Id, d: Decision)
    requires RunOk(env, run) && RecordsTell(run) && RecordApproval(run, id, stageId, d).Ok?
    ensures RecordsTell(RecordApproval(run, id, stageId, d).value)
  {
    var after := RecordApproval(run, id, stageId, d).value;
    if after != run {
      var i := IndexOf(run.stages, stageId).value;
      var a := ApprovalRecord(id, stageId, d);
      assert after.stages == run.stages[i := AfterDecision(run.stages[i], d)] && after.approvals == run.approvals + [a];
      forall k | 0 <= k < |after.stages| && after.stages[k].kind.Approval? ensures Tells(after.approvals, after.stages[k]) {
        assert Tells(run.approvals, run.stages[k]);
        if k == i {
          DecidedStageTells(run, i, d, id);
        } else {
          IndexIs(run.stages, k);
          OtherStageTells(run.approvals, a, run.stages[k]);
        }
      }
      hide Tells, RunOk, RecordApproval;
      forall b | b in after.approvals ensures exists k :: 0 <= k < |after.stages| && after.stages[k].id == b.stageId && after.stages[k].kind.Approval? {
        if b == a {
          assert after.stages[i].id == b.stageId;
        } else {
          var k :| 0 <= k < |run.stages| && run.stages[k].id == b.stageId && run.stages[k].kind.Approval?;
          assert after.stages[k].id == b.stageId && after.stages[k].kind.Approval?;
        }
      }
    }
  }

  lemma StepKeepsRecordsTelling(env: Env, run: RunRecord, op: Op)
    requires RunOk(env, run) && RecordsTell(run)
    ensures RecordsTell(After(env, run, op))
  {
    if Step(env, run, op).Ok? {
      if op.DoApproval? {
        DecisionKeepsRecordsTelling(env, run, op.id, op.stage, op.decision);
      } else {
        OnlyDecisionsDecide(env, run, op);
        StepKeepsReceipts(env, run, op);
        var after := After(env, run, op);
        forall i | 0 <= i < |run.stages| ensures after.stages[i].id == run.stages[i].id && after.stages[i].kind == run.stages[i].kind {
          assert Kept(run.stages[i], after.stages[i]);
        }
        forall i | 0 <= i < |run.stages| && run.stages[i].kind.Approval? ensures Tells(after.approvals, after.stages[i]) {
          assert Tells(run.approvals, run.stages[i]);
          OthersKeepApprovals(env, run, op, i);
        }
        hide After, Step, Tells, RunOk;
        forall a | a in after.approvals ensures exists k :: 0 <= k < |after.stages| && after.stages[k].id == a.stageId && after.stages[k].kind.Approval? {
          var k :| 0 <= k < |run.stages| && run.stages[k].id == a.stageId && run.stages[k].kind.Approval?;
          assert after.stages[k].id == a.stageId;
        }
      }
    }
  }

  /**
   * A decision is taken exactly when it is on record already, or there is room
   * for it, the run is live and not stopped, its stage is an approval whose
   * dependencies are completed, and that stage is pending or waits for it.
   */
  lemma DecisionTakenExactlyWhen(env: Env, run: RunRecord, id: string, i: nat, d: Decision)
    requires RunOk(env, run) && RecordsTell(run) && i < |run.stages|
    ensures RecordApproval(run, id, run.stages[i].id, d).Ok? <==>
              || (exists a :: a in run.approvals && a.id == id && a.status == d)
              || (&& |run.approvals| < MAX_APPROVALS && run.status in {Active, Paused, AwaitingDecision}
                  && run.stages[i].kind.Approval? && (forall x :: x in run.stages[i].dependsOn ==> CompletedAt(run.stages, x))
                  && (run.stages[i].status.Pending? || (run.stages[i].status.AwaitingApproval? && !d.Requested?)))
  {
    var s := run.stages[i];
    IndexIs(run.stages, i);
    if s.kind.Approval? {
      assert Tells(run.approvals, s);
      OpenIsUndecided(run, s);
    }
    hide RunOk, RecordsTell, Tells;
  }

  lemma OpenIsUndecided(run: RunRecord, s: RunStage)
    requires Tells(run.approvals, s)
    ensures s.status.Pending? || s.status.AwaitingApproval? ==> !Decided(run, s.id)
    ensures s.status.Pending? ==> !Asked(run.approvals, s.id)
  {
    if a :| a in run.approvals && a.stageId == s.id && !a.status.Requested? {
      match a.status {
        case Approved => assert Says(run.approvals, s.id, Approved);
        case Rejected => assert Says(run.approvals, s.id, Rejected);
        case Withdrawn => assert Says(run.approvals, s.id, Withdrawn);
        case Expired => assert Says(run.approvals, s.id, Expired);
        case Requested =>
      }
    }
  }

  /**
   * In every state of every history of store calls, an approval stage is
   * completed exactly when an approval of it is on record, failed exactly when a
   * rejection is, cancelled exactly when a withdrawal or an expiry is, and
   * pending exactly when nothing is.
   */
  lemma {:induction false} ApprovalsAreWhatIsRecorded(env: Env, runs: seq<RunRecord>, ops: seq<Op>, k: nat)
    requires StoreHistory(env, runs, ops) && k < |runs|
    ensures RecordsTell(runs[k])
    decreases k
  {
    if k == 0 {
      forall i | 0 <= i < |runs[0].stages| ensures Tells(runs[0].approvals, runs[0].stages[i]) {
        assert FreshStage(runs[0].stages, runs[0].stages[i]);
      }
    } else {
      CallKeepsRecords(env, runs, ops, k - 1);
      hide StoreHistory, RecordsTell;
      ApprovalsAreWhatIsRecorded(env, runs, ops, k - 1);
    }
  }

  lemma CallKeepsRecords(env: Env, runs: seq<RunRecord>, ops: seq<Op>, k: nat)
    requires StoreHistory(env, runs, ops) && k < |ops|
    ensures |runs| == |ops| + 1 && (RecordsTell(runs[k]) ==> RecordsTell(runs[k + 1]))
  {
    StoreReached(env, runs, ops, k);
    hide After, RunOk, RecordsTell;
    if RecordsTell(runs[k]) { StepKeepsRecordsTelling(env, runs[k], ops[k]); }
  }

  // ---------------------------------------------------------------- artifacts and sessions

  /** An attached session is there afterwards, once, behind those that were there. */
  lemma AttachAppends(run: RunRecord, id: string)
    ensures var after := AttachSession(run, id).value;
            && AttachSession(run, id).Ok? && id in after.sessions && run.sessions <= after.sessions
            && after == run.(sessions := after.sessions)
            && |after.sessions| == |run.sessions| + if id in run.sessions then 0 else 1
  {
    assert (run.sessions + [id])[|run.sessions|] == id;
  }

  /** Each kind of stage has its own kind of artifact. */
  ghost predicate KindFits(s: RunStage, a: Artifact) {
    && (s.kind.Department? ==> a.kind.DepartmentArtifact?)
    && (!s.kind.Department? && IsWrite(s) ==> a.kind.ActionArtifact?)
    && (s.kind.TruthGate? && !IsWrite(s) ==> a.kind.VerificationArtifact?)
  }

  /** A recorded artifact is valid, new, of its stage's kind, and listed with that stage and nowhere else. */
  lemma ArtifactIsListed(env: Env, run: RunRecord, a: Artifact)
    requires RecordArtifact(env, run, a).Ok?
    ensures var after := RecordArtifact(env, run, a).value;
            && |run.artifacts| < MAX_ARTIFACTS && env.envelopeOk(a) && !HasArtifact(run, a.id)
            && after.artifacts == run.artifacts + [a]
            && after == run.(stages := after.stages, artifacts := after.artifacts)
            && exists i :: 0 <= i < |run.stages| && run.stages[i].id == a.stageId && KindFits(run.stages[i], a)
                 && OnlyAt(run.stages, after.stages, i)
                 && after.stages[i] == run.stages[i].(artifactIds := run.stages[i].artifactIds + [a.id])
  {
    var i := IndexOf(run.stages, a.stageId).value;
    assert OnlyAt(run.stages, RecordArtifact(env, run, a).value.stages, i);
  }

  ghost predicate KindsFit(run: RunRecord) {
    forall i, a :: 0 <= i < |run.stages| && a in run.artifacts && a.stageId == run.stages[i].id ==> KindFits(run.stages[i], a)
  }

  lemma NewArtifact(env: Env, run: RunRecord, op: Op, a: Artifact)
    requires RunOk(env, run) && Step(env, run, op).Ok? && a in Step(env, run, op).value.artifacts && a !in run.artifacts
    ensures var k := IndexOf(run.stages, a.stageId); k.Some? && KindFits(run.stages[k.value], a)
  {
    if op.DoUpdate? { UpdateTouchesOneStage(env, run, op.stage, op.update, IndexOf(run.stages, op.stage).value); }
  }

  lemma StepKeepsKinds(env: Env, run: RunRecord, op: Op)
    requires RunOk(env, run) && KindsFit(run)
    ensures KindsFit(After(env, run, op))
  {
    var after := After(env, run, op);
    StepKeepsReceipts(env, run, op);
    forall i, a | 0 <= i < |after.stages| && a in after.artifacts && a.stageId == after.stages[i].id ensures KindFits(after.stages[i], a) {
      assert Kept(run.stages[i], after.stages[i]);
      if a !in run.artifacts {
        NewArtifact(env, run, op, a);
        IndexIs(run.stages, i);
      }
    }
  }

  /** In every history of store calls, every artifact is of the kind its stage produces. */
  lemma {:induction false} ArtifactsFitTheirStages(env: Env, runs: seq<RunRecord>, ops: seq<Op>, k: nat)
    requires StoreHistory(env, runs, ops) && k < |runs|
    ensures KindsFit(runs[k])
    decreases k
  {
    if k > 0 {
      CallKeepsKinds(env, runs, ops, k - 1);
      hide StoreHistory, KindsFit;
      ArtifactsFitTheirStages(env, runs, ops, k - 1);
    }
  }

  lemma CallKeepsKinds(env: Env, runs: seq<RunRecord>, ops: seq<Op>, k: nat)
    requires StoreHistory(env, runs, ops) && k < |ops|
    ensures |runs| == |ops| + 1 && (KindsFit(runs[k]) ==> KindsFit(runs[k + 1]))
  {
    StoreReached(env, runs, ops, k);
    hide After, RunOk, KindsFit;
    if KindsFit(runs[k]) { StepKeepsKinds(env, runs[k], ops[k]); }
  }

  // ---------------------------------------------------------------- reports

  /** An accepted failure report fails its running department, charges the usage in the same step, and moves nothing else. */
  lemma DepartmentFails(run: RunRecord, id: Id, usage: Charge, c: Option<ClaimId>)
    requires FailDepartment(run, id, usage, c).Ok?
    ensures var after := FailDepartment(run, id, usage, c).value;
            && Delta(run.budget, usage) == Ok(after.budget)
            && exists i :: 0 <= i < |run.stages| && run.stages[i].id == id
                 && run.stages[i].kind.Department? && run.stages[i].status.Running? && (c.Some? ==> run.stages[i].claim == c)
                 && after == run.(budget := after.budget, stages := run.stages[i := run.stages[i].(status := Failed)])
  {
    var i := DepartmentAt(run, id, c).value;
    hide Delta;
    assert FailDepartment(run, id, usage, c).value.stages == run.stages[i := run.stages[i].(status := Failed)];
  }

  /** An accepted completion gives its running department one artifact, charges the usage in the same step, and moves nothing else. */
  lemma DepartmentCompletes(env: Env, run: RunRecord, id: Id, a: Artifact, usage: Option<Charge>, c: Option<ClaimId>)
    requires CompleteDepartment(env, run, id, a, usage, c).Ok?
    ensures var after := CompleteDepartment(env, run, id, a, usage, c).value;
            && a.kind.DepartmentArtifact? && after.artifacts == run.artifacts + [a]
            && (if usage.Some? then Delta(run.budget, usage.value) == Ok(after.budget) else after.budget == run.budget)
            && exists i :: 0 <= i < |run.stages| && run.stages[i].id == id
                 && run.stages[i].kind.Department? && run.stages[i].status.Running? && (c.Some? ==> run.stages[i].claim == c)
                 && after == run.(budget := after.budget, artifacts := after.artifacts,
                                  stages := run.stages[i := run.stages[i].(status := Completed, artifactIds := [a.id])])
  {
    var i := DepartmentAt(run, id, c).value;
    hide Delta;
    assert run.stages[i].artifactIds + [a.id] == [a.id];
    assert CompleteDepartment(env, run, id, a, usage, c).value.stages == run.stages[i := run.stages[i].(status := Completed, artifactIds := [a.id])];
  }

  /** Exactly when the completion of a department by its claimant is accepted. */
  lemma DepartmentCompletesExactlyWhen(env: Env, run: RunRecord, i: nat, a: Artifact, usage: Charge, c: ClaimId)
    requires RunOk(env, run) && i < |run.stages| && run.status.Active?
    requires run.stages[i].kind.Department? && run.stages[i].status.Running? && run.stages[i].claim == Some(c)
    ensures CompleteDepartment(env, run, run.stages[i].id, a, Some(usage), Some(c)).Ok? <==>
              && run.stages[i].artifactIds == [] && |run.artifacts| < MAX_ARTIFACTS
              && env.envelopeOk(a) && a.stageId == run.stages[i].id && a.kind.DepartmentArtifact?
              && (forall b :: b in run.artifacts ==> b.id != a.id)
              && Delta(run.budget, usage).Ok?
  {
    IndexIs(run.stages, i);
  }

  /** Exactly when the completion of an action by its claimant is accepted: a verified receipt for the workspace it started from. */
  lemma ActionCompletesExactlyWhen(env: Env, run: RunRecord, i: nat, r: Receipt, c: ClaimId)
    requires Disciplined(env, run) && i < |run.stages| && run.status.Active?
    requires run.stages[i].kind.Action? && run.stages[i].status.Running? && run.stages[i].claim == Some(c)
    ensures UpdateStage(env, run, run.stages[i].id, CompleteUpdate(c, Some(r), None)).Ok? <==> FitsStart(env, run.stages[i], r)
  {
    IndexIs(run.stages, i);
    assert StageSound(run.stages[i]) && StageDisciplined(run.stages[i]);
    hide CitesLineage, LineageComplete;
  }

  /** Exactly when the completion of a gate by its claimant is accepted: a verified receipt that cites exactly the writes above it. */
  lemma GateCompletesExactlyWhen(env: Env, run: RunRecord, i: nat, r: Receipt, c: ClaimId)
    requires Disciplined(env, run) && i < |run.stages| && run.status.Active?
    requires run.stages[i].kind.TruthGate? && run.stages[i].status.Running? && run.stages[i].claim == Some(c)
    ensures UpdateStage(env, run, run.stages[i].id, CompleteUpdate(c, None, Some(r))).Ok? <==>
              && env.gateVerified(r) && r.observed && r.workspaceDigest.Some? && CitesOk(r.cites)
              && LineageDigests(run.stages, run.stages[i]) == set d | d in r.cites.value
  {
    IndexIs(run.stages, i);
    assert StageSound(run.stages[i]) && StageDisciplined(run.stages[i]);
    ClaimedGateHasLineage(env, run, i);
    var moved := run.stages[i].(status := Completed);
    var run1 := WithStage(run, i, moved);
    SameLineage(run.stages, run1.stages, run.stages[i], i);
  }

  /** A status does not count in a lineage. */
  lemma SameLineage(stages: seq<RunStage>, after: seq<RunStage>, s: RunStage, i: nat)
    requires DistinctStages(stages) && i < |stages| && after == stages[i := stages[i].(status := Completed)]
    ensures LineageComplete(after, s) <==> LineageComplete(stages, s)
    ensures LineageDigests(after, s) == LineageDigests(stages, s)
  {
    SameTable(stages, after);
    forall id ensures Upstream(after, s, id) == Upstream(stages, s, id) { }
    forall id ensures IndexOf(after, id) == IndexOf(stages, id) { SameIndex(stages, after, id); }
    forall k | 0 <= k < |stages| ensures after[k].receiptDigest == stages[k].receiptDigest && IsWrite(after[k]) == IsWrite(stages[k]) { }
    var a, b := LineageDigests(stages, s), LineageDigests(after, s);
    forall d | d in a ensures d in b {
      var c :| c in stages && IsWrite(c) && c.receiptDigest.Some? && Upstream(stages, s, c.id) && c.receiptDigest.value == d;
      var k :| 0 <= k < |stages| && stages[k] == c;
      assert after[k] in after;
    }
    forall d | d in b ensures d in a {
      var c :| c in after && IsWrite(c) && c.receiptDigest.Some? && Upstream(after, s, c.id) && c.receiptDigest.value == d;
      var k :| 0 <= k < |after| && after[k] == c;
      assert stages[k] in stages;
    }
    assert a == b;
  }
}
