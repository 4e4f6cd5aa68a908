/**
 * What the run-level calls mean to a caller: when a run may end, what a stop
 * and a resume leave, and that a decision once recorded is final.
 */
module RunLifecycle {
  import opened Common
  import opened PG = PipelineGraph
  import opened RunBudget
  import opened RunState
  import opened RunValidity
  import opened RunCoordination
  import opened RunGuarantees

  // ---------------------------------------------------------------- ending a run

  lemma CompletedIsResolved(env: Env, run: RunRecord, s: RunStage)
    requires RunOk(env, run) && s in run.stages && s.status.Completed?
    ensures !WriteUnresolved(s)
  {
    var k :| 0 <= k < |run.stages| && run.stages[k] == s;
    assert StageSound(run.stages[k]);
  }

  /** A run can be completed exactly when it is active and every stage is completed with its durable evidence. */
  lemma CompletesExactlyWhen(env: Env, run: RunRecord)
    requires RunOk(env, run) && !run.status.CompletedRun?
    ensures Transition(run, CompletedRun).Ok? <==>
              run.status.Active? && forall s :: s in run.stages ==> s.status.Completed? && DurableCompletion(s)
  {
    forall s | s in run.stages && s.status.Completed? ensures !WriteUnresolved(s) {
      CompletedIsResolved(env, run, s);
    }
    hide RunOk;
  }

  /** A run can be failed exactly from the states that were started and not paused by the user, with nothing running and no write uncertain. */
  lemma FailsExactlyWhen(env: Env, run: RunRecord)
    requires RunOk(env, run) && !run.status.FailedRun?
    ensures Transition(run, FailedRun).Ok? <==>
              && run.status in {Active, BudgetPausedRun, AwaitingDecision, BlockedRun, InterruptedRun}
              && forall s :: s in run.stages ==> !s.status.Running? && !(IsWrite(s) && s.status.Uncertain?)
  {
    forall s | s in run.stages ensures WriteUnresolved(s) <==> IsWrite(s) && (s.status.Running? || s.status.Uncertain?) {
      var k :| 0 <= k < |run.stages| && run.stages[k] == s;
      assert StageSound(run.stages[k]);
    }
    hide RunOk;
  }

  /** The moves between live statuses, and the way out by cancelling, that a transition accepts. */
  lemma MovesExactlyWhen(env: Env, run: RunRecord, to: RunStatus)
    requires RunOk(env, run) && to != run.status && !to.CompletedRun? && !to.FailedRun?
    ensures Transition(run, to).Ok? <==>
              || (to.Active? && run.status in {Queued, Paused, AwaitingDecision, BlockedRun, InterruptedRun})
              || (run.status.Active? && to in {Paused, BudgetPausedRun, AwaitingDecision, BlockedRun, InterruptedRun})
              || (run.status.AwaitingDecision? && to in {BlockedRun, InterruptedRun})
              || (run.status.BlockedRun? && to.InterruptedRun?)
              || (to.CancelledRun? && !Terminal(run.status)
                  && forall s :: s in run.stages ==> !s.status.Running? && !(IsWrite(s) && s.status.Uncertain?))
    ensures Transition(run, to).Ok? ==> Transition(run, to).value == run.(status := to)
  {
    forall s | s in run.stages ensures WriteUnresolved(s) <==> IsWrite(s) && (s.status.Running? || s.status.Uncertain?) {
      var k :| 0 <= k < |run.stages| && run.stages[k] == s;
      assert StageSound(run.stages[k]);
    }
    hide RunOk;
  }

  /** Which calls move the status of the run, and where to; a terminal one is never left. */
  lemma StatusMovesOnlyBy(env: Env, run: RunRecord, op: Op)
    requires After(env, run, op).status != run.status
    ensures !Terminal(run.status)
    ensures || (op.DoTransition? && After(env, run, op).status == op.to)
            || (op.DoCancel? && After(env, run, op).status in {CancelledRun, InterruptedRun})
            || (op.DoRecover? && After(env, run, op).status == InterruptedRun)
            || (op.DoResume? && After(env, run, op).status == Active && run.status in {Paused, InterruptedRun, BlockedRun})
  {
    hide CitesLineage, LineageComplete;
  }

  // ---------------------------------------------------------------- stopping and resuming

  ghost predicate NothingRuns(stages: seq<RunStage>) {
    forall i :: 0 <= i < |stages| ==> !stages[i].status.Running?
  }

  lemma StopAllTwice(stages: seq<RunStage>)
    ensures NothingRuns(StopAll(stages)) && StopAll(StopAll(stages)) == StopAll(stages)
    ensures NothingRuns(stages) ==> StopAll(stages) == stages
  {
  }

  lemma StoppedUnresolved(stages: seq<RunStage>)
    requires exists s :: s in stages && WriteUnresolved(s)
    ensures exists s :: s in StopAll(stages) && WriteUnresolved(s)
  {
    var s :| s in stages && WriteUnresolved(s);
    var k :| 0 <= k < |stages| && stages[k] == s;
    assert StopAll(stages)[k] in StopAll(stages) && WriteUnresolved(StopAll(stages)[k]);
  }

  /**
   * A cancelled run has nothing running and no unresolved write; with an
   * unresolved write the run is left interrupted instead, and stays so however
   * often it is cancelled.
   */
  lemma CancelStops(env: Env, run: RunRecord)
    requires RunOk(env, run) && Cancel(run).Ok?
    ensures var after := Cancel(run).value;
            && NothingRuns(after.stages)
            && (after.status.CancelledRun? <==> !exists s :: s in run.stages && WriteUnresolved(s))
            && (after.status.CancelledRun? || after.status.InterruptedRun?)
            && Cancel(after) == Ok(after)
  {
    if run.status.CancelledRun? {
      forall s | s in run.stages ensures !WriteUnresolved(s) && !s.status.Running? {
      }
    } else {
      StopAllTwice(run.stages);
      if exists s :: s in run.stages && WriteUnresolved(s) {
        StoppedUnresolved(run.stages);
      }
      hide RunOk, StopStage, WriteUnresolved;
    }
  }

  /** What a stop does: a running write is left uncertain, another running stage interrupted, and nothing else moves. */
  ghost predicate Stopped(s: RunStage, t: RunStage) {
    && (s.status.Running? && IsWrite(s) ==> t == s.(status := Uncertain, uncertain := true))
    && (s.status.Running? && !IsWrite(s) ==> t == s.(status := Interrupted, uncertain := false))
    && (!s.status.Running? ==> t == s)
  }

  /** A live run that was active or had a stage running is interrupted by a restart, every running stage is stopped, and another run is left as it is. */
  lemma RecoverInterrupts(env: Env, run: RunRecord)
    requires RunOk(env, run)
    ensures var after := RecoverInterrupted(run).value;
            var open := !Terminal(run.status) && (run.status.Active? || exists i :: 0 <= i < |run.stages| && run.stages[i].status.Running?);
            && (open ==> after == run.(status := InterruptedRun, stages := after.stages) && |after.stages| == |run.stages|
                         && forall i :: 0 <= i < |run.stages| ==> Stopped(run.stages[i], after.stages[i]))
            && (!open ==> after == run)
  {
    forall k | 0 <= k < |run.stages| ensures run.stages[k] in run.stages && StageSound(run.stages[k]) { }
  }

  lemma CancelInterrupts(env: Env, run: RunRecord)
    requires RunOk(env, run) && !Terminal(run.status)
    ensures Cancel(run).Ok?
    ensures var after := Cancel(run).value;
            && after == run.(status := after.status, stages := after.stages) && |after.stages| == |run.stages|
            && forall i :: 0 <= i < |run.stages| ==> Stopped(run.stages[i], after.stages[i])
  {
    forall k | 0 <= k < |run.stages| ensures StageSound(run.stages[k]) { }
  }

  /** A restart leaves nothing running, and a second restart changes nothing. */
  lemma RecoverStops(env: Env, run: RunRecord)
    requires RunOk(env, run)
    ensures var after := RecoverInterrupted(run).value;
            NothingRuns(after.stages) && !after.status.Active? && RecoverInterrupted(after) == Ok(after)
  {
    if Terminal(run.status) {
      forall k | 0 <= k < |run.stages| ensures !run.stages[k].status.Running? {
        assert run.stages[k] in run.stages;
      }
    } else {
      StopAllTwice(run.stages);
      forall k | 0 <= k < |run.stages| && run.stages[k].status.Running? ensures run.stages[k] in run.stages { }
      hide RunOk, StopStage;
    }
  }

  /** The marker a resume call offers for the stage at `i`: one for the stage, or the single one when no other stage is uncertain. */
  ghost function Offered(run: RunRecord, m: Markers, i: nat): Option<Receipt>
    requires i < |run.stages|
  {
    if run.stages[i].id in m.byStage then Some(m.byStage[run.stages[i].id])
    else if forall k :: 0 <= k < |run.stages| && run.stages[k].status.Uncertain? ==> k == i then m.single
    else None
  }

  /** Where a settled stage goes: an applied write is completed and keeps the marker as its receipt, an abandoned one has failed, a retried one may start once more. */
  ghost predicate SettledAs(env: Env, s: RunStage, t: RunStage, marker: Receipt) {
    && marker.outcome.Some?
    && t.resolution.Some? && t.resolution.value.marker == marker && t.resolution.value.outcome == marker.outcome.value
    && (t.status.Completed? <==> marker.outcome.value.Applied?)
    && (t.status.Failed? <==> marker.outcome.value.Abandoned?)
    && (t.status.Interrupted? <==> marker.outcome.value.Retry?)
    && (marker.outcome.value.Applied? ==> t.receipt == Some(marker) && t.receiptDigest == Some(env.digest(marker)))
    && (!marker.outcome.value.Applied? ==> t.receipt == s.receipt)
    && (marker.outcome.value.Retry? ==> t.resolution.value.retryAuthorized && !t.resolution.value.retryConsumed)
    && t.attempts == s.attempts && t.claim == s.claim && t.id == s.id
  }

  ghost predicate NoOther(stages: seq<RunStage>, i: nat) {
    forall k :: 0 <= k < |stages| && k != i ==> !NeedsResolution(stages[k])
  }

  lemma {:induction false} CountsNone(stages: seq<RunStage>)
    ensures CountUncertain(stages) == 0 <==> NoOther(stages, |stages|)
    decreases |stages|
  {
    if stages != [] {
      var rest := stages[1..];
      CountsNone(rest);
      if NoOther(rest, |rest|) && !NeedsResolution(stages[0]) {
        forall k | 0 <= k < |stages| ensures !NeedsResolution(stages[k]) {
          assert k > 0 ==> stages[k] == rest[k - 1];
        }
      }
      if NoOther(stages, |stages|) {
        forall k | 0 <= k < |rest| ensures !NeedsResolution(rest[k]) {
          assert rest[k] == stages[k + 1];
        }
      }
    }
  }

  lemma {:induction false} CountsOne(stages: seq<RunStage>, i: nat)
    requires i < |stages| && NeedsResolution(stages[i])
    ensures CountUncertain(stages) >= 1
    ensures CountUncertain(stages) == 1 <==> NoOther(stages, i)
    decreases |stages|
  {
    var rest := stages[1..];
    CountsNone(rest);
    if i > 0 { CountsOne(rest, i - 1); }
    hide NeedsResolution;
    if NoOther(stages, i) {
      forall k | 0 <= k < |rest| && k != i - 1 ensures !NeedsResolution(rest[k]) {
        assert rest[k] == stages[k + 1];
      }
    }
    if CountUncertain(stages) == 1 {
      forall k | 0 <= k < |stages| && k != i ensures !NeedsResolution(stages[k]) {
        assert k > 0 ==> stages[k] == rest[k - 1];
      }
    }
  }

  lemma OfferedIsTheMarker(env: Env, run: RunRecord, m: Markers, i: nat)
    requires RunOk(env, run) && i < |run.stages| && run.stages[i].status.Uncertain?
    ensures MarkerFor(m, run.stages[i].id, CountUncertain(Rearmed(run))) == Offered(run, m, i)
  {
    var stages := Rearmed(run);
    forall k | 0 <= k < |stages| ensures NeedsResolution(stages[k]) <==> run.stages[k].status.Uncertain? {
      assert StageSound(run.stages[k]);
    }
    CountsOne(stages, i);
    hide RunOk, NeedsResolution, Rearmed, CountUncertain;
    assert NoOther(stages, i) <==> forall k :: 0 <= k < |run.stages| && run.stages[k].status.Uncertain? ==> k == i;
  }

  lemma SettledAsTheMarkerSays(env: Env, s: RunStage, marker: Receipt)
    requires ApplyResolution(env, s, marker).Ok?
    ensures env.resolutionVerified(marker) && SettledAs(env, s, ApplyResolution(env, s, marker).value, marker)
  {
  }

  /** After a resume every stage that was uncertain went where the marker offered for it says. */
  lemma ResumeFollowsItsMarkers(env: Env, run: RunRecord, m: Markers, i: nat)
    requires RunOk(env, run) && Resume(env, run, m).Ok? && i < |run.stages| && run.stages[i].status.Uncertain?
    ensures Offered(run, m, i).Some? && env.resolutionVerified(Offered(run, m, i).value)
    ensures SettledAs(env, run.stages[i], Resume(env, run, m).value.stages[i], Offered(run, m, i).value)
  {
    ResumeAt(env, run, m, i);
    OfferedIsTheMarker(env, run, m, i);
    assert StageSound(run.stages[i]) && Rearmed(run)[i] == run.stages[i];
    hide Resume, Offered, MarkerFor, RunOk, ApplyResolution, SettledAs;
    SettledAsTheMarkerSays(env, run.stages[i], Offered(run, m, i).value);
  }

  lemma ResumeResolves(env: Env, run: RunRecord, m: Markers, i: nat)
    requires i < |run.stages| && StageSound(run.stages[i]) && Resume(env, run, m).Ok?
    ensures var after := Resume(env, run, m).value;
            && after.status.Active? && !NeedsResolution(after.stages[i])
            && (!run.stages[i].status.Uncertain? ==>
                  after.stages[i] == if run.status.BlockedRun? then Rearm(run.stages[i]) else run.stages[i])
  {
    ResumeAt(env, run, m, i);
    hide ResolveAll, CountUncertain;
  }

  /** Once a resume has gone through, the run is active, nothing is uncertain, and every stage that was uncertain was settled by a marker for it that the verifier accepts. */
  lemma ResumeSettles(env: Env, run: RunRecord, m: Markers, i: nat)
    requires RunOk(env, run) && Resume(env, run, m).Ok? && i < |run.stages|
    ensures var after := Resume(env, run, m).value;
            && after.status.Active? && !NeedsResolution(after.stages[i])
            && (run.stages[i].status.Uncertain? ==>
                  exists marker :: Offers(run, DoResume(m), run.stages[i].id, marker) && SettledBy(env, after.stages[i], marker))
            && (!run.stages[i].status.Uncertain? ==>
                  after.stages[i] == if run.status.BlockedRun? && run.stages[i].status.Blocked? then run.stages[i].(status := Pending) else run.stages[i])
  {
    assert StageSound(run.stages[i]);
    ResumeResolves(env, run, m, i);
    if run.stages[i].status.Uncertain? {
      UncertainResume(env, run, m, i);
    }
    hide Resume, RunOk, Offers, SettledBy;
  }

  // ---------------------------------------------------------------- decisions

  /** No stage was decided twice, or asked for twice. */
  ghost predicate OneDecision(approvals: seq<ApprovalRecord>) {
    forall i, j :: 0 <= i < j < |approvals| && approvals[i].stageId == approvals[j].stageId ==>
      approvals[i].status.Requested? && !approvals[j].status.Requested?
  }

  lemma OnlyDecisionsDecide(env: Env, run: RunRecord, op: Op)
    requires !op.DoApproval?
    ensures After(env, run, op).approvals == run.approvals
  {
    hide CitesLineage, LineageComplete;
  }

  /** Every call keeps what was recorded; a stage is asked for at most once, before it is decided, and decided at most once. */
  lemma DecisionsAreFinal(env: Env, run: RunRecord, op: Op)
    requires OneDecision(run.approvals)
    ensures run.approvals <= After(env, run, op).approvals && OneDecision(After(env, run, op).approvals)
  {
    if op.DoApproval? {
      RecordKeepsDecisions(env, run, op);
    } else {
      OnlyDecisionsDecide(env, run, op);
    }
  }

  lemma RecordKeepsDecisions(env: Env, run: RunRecord, op: Op)
    requires op.DoApproval? && OneDecision(run.approvals)
    ensures run.approvals <= After(env, run, op).approvals && OneDecision(After(env, run, op).approvals)
  {
    var after := After(env, run, op);
    if after.approvals != run.approvals {
      var record := ApprovalRecord(op.id, op.stage, op.decision);
      assert after.approvals == run.approvals + [record];
      forall i | 0 <= i < |run.approvals| && run.approvals[i].stageId == op.stage
        ensures run.approvals[i].status.Requested? && !op.decision.Requested?
      {
        assert run.approvals[i] in run.approvals;
      }
    }
  }
}
