/**
 * Bounded retries over whole histories of store calls, raw stage updates and
 * budget updates included: executions of one stage, and executions in total.
 */
module RunRetries {
  import opened Common
  import opened PG = PipelineGraph
  import opened RunBudget
  import opened RunState
  import opened RunValidity
  import opened RunCoordination
  import opened RunGuarantees

  /** Any calls of the store except the two that leave invalid states. */
  ghost predicate StoreHistory(env: Env, runs: seq<RunRecord>, ops: seq<Op>) {
    && |runs| == |ops| + 1
    && Fresh(runs[0]) && NonNegative(runs[0].budget)
    && forall k {:trigger ops[k]} :: 0 <= k < |ops| ==> !Harmful(runs[k], ops[k]) && runs[k + 1] == After(env, runs[k], ops[k])
  }

  lemma {:induction false} StoreReached(env: Env, runs: seq<RunRecord>, ops: seq<Op>, k: nat)
    requires StoreHistory(env, runs, ops) && k < |runs|
    ensures RunOk(env, runs[k]) && |runs[k].stages| == |runs[0].stages|
    decreases k
  {
    if k == 0 {
      FreshIsDisciplined(env, runs[0]);
    } else {
      StoreReached(env, runs, ops, k - 1);
      StepKeepsReceipts(env, runs[k - 1], ops[k - 1]);
      if Step(env, runs[k - 1], ops[k - 1]).Ok? {
        StepKeeps(env, runs[k - 1], ops[k - 1]);
      }
    }
  }

  // ---------------------------------------------------------------- one call and one stage

  /** One unused authorisation to run a write again after a verified "retry" resolution. */
  function Credit(s: RunStage): nat {
    if s.resolution.Some? && s.resolution.value.outcome.Retry?
       && s.resolution.value.retryAuthorized && !s.resolution.value.retryConsumed then 1 else 0
  }

  /** Whether a stage just left uncertainty through a "retry" resolution. */
  function Granted(s: RunStage, t: RunStage): nat {
    if NeedsResolution(s) && !NeedsResolution(t) && t.resolution.Some? && t.resolution.value.outcome.Retry? then 1 else 0
  }

  /** The stage starts an execution: within its attempts, or on a credit that this start uses up. */
  ghost predicate Executes(s: RunStage, t: RunStage) {
    && t.attempts == s.attempts + 1
    && (s.attempts < MaxAttempts(s) || (Credit(s) + Granted(s, t) >= 1 && Credit(t) == 0))
  }

  ghost predicate AttemptRule(s: RunStage, t: RunStage) {
    && MaxAttempts(t) == MaxAttempts(s)
    && (t.attempts == s.attempts || Executes(s, t))
    && Credit(t) <= Credit(s) + Granted(s, t)
  }

  /** What the budget pays for the executions a call starts. */
  ghost predicate RepairRule(run: RunRecord, after: RunRecord, s: RunStage, t: RunStage) {
    t.attempts > s.attempts > 0 ==> RepairCharge(run.budget) == Ok(after.budget)
  }

  lemma MoveAttempts(env: Env, run: RunRecord, s: RunStage, status: StageStatus, u: Update)
    requires StageSound(s) && Move(env, run, s, status, u).Ok?
    requires status.Uncertain? ==> s.status.Uncertain? || s.status.Running?
    ensures var (t, b) := Move(env, run, s, status, u).value;
            && AttemptRule(s, t)
            && (t.attempts > s.attempts > 0 ==> RepairCharge(run.budget) == Ok(b))
            && (!(t.attempts > s.attempts > 0) ==> b == run.budget)
  {
  }

  /** Attaching receipts changes none of the counters. */
  lemma ProceedCarries(env: Env, run: RunRecord, k: nat, status: StageStatus, u: Update)
    requires k < |run.stages| && Proceed(env, run, k, status, u).Ok?
    ensures Move(env, run, run.stages[k], status, u).Ok?
    ensures var after := Proceed(env, run, k, status, u).value;
            var moved := Move(env, run, run.stages[k], status, u).value;
            && |after.stages| == |run.stages| && after.stages == run.stages[k := after.stages[k]]
            && after.budget == moved.1
            && after.stages[k].attempts == moved.0.attempts && after.stages[k].resolution == moved.0.resolution
            && after.stages[k].status == moved.0.status && after.stages[k].uncertain == moved.0.uncertain
            && after.stages[k].maxAttempts == moved.0.maxAttempts
  {
  }

  lemma StartingOnlyFromRunning(s: RunStage, requested: StageStatus, env: Env, run: RunRecord, u: Update)
    requires StageSound(s) && Move(env, run, s, Effective(s, requested), u).Ok?
    ensures Effective(s, requested).Uncertain? ==> s.status.Uncertain? || s.status.Running?
  {
  }

  /** The effect of a stage update on attempts and on the budget. */
  lemma UpdateRule(env: Env, run: RunRecord, id: Id, u: Update, i: nat)
    requires RunOk(env, run) && UpdateStage(env, run, id, u).Ok? && i < |run.stages|
    ensures var after := UpdateStage(env, run, id, u).value;
            && |after.stages| == |run.stages|
            && AttemptRule(run.stages[i], after.stages[i])
            && RepairRule(run, after, run.stages[i], after.stages[i])
            && (after.budget == run.budget || RepairCharge(run.budget) == Ok(after.budget))
            && (run.stages[i].id != id ==> after.stages[i].attempts == run.stages[i].attempts)
  {
    var k := IndexOf(run.stages, id).value;
    var s := run.stages[k];
    assert StageSound(s);
    if !(u.expectedStatus.Some? && s.status != u.expectedStatus.value) {
      var requested := if u.status.Some? then u.status.value else s.status;
      ProceedCarries(env, run, k, Effective(s, requested), u);
      StartingOnlyFromRunning(s, requested, env, run, u);
      MoveAttempts(env, run, s, Effective(s, requested), u);
    }
  }

  lemma ResumeRule(env: Env, run: RunRecord, m: Markers, i: nat)
    requires RunOk(env, run) && Resume(env, run, m).Ok? && i < |run.stages|
    ensures AttemptRule(run.stages[i], Resume(env, run, m).value.stages[i])
    ensures Resume(env, run, m).value.stages[i].attempts == run.stages[i].attempts
  {
    ResumeAt(env, run, m, i);
    assert StageSound(run.stages[i]);
  }

  lemma OtherRule(env: Env, run: RunRecord, op: Op, i: nat)
    requires RunOk(env, run) && Step(env, run, op).Ok? && !op.DoUpdate? && !op.DoResume?
    requires |Step(env, run, op).value.stages| == |run.stages|
    requires i < |run.stages| && !run.stages[i].kind.Approval?
    ensures AttemptRule(run.stages[i], Step(env, run, op).value.stages[i])
    ensures Step(env, run, op).value.stages[i].attempts == run.stages[i].attempts
  {
    assert StageSound(run.stages[i]);
    if op.DoApproval? {
      DecisionTouchesApprovals(run, op.id, op.stage, op.decision, i);
    } else if op.DoTransition? || op.DoCancel? || op.DoRecover? || op.DoAttach? || op.DoBudget? {
      var after := Step(env, run, op).value;
      assert after.stages == run.stages || after.stages == StopAll(run.stages);
    }
  }

  lemma DecisionTouchesApprovals(run: RunRecord, id: string, stageId: Id, d: Decision, i: nat)
    requires RecordApproval(run, id, stageId, d).Ok? && i < |run.stages| && !run.stages[i].kind.Approval?
    ensures |RecordApproval(run, id, stageId, d).value.stages| == |run.stages|
    ensures RecordApproval(run, id, stageId, d).value.stages[i] == run.stages[i]
  {
  }

  lemma StepRule(env: Env, run: RunRecord, op: Op, i: nat)
    requires RunOk(env, run) && i < |run.stages| && !run.stages[i].kind.Approval?
    ensures var after := After(env, run, op);
            && |after.stages| == |run.stages|
            && AttemptRule(run.stages[i], after.stages[i])
            && RepairRule(run, after, run.stages[i], after.stages[i])
            && (after.stages[i].attempts > run.stages[i].attempts ==> op.DoUpdate? && op.stage == run.stages[i].id)
  {
    StepKeepsReceipts(env, run, op);
    if Step(env, run, op).Ok? {
      if op.DoUpdate? {
        UpdateRule(env, run, op.stage, op.update, i);
      } else if op.DoResume? {
        ResumeRule(env, run, op.markers, i);
      } else {
        OtherRule(env, run, op, i);
      }
    }
  }

  // ---------------------------------------------------------------- one stage over a history

  /** How many verified "retry" resolutions stage `i` received in the first `k` calls. */
  ghost function Retries(runs: seq<RunRecord>, i: nat, k: nat): nat
    requires k < |runs| && forall j :: 0 <= j < |runs| ==> i < |runs[j].stages|
  {
    if k == 0 then 0 else Retries(runs, i, k - 1) + Granted(runs[k - 1].stages[i], runs[k].stages[i])
  }

  /**
   * Executions of one stage never exceed its configured attempts plus the
   * verified "retry" resolutions it received.
   */
  lemma {:induction false} StageExecutionsBounded(env: Env, runs: seq<RunRecord>, ops: seq<Op>, i: nat, k: nat)
    requires StoreHistory(env, runs, ops) && k < |runs|
    requires forall j :: 0 <= j < |runs| ==> i < |runs[j].stages|
    requires !runs[0].stages[i].kind.Approval?
    ensures !runs[k].stages[i].kind.Approval?
    ensures MaxAttempts(runs[k].stages[i]) == MaxAttempts(runs[0].stages[i])
    ensures runs[k].stages[i].attempts + Credit(runs[k].stages[i]) <= MaxAttempts(runs[0].stages[i]) + Retries(runs, i, k)
    ensures Credit(runs[k].stages[i]) <= Retries(runs, i, k)
    decreases k
  {
    if k == 0 {
      assert FreshStage(runs[0].stages, runs[0].stages[i]);
    } else {
      StageExecutionsBounded(env, runs, ops, i, k - 1);
      StoreReached(env, runs, ops, k - 1);
      StepRule(env, runs[k - 1], ops[k - 1], i);
      StepKeepsReceipts(env, runs[k - 1], ops[k - 1]);
      assert Kept(runs[k - 1].stages[i], runs[k].stages[i]);
    }
  }

  // ---------------------------------------------------------------- all stages over a history

  /** Executions so far: attempts of the stages that execute (approvals only wait). */
  function Executions(stages: seq<RunStage>): nat {
    if |stages| == 0 then 0
    else Executions(stages[1..]) + if stages[0].kind.Approval? then 0 else stages[0].attempts
  }

  /** Executions beyond the first of each stage. */
  function Repetitions(stages: seq<RunStage>): nat {
    if |stages| == 0 then 0
    else Repetitions(stages[1..]) + if stages[0].kind.Approval? || stages[0].attempts == 0 then 0 else stages[0].attempts - 1
  }

  lemma {:induction false} ExecutionsSplit(stages: seq<RunStage>)
    ensures Executions(stages) <= |stages| + Repetitions(stages)
    decreases |stages|
  {
    if |stages| > 0 { ExecutionsSplit(stages[1..]); }
  }

  lemma {:induction false} RepetitionsSame(stages: seq<RunStage>, after: seq<RunStage>)
    requires |after| == |stages|
    requires forall i :: 0 <= i < |stages| ==>
               after[i].kind == stages[i].kind && (stages[i].kind.Approval? || after[i].attempts == stages[i].attempts)
    ensures Repetitions(after) == Repetitions(stages)
    decreases |stages|
  {
    if |stages| > 0 {
      assert forall i :: 0 <= i < |stages| - 1 ==> stages[1..][i] == stages[i + 1] && after[1..][i] == after[i + 1];
      RepetitionsSame(stages[1..], after[1..]);
    }
  }

  lemma {:induction false} RepetitionsOneMore(stages: seq<RunStage>, after: seq<RunStage>, n: nat)
    requires |after| == |stages| && n < |stages|
    requires forall i :: 0 <= i < |stages| && i != n ==>
               after[i].kind == stages[i].kind && (stages[i].kind.Approval? || after[i].attempts == stages[i].attempts)
    requires after[n].kind == stages[n].kind && after[n].attempts == stages[n].attempts + 1 && !stages[n].kind.Approval?
    ensures Repetitions(after) == Repetitions(stages) + if stages[n].attempts > 0 then 1 else 0
    decreases |stages|
  {
    assert forall i :: 0 <= i < |stages| - 1 ==> stages[1..][i] == stages[i + 1] && after[1..][i] == after[i + 1];
    if n == 0 {
      RepetitionsSame(stages[1..], after[1..]);
    } else {
      RepetitionsOneMore(stages[1..], after[1..], n - 1);
    }
  }

  ghost predicate Paid(run: RunRecord) {
    && NonNegative(run.budget)
    && Repetitions(run.stages) as real <= Get(run.budget.consumed, RepairCycles)
    && (RepairCycles in run.budget.limits ==> Repetitions(run.stages) as real <= run.budget.limits[RepairCycles])
  }

  lemma BudgetStep(env: Env, run: RunRecord, op: Op)
    requires RunOk(env, run) && NonNegative(run.budget)
    ensures var after := After(env, run, op);
            && NonNegative(after.budget) && after.budget.limits == run.budget.limits
            && Get(after.budget.consumed, RepairCycles) >= Get(run.budget.consumed, RepairCycles)
  {
    if Step(env, run, op).Ok? {
      match op {
        case DoUpdate(id, u) =>
          if |run.stages| > 0 { UpdateRule(env, run, id, u, 0); }
          if RepairCharge(run.budget).Ok? { RepairLaws(run.budget); }
        case DoFailDepartment(_, usage, _) => ChargeConserves(run.budget, usage);
        case DoCompleteDepartment(_, _, usage, _) => if usage.Some? { ChargeConserves(run.budget, usage.value); }
        case DoBudget(supplied, unmetered) => PatchLaws(run.budget, supplied, unmetered);
        case _ =>
      }
    }
  }

  lemma PaidStep(env: Env, run: RunRecord, op: Op)
    requires RunOk(env, run) && Paid(run)
    requires RepairCycles in run.budget.limits ==> run.budget.limits[RepairCycles] == run.budget.limits[RepairCycles].Floor as real
    ensures Paid(After(env, run, op))
  {
    var after := After(env, run, op);
    BudgetStep(env, run, op);
    StepKeepsReceipts(env, run, op);
    forall i | 0 <= i < |run.stages|
      ensures after.stages[i].kind == run.stages[i].kind
      ensures !run.stages[i].kind.Approval? ==>
                && AttemptRule(run.stages[i], after.stages[i])
                && RepairRule(run, after, run.stages[i], after.stages[i])
                && (after.stages[i].attempts > run.stages[i].attempts ==> op.DoUpdate? && op.stage == run.stages[i].id)
    {
      assert Kept(run.stages[i], after.stages[i]);
      if !run.stages[i].kind.Approval? { StepRule(env, run, op, i); }
    }
    if n :| 0 <= n < |run.stages| && !run.stages[n].kind.Approval? && after.stages[n].attempts > run.stages[n].attempts {
      RepetitionsOneMore(run.stages, after.stages, n);
      if run.stages[n].attempts > 0 {
        RepairLaws(run.budget);
        OneMoreFits(run);
      }
    } else {
      RepetitionsSame(run.stages, after.stages);
    }
  }

  lemma OneMoreFits(run: RunRecord)
    requires Paid(run) && RepairCharge(run.budget).Ok?
    requires RepairCycles in run.budget.limits ==> run.budget.limits[RepairCycles] == run.budget.limits[RepairCycles].Floor as real
    ensures RepairCycles in run.budget.limits ==> (Repetitions(run.stages) + 1) as real <= run.budget.limits[RepairCycles]
  {
    if RepairCycles in run.budget.limits {
      var limit := run.budget.limits[RepairCycles];
      assert Repetitions(run.stages) as real < limit;
      assert Repetitions(run.stages) < limit.Floor;
    }
  }

  lemma {:induction false} NothingExecutedYet(stages: seq<RunStage>)
    requires forall i :: 0 <= i < |stages| ==> stages[i].attempts == 0
    ensures Repetitions(stages) == 0
    decreases |stages|
  {
    if |stages| > 0 {
      assert forall i :: 0 <= i < |stages| - 1 ==> stages[1..][i] == stages[i + 1];
      NothingExecutedYet(stages[1..]);
    }
  }

  lemma {:induction false} HistoryIsPaid(env: Env, runs: seq<RunRecord>, ops: seq<Op>, k: nat)
    requires StoreHistory(env, runs, ops) && k < |runs|
    requires RepairCycles in runs[0].budget.limits
    requires runs[0].budget.limits[RepairCycles] == runs[0].budget.limits[RepairCycles].Floor as real >= 0.0
    ensures Paid(runs[k]) && runs[k].budget.limits == runs[0].budget.limits
    decreases k
  {
    if k == 0 {
      forall i | 0 <= i < |runs[0].stages| ensures runs[0].stages[i].attempts == 0 {
        assert FreshStage(runs[0].stages, runs[0].stages[i]);
      }
      NothingExecutedYet(runs[0].stages);
    } else {
      CallIsPaid(env, runs, ops, k - 1);
      hide StoreHistory, Paid;
      assert WholeRepairLimit(runs[0].budget);
      HistoryIsPaid(env, runs, ops, k - 1);
    }
  }

  ghost predicate WholeRepairLimit(b: Budget) {
    RepairCycles in b.limits ==> b.limits[RepairCycles] == b.limits[RepairCycles].Floor as real
  }

  lemma CallIsPaid(env: Env, runs: seq<RunRecord>, ops: seq<Op>, k: nat)
    requires StoreHistory(env, runs, ops) && k < |ops|
    ensures |runs| == |ops| + 1
    ensures Paid(runs[k]) && WholeRepairLimit(runs[k].budget) ==> Paid(runs[k + 1]) && runs[k + 1].budget.limits == runs[k].budget.limits
  {
    StoreReached(env, runs, ops, k);
    hide After, RunOk;
    if Paid(runs[k]) && WholeRepairLimit(runs[k].budget) {
      PaidStep(env, runs[k], ops[k]);
      BudgetStep(env, runs[k], ops[k]);
    }
  }

  /** In every state of every history, executions in total stay within one per stage plus the repair limit. */
  lemma TotalExecutionsBounded(env: Env, runs: seq<RunRecord>, ops: seq<Op>, k: nat)
    requires StoreHistory(env, runs, ops) && k < |runs|
    requires RepairCycles in runs[0].budget.limits
    requires runs[0].budget.limits[RepairCycles] == runs[0].budget.limits[RepairCycles].Floor as real >= 0.0
    ensures Executions(runs[k].stages) as real <= |runs[0].stages| as real + runs[0].budget.limits[RepairCycles]
  {
    HistoryIsPaid(env, runs, ops, k);
    StoreReached(env, runs, ops, k);
    ExecutionsSplit(runs[k].stages);
  }
}
