/**
 * What one turn of the coordinator makes of a run it finds active, case by
 * case: completed, failed, paused for its budget, waiting for a decision,
 * blocked, or with one more stage running.
 */
module MissionTurns {
  import opened Common
  import opened PG = PipelineGraph
  import opened RunBudget
  import opened RunState
  import opened RunValidity
  import opened RunCoordination
  import opened RunGuarantees
  import opened RunLifecycle
  import opened RunEffects
  import opened MissionRunner

  /** The calls of a turn in order; the first that throws ends the turn. */
  ghost function Perform(env: Env, run: RunRecord, ops: seq<Op>): RunRecord
    decreases |ops|
  {
    if ops == [] || Step(env, run, ops[0]).Err? then run
    else Perform(env, Step(env, run, ops[0]).value, ops[1..])
  }

  /** The run after one turn. */
  ghost function Turn(env: Env, r: Runner, run: RunRecord, transitions: nat, claim: ClaimId, approval: string): RunRecord {
    Perform(env, run, Issued(run, Decide(r, run, transitions), claim, approval))
  }

  lemma PerformOne(env: Env, run: RunRecord, a: Op)
    ensures Perform(env, run, [a]) == After(env, run, a)
  {
    if Step(env, run, a).Ok? {
      assert [a][1..] == [];
      assert Perform(env, Step(env, run, a).value, []) == Step(env, run, a).value;
    }
  }

  lemma PerformTwo(env: Env, run: RunRecord, a: Op, b: Op)
    ensures Perform(env, run, [a, b]) == if Step(env, run, a).Err? then run else After(env, Step(env, run, a).value, b)
  {
    if Step(env, run, a).Ok? {
      assert [a, b][1..] == [b];
      PerformOne(env, Step(env, run, a).value, b);
    }
  }

  // ---------------------------------------------------------------- ending the run

  /** With every stage completed and transitions left, the turn completes the run. */
  lemma TurnCompletes(env: Env, r: Runner, run: RunRecord, transitions: nat, claim: ClaimId, approval: string)
    requires Disciplined(env, run) && run.status.Active? && transitions < r.maxTransitions
    requires forall k :: 0 <= k < |run.stages| ==> run.stages[k].status.Completed?
    ensures Turn(env, r, run, transitions, claim, approval) == run.(status := CompletedRun)
  {
    forall k | 0 <= k < |run.stages| ensures !ReadyAt(run.stages, k) && DurableCompletion(run.stages[k]) {
      assert StageDisciplined(run.stages[k]);
    }
    CompletesExactlyWhen(env, run);
    PerformOne(env, run, DoTransition(CompletedRun));
    hide DurableCompletion, Disciplined;
  }

  /** With the budget exhausted and work left, the turn pauses the run for its budget. */
  lemma TurnPauses(env: Env, r: Runner, run: RunRecord, transitions: nat, claim: ClaimId, approval: string)
    requires run.status.Active? && run.budget.exhausted
    requires exists k :: 0 <= k < |run.stages| && !run.stages[k].status.Completed?
    ensures Turn(env, r, run, transitions, claim, approval) == run.(status := BudgetPausedRun)
  {
    PerformOne(env, run, DoTransition(BudgetPausedRun));
  }

  ghost predicate NothingReady(stages: seq<RunStage>) {
    forall k :: 0 <= k < |stages| && Startable(stages[k]) ==> exists d :: d in stages[k].dependsOn && !CompletedAt(stages, d)
  }

  /** With nothing ready and a stage failed, the turn fails the run, unless a stage still runs or a write is uncertain: then it changes nothing. */
  lemma TurnFails(env: Env, r: Runner, run: RunRecord, transitions: nat, claim: ClaimId, approval: string)
    requires RunOk(env, run) && run.status.Active? && !run.budget.exhausted && transitions < r.maxTransitions
    requires NothingReady(run.stages) && exists k :: 0 <= k < |run.stages| && run.stages[k].status.Failed?
    ensures Turn(env, r, run, transitions, claim, approval)
         == if forall s :: s in run.stages ==> !s.status.Running? && !(IsWrite(s) && s.status.Uncertain?)
            then run.(status := FailedRun) else run
  {
    forall k | 0 <= k < |run.stages| ensures !ReadyAt(run.stages, k) { }
    FailsExactlyWhen(env, run);
    PerformOne(env, run, DoTransition(FailedRun));
    hide RunOk;
  }

  // ---------------------------------------------------------------- one stage

  /** The stage at `i` is the first that could start over completed dependencies. */
  ghost predicate FirstToStart(stages: seq<RunStage>, i: nat) {
    && i < |stages| && Startable(stages[i]) && (forall d :: d in stages[i].dependsOn ==> CompletedAt(stages, d))
    && forall k :: 0 <= k < i && Startable(stages[k]) ==> exists d :: d in stages[k].dependsOn && !CompletedAt(stages, d)
  }

  lemma {:induction false} FirstReadyIs(stages: seq<RunStage>, from: nat, i: nat)
    requires FirstToStart(stages, i) && from <= i
    ensures FirstReady(stages, from) == Some(i)
    decreases i - from
  {
    if from < i {
      assert !ReadyAt(stages, from);
      FirstReadyIs(stages, from + 1, i);
    } else {
      assert ReadyAt(stages, i);
    }
  }

  /** An executor for the stage is missing. */
  ghost predicate NoExecutor(r: Runner, s: RunStage) {
    (s.kind.Department? && !r.departments) || (IsWrite(s) && !r.actions) || (s.kind.TruthGate? && !r.gates)
  }

  /** The turn asks for a decision on an approval stage whose turn has come. */
  lemma TurnAsks(env: Env, r: Runner, run: RunRecord, transitions: nat, claim: ClaimId, approval: string, i: nat)
    requires Disciplined(env, run) && RecordsTell(run) && run.status.Active? && !run.budget.exhausted && transitions < r.maxTransitions
    requires FirstToStart(run.stages, i) && run.stages[i].kind.Approval?
    requires |run.approvals| < MAX_APPROVALS && forall a :: a in run.approvals ==> a.id != approval
    ensures Turn(env, r, run, transitions, claim, approval)
         == run.(status := AwaitingDecision,
                 stages := run.stages[i := run.stages[i].(status := AwaitingApproval, attempts := run.stages[i].attempts + 1)],
                 approvals := run.approvals + [ApprovalRecord(approval, run.stages[i].id, Requested)])
  {
    var s := run.stages[i];
    FirstReadyIs(run.stages, 0, i);
    IndexIs(run.stages, i);
    assert Tells(run.approvals, s) && s.status.Pending?;
    assert !Asked(run.approvals, s.id);
    assert RecordApproval(run, approval, s.id, Requested).Ok?;
    var asked := RecordApproval(run, approval, s.id, Requested).value;
    PerformTwo(env, run, DoApproval(approval, s.id, Requested), DoTransition(AwaitingDecision));
    hide Disciplined, Tells;
  }

  lemma BlockPending(env: Env, run: RunRecord, i: nat)
    requires RunOk(env, run) && run.status.Active? && i < |run.stages|
    requires run.stages[i].status.Pending? || run.stages[i].status.Interrupted?
    ensures UpdateStage(env, run, run.stages[i].id, BLOCK_UPDATE).Ok? <==> run.stages[i].status.Pending? && !run.stages[i].kind.Approval?
    ensures UpdateStage(env, run, run.stages[i].id, BLOCK_UPDATE).Ok? ==>
              UpdateStage(env, run, run.stages[i].id, BLOCK_UPDATE).value == run.(stages := run.stages[i := run.stages[i].(status := Blocked)])
  {
    IndexIs(run.stages, i);
    assert StageSound(run.stages[i]);
    hide CitesLineage, LineageComplete;
  }

  lemma BlockTurn(env: Env, run: RunRecord, i: nat)
    requires RunOk(env, run) && run.status.Active? && i < |run.stages|
    requires run.stages[i].status.Pending? || run.stages[i].status.Interrupted?
    ensures Perform(env, run, [DoUpdate(run.stages[i].id, BLOCK_UPDATE), DoTransition(BlockedRun)])
         == if run.stages[i].status.Pending? && !run.stages[i].kind.Approval?
            then run.(status := BlockedRun, stages := run.stages[i := run.stages[i].(status := Blocked)]) else run
  {
    BlockPending(env, run, i);
    PerformTwo(env, run, DoUpdate(run.stages[i].id, BLOCK_UPDATE), DoTransition(BlockedRun));
    hide UpdateStage, RunOk;
  }

  /** Without an executor for the next stage the turn blocks stage and run; an interrupted department it cannot block, and the turn throws instead. */
  lemma TurnBlocks(env: Env, r: Runner, run: RunRecord, transitions: nat, claim: ClaimId, approval: string, i: nat)
    requires RunOk(env, run) && run.status.Active? && !run.budget.exhausted && transitions < r.maxTransitions
    requires FirstToStart(run.stages, i) && !run.stages[i].kind.Approval? && NoExecutor(r, run.stages[i])
    ensures Turn(env, r, run, transitions, claim, approval)
         == if run.stages[i].status.Pending?
            then run.(status := BlockedRun, stages := run.stages[i := run.stages[i].(status := Blocked)]) else run
  {
    FirstReadyIs(run.stages, 0, i);
    BlockTurn(env, run, i);
    hide RunOk, DependenciesReady, Perform;
  }

  lemma {:induction false} FirstPendingIs(stages: seq<RunStage>, from: nat, i: nat)
    requires from <= i < |stages| && stages[i].status.Pending? && forall k :: 0 <= k < i ==> !stages[k].status.Pending?
    ensures FirstWith(stages, Pending, from) == Some(i)
    decreases i - from
  {
    if from < i { FirstPendingIs(stages, from + 1, i); }
  }

  /** After its last transition the turn blocks the first pending stage; if that is an approval, which no update may block, it throws instead. */
  lemma LastTurnBlocks(env: Env, r: Runner, run: RunRecord, transitions: nat, claim: ClaimId, approval: string, i: nat)
    requires RunOk(env, run) && run.status.Active? && !run.budget.exhausted && transitions >= r.maxTransitions
    requires i < |run.stages| && run.stages[i].status.Pending? && forall k :: 0 <= k < i ==> !run.stages[k].status.Pending?
    ensures Turn(env, r, run, transitions, claim, approval)
         == if !run.stages[i].kind.Approval?
            then run.(status := BlockedRun, stages := run.stages[i := run.stages[i].(status := Blocked)]) else run
  {
    FirstPendingIs(run.stages, 0, i);
    BlockTurn(env, run, i);
    hide RunOk, Perform;
  }

  /** Otherwise the turn claims the stage: it runs under the new claim with one attempt more, or, where it may not start, nothing changes. */
  lemma TurnClaims(env: Env, r: Runner, run: RunRecord, transitions: nat, claim: ClaimId, approval: string, i: nat)
    requires Disciplined(env, run) && run.status.Active? && !run.budget.exhausted && transitions < r.maxTransitions
    requires FirstToStart(run.stages, i) && !run.stages[i].kind.Approval? && !NoExecutor(r, run.stages[i])
    ensures var after := Turn(env, r, run, transitions, claim, approval);
            && OnlyAt(run.stages, after.stages, i) && SameSurroundings(run, after)
            && (MayStart(run.stages[i], run.budget) ==>
                  && after.stages[i].status.Running? && after.stages[i].claim == Some(claim)
                  && after.stages[i].attempts == run.stages[i].attempts + 1
                  && (IsWrite(run.stages[i]) ==> after.stages[i].digestBefore == Some(run.checkpoint)))
            && (!MayStart(run.stages[i], run.budget) ==> after == run)
  {
    var s := run.stages[i];
    FirstReadyIs(run.stages, 0, i);
    IndexIs(run.stages, i);
    assert Decide(r, run, transitions) == Claims(s.id, s.status);
    ClaimGrantedExactlyWhen(env, r, run, transitions, claim, approval);
    var op := Issued(run, Decide(r, run, transitions), claim, approval)[0];
    PerformOne(env, run, op);
    hide MayStart, Perform, Startable;
    if Step(env, run, op).Ok? {
      UpdateTouchesOneStage(env, run, s.id, op.update, i);
      StartsFromTheCheckpoint(env, run, op, i);
    }
  }
}
