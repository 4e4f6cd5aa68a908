/**
 * The budget as a ledger: over any history of store calls, budget updates
 * included, consumption is what the calls posted, the marks say exactly what was
 * consumed, and every execution claim is charged at most once, together with its
 * stage leaving the running status.
 */
module RunLedger {
  import opened Common
  import opened PG = PipelineGraph
  import opened RunBudget
  import opened RunState
  import opened RunValidity
  import opened RunCoordination
  import opened RunGuarantees
  import opened RunFencing
  import opened RunRetries

  // ---------------------------------------------------------------- reported usage

  /** A reported number: `None` when missing or not a safe non-negative integer. */
  datatype Metrics = Metrics(
    inputTokens: Option<nat>,
    outputTokens: Option<nat>,
    totalTokens: Option<nat>,
    providerCalls: Option<nat>,
    unmeteredCalls: Option<nat>,
    duration: Option<nat>,
    cost: CostReport)

  datatype CostReport = NoCost | BadCost | CostOf(amount: real)

  datatype MetricsError = MetricsInvalid

  /** Reported metrics must be present and valid; metrics read off an artifact default to zero. */
  function Metric(reported: bool, v: Option<nat>): Result<nat, MetricsError> {
    if v.Some? then Ok(v.value) else if reported then Err(MetricsInvalid) else Ok(0)
  }

  function CostAmount(reported: bool, c: CostReport): Result<real, MetricsError> {
    if c.CostOf? && c.amount >= 0.0 then Ok(c.amount)
    else if reported && !c.NoCost? then Err(MetricsInvalid)
    else Ok(0.0)
  }

  /** The charge for one department run; its tokens balance and its calls split into metered and unmetered ones. */
  function DepartmentUsage(m: Metrics, reported: bool): (r: Result<Charge, MetricsError>)
    ensures r.Ok? ==>
      && TokensTogether(r.value)
      && Balanced(r.value)
      && (m.providerCalls.Some? ==> Get(r.value.amounts, Calls) + r.value.unmetered as real == m.providerCalls.value as real)
      && r.value.unmetered >= 0 && (forall f: Field :: Get(r.value.amounts, f) >= 0.0)
      && Get(r.value.amounts, RepairCycles) == 0.0
  {
    var input :- Metric(reported, m.inputTokens);
    var output :- Metric(reported, m.outputTokens);
    var total :- Metric(reported, m.totalTokens);
    if total != input + output then Err(MetricsInvalid)
    else
      var calls :- Metric(reported, m.providerCalls);
      var unmetered :- Metric(reported, m.unmeteredCalls);
      if unmetered > calls then Err(MetricsInvalid)
      else
        var duration :- Metric(reported, m.duration);
        var cost :- CostAmount(reported, m.cost);
        Ok(Charge(map[InputTokens := input as real, OutputTokens := output as real, TotalTokens := total as real,
                      Calls := (calls - unmetered) as real, WallTime := duration as real, Cost := cost],
                  unmetered))
  }

  function OrZero(v: Option<nat>): nat {
    if v.Some? then v.value else 0
  }

  /**
   * A department's metrics are accepted exactly when the total is input plus
   * output and no more calls are unmetered than were made, and, for a provider's
   * own report, when nothing but the cost is missing and the cost is not bad.
   * The charge then has each number where it belongs.
   */
  lemma UsageIsWhatWasReported(m: Metrics, reported: bool)
    ensures DepartmentUsage(m, reported).Ok? <==>
              && OrZero(m.totalTokens) == OrZero(m.inputTokens) + OrZero(m.outputTokens)
              && OrZero(m.unmeteredCalls) <= OrZero(m.providerCalls)
              && (reported ==> m.inputTokens.Some? && m.outputTokens.Some? && m.totalTokens.Some? && m.providerCalls.Some?
                               && m.unmeteredCalls.Some? && m.duration.Some?
                               && (m.cost.NoCost? || (m.cost.CostOf? && m.cost.amount >= 0.0)))
    ensures DepartmentUsage(m, reported).Ok? ==>
              var c := DepartmentUsage(m, reported).value;
              && Get(c.amounts, InputTokens) == OrZero(m.inputTokens) as real
              && Get(c.amounts, OutputTokens) == OrZero(m.outputTokens) as real
              && Get(c.amounts, TotalTokens) == OrZero(m.totalTokens) as real
              && Get(c.amounts, Calls) == (OrZero(m.providerCalls) - OrZero(m.unmeteredCalls)) as real
              && c.unmetered == OrZero(m.unmeteredCalls)
              && Get(c.amounts, WallTime) == OrZero(m.duration) as real
              && Get(c.amounts, Cost) == (if m.cost.CostOf? && m.cost.amount >= 0.0 then m.cost.amount else 0.0)
              && Get(c.amounts, RepairCycles) == 0.0 && Get(c.amounts, Assistance) == 0.0
  {
  }

  ghost predicate Balanced(c: Charge) {
    Get(c.amounts, TotalTokens) == Get(c.amounts, InputTokens) + Get(c.amounts, OutputTokens)
  }

  // ---------------------------------------------------------------- one call

  ghost predicate Repeats(run: RunRecord, after: RunRecord, id: Id) {
    && IndexOf(run.stages, id).Some? && |after.stages| == |run.stages|
    && var k := IndexOf(run.stages, id).value;
       after.stages[k].attempts > run.stages[k].attempts > 0
  }

  /** The lines of the ledger: the metered fields, and the provider calls without metering. */
  datatype Line = Metered(field: Field) | Unmetered

  /** What a call posts on a line: an addition, or the level a budget update sets. */
  datatype Entry = Add(amount: real) | SetTo(amount: real)

  function Held(b: Budget, x: Line): real {
    match x case Metered(f) => Get(b.consumed, f) case Unmetered => b.unmetered as real
  }

  function Increment(c: Charge, x: Line): real {
    match x case Metered(f) => Get(c.amounts, f) case Unmetered => c.unmetered as real
  }

  const NOTHING := Charge(map[], 0)
  const ONE_REPAIR := Charge(map[RepairCycles := 1.0], 0)

  /** What a call adds: the reported usage, or one repair cycle for a repeated execution. */
  ghost function Added(env: Env, run: RunRecord, op: Op): Charge {
    if Step(env, run, op).Err? then NOTHING
    else
      match op
      case DoFailDepartment(_, usage, _) => usage
      case DoCompleteDepartment(_, _, usage, _) => if usage.Some? then usage.value else NOTHING
      case DoUpdate(id, _) => if Repeats(run, After(env, run, op), id) then ONE_REPAIR else NOTHING
      case _ => NOTHING
  }

  ghost function Posting(env: Env, run: RunRecord, op: Op, x: Line): Entry {
    if op.DoBudget? && Step(env, run, op).Ok? then
      match x
      case Metered(f) => if f in op.supplied then SetTo(op.supplied[f]) else Add(0.0)
      case Unmetered => if op.unmetered.Some? then SetTo(op.unmetered.value as real) else Add(0.0)
    else Add(Increment(Added(env, run, op), x))
  }

  function Book(held: real, e: Entry): real {
    match e case Add(a) => held + a case SetTo(a) => a
  }

  ghost predicate BalancedOp(op: Op) {
    match op
    case DoFailDepartment(_, usage, _) => Balanced(usage)
    case DoCompleteDepartment(_, _, usage, _) => usage.Some? ==> Balanced(usage.value)
    case DoBudget(supplied, _) =>
      || (InputTokens !in supplied && OutputTokens !in supplied && TotalTokens !in supplied)
      || (InputTokens in supplied && OutputTokens in supplied && TotalTokens in supplied
          && supplied[TotalTokens] == supplied[InputTokens] + supplied[OutputTokens])
    case _ => true
  }

  lemma UpdateCharge(env: Env, run: RunRecord, id: Id, u: Update)
    requires RunOk(env, run) && UpdateStage(env, run, id, u).Ok?
    ensures var after := UpdateStage(env, run, id, u).value;
            if Repeats(run, after, id) then RepairCharge(run.budget) == Ok(after.budget) else after.budget == run.budget
  {
    var k := IndexOf(run.stages, id).value;
    var s := run.stages[k];
    assert StageSound(s);
    if !(u.expectedStatus.Some? && s.status != u.expectedStatus.value) {
      var requested := if u.status.Some? then u.status.value else s.status;
      ProceedCarries(env, run, k, Effective(s, requested), u);
      StartingOnlyFromRunning(s, requested, env, run, u);
      MoveAttempts(env, run, s, Effective(s, requested), u);
    }
  }

  /** The budget moves by exactly this charge; marks and token balance follow. */
  ghost predicate Moved(b: Budget, b': Budget, c: Charge, balanced: bool) {
    && NonNegative(b') && b'.limits == b.limits
    && (forall f: Field :: Get(b'.consumed, f) == Get(b.consumed, f) + Get(c.amounts, f) && Get(c.amounts, f) >= 0.0)
    && b'.unmetered == b.unmetered + c.unmetered >= b.unmetered
    && (PositiveLimits(b) && MarksExact(b) ==> MarksExact(b'))
    && (TokensBalanced(b) && balanced ==> TokensBalanced(b'))
  }

  lemma MovedByCharge(b: Budget, c: Charge)
    requires NonNegative(b) && Delta(b, c).Ok?
    ensures Moved(b, Delta(b, c).value, c, Balanced(c))
  {
    ChargeConserves(b, c);
  }

  lemma MovedByRepair(b: Budget)
    requires NonNegative(b) && RepairCharge(b).Ok?
    ensures Moved(b, RepairCharge(b).value, ONE_REPAIR, true)
  {
    RepairLaws(b);
  }

  lemma NotMoved(b: Budget)
    requires NonNegative(b)
    ensures Moved(b, b, NOTHING, true)
  {
  }

  lemma DepartmentMoves(env: Env, run: RunRecord, op: Op)
    requires NonNegative(run.budget) && (op.DoFailDepartment? || op.DoCompleteDepartment?) && Step(env, run, op).Ok?
    ensures Moved(run.budget, Step(env, run, op).value.budget, Added(env, run, op), BalancedOp(op))
  {
    hide Moved, Delta, NonNegative;
    NotMoved(run.budget);
    if op.DoFailDepartment? {
      MovedByCharge(run.budget, op.usage);
    } else if op.charge.Some? {
      MovedByCharge(run.budget, op.charge.value);
    }
  }

  lemma OtherMoves(env: Env, run: RunRecord, op: Op)
    requires NonNegative(run.budget) && Step(env, run, op).Ok?
    requires !op.DoFailDepartment? && !op.DoCompleteDepartment? && !op.DoUpdate? && !op.DoBudget?
    ensures Moved(run.budget, Step(env, run, op).value.budget, NOTHING, true)
  {
    NotMoved(run.budget);
    assert Step(env, run, op).value.budget == run.budget;
  }

  lemma UpdateMoves(env: Env, run: RunRecord, id: Id, u: Update)
    requires RunOk(env, run) && NonNegative(run.budget) && UpdateStage(env, run, id, u).Ok?
    ensures var after := UpdateStage(env, run, id, u).value;
            Moved(run.budget, after.budget, if Repeats(run, after, id) then ONE_REPAIR else NOTHING, true)
  {
    UpdateCharge(env, run, id, u);
    NotMoved(run.budget);
    if RepairCharge(run.budget).Ok? { MovedByRepair(run.budget); }
  }

  /** One call other than a budget update moves each field by exactly its charge. */
  lemma ChargeStep(env: Env, run: RunRecord, op: Op)
    requires RunOk(env, run) && NonNegative(run.budget) && !op.DoBudget?
    ensures Moved(run.budget, After(env, run, op).budget, Added(env, run, op), BalancedOp(op))
  {
    if Step(env, run, op).Err? {
      NotMoved(run.budget);
    } else if op.DoUpdate? {
      UpdateMoves(env, run, op.stage, op.update);
    } else if op.DoFailDepartment? || op.DoCompleteDepartment? {
      DepartmentMoves(env, run, op);
    } else {
      OtherMoves(env, run, op);
    }
  }

  /** What every call does to the budget, line by line. */
  ghost predicate Posted(env: Env, run: RunRecord, op: Op) {
    var b, b' := run.budget, After(env, run, op).budget;
    && NonNegative(b') && b'.limits == b.limits
    && (forall x: Line :: Held(b', x) == Book(Held(b, x), Posting(env, run, op, x)) && Held(b', x) >= Held(b, x))
    && (PositiveLimits(b) && MarksExact(b) ==> MarksExact(b'))
    && (TokensBalanced(b) && BalancedOp(op) ==> TokensBalanced(b'))
  }

  lemma BudgetUpdatePosts(env: Env, run: RunRecord, op: Op)
    requires NonNegative(run.budget) && op.DoBudget? && Step(env, run, op).Ok?
    ensures Posted(env, run, op)
  {
    PatchLaws(run.budget, op.supplied, op.unmetered);
    var b' := After(env, run, op).budget;
    forall x: Line ensures Held(b', x) == Book(Held(run.budget, x), Posting(env, run, op, x)) && Held(b', x) >= Held(run.budget, x) {
    }
  }

  lemma MovedIsPosted(env: Env, run: RunRecord, op: Op)
    requires !(op.DoBudget? && Step(env, run, op).Ok?)
    requires Moved(run.budget, After(env, run, op).budget, Added(env, run, op), BalancedOp(op))
    ensures Posted(env, run, op)
  {
    hide After, Added, Step, BalancedOp;
    var b, b', c := run.budget, After(env, run, op).budget, Added(env, run, op);
    forall x: Line ensures Held(b', x) == Book(Held(b, x), Posting(env, run, op, x)) && Held(b', x) >= Held(b, x) {
      assert x.Metered? ==> Get(b'.consumed, x.field) == Get(b.consumed, x.field) + Get(c.amounts, x.field);
    }
  }

  lemma StepPosts(env: Env, run: RunRecord, op: Op)
    requires RunOk(env, run) && NonNegative(run.budget)
    ensures Posted(env, run, op)
  {
    if op.DoBudget? && Step(env, run, op).Ok? {
      BudgetUpdatePosts(env, run, op);
    } else if op.DoBudget? {
      NotMoved(run.budget);
      MovedIsPosted(env, run, op);
    } else {
      ChargeStep(env, run, op);
      MovedIsPosted(env, run, op);
    }
  }

  // ---------------------------------------------------------------- over a history

  /** A line after `k` calls: each adds its charge, and a budget update puts the line at a new level. */
  ghost function Ledger(env: Env, runs: seq<RunRecord>, ops: seq<Op>, x: Line, k: nat): real
    requires |runs| == |ops| + 1 && k < |runs|
  {
    if k == 0 then Held(runs[0].budget, x)
    else Book(Ledger(env, runs, ops, x, k - 1), Posting(env, runs[k - 1], ops[k - 1], x))
  }

  /** Call `k` of a history posts its entries. */
  lemma HistoryPosts(env: Env, runs: seq<RunRecord>, ops: seq<Op>, k: nat)
    requires StoreHistory(env, runs, ops) && k < |ops| && NonNegative(runs[k].budget)
    ensures |runs| == |ops| + 1 && Posted(env, runs[k], ops[k])
    ensures runs[k + 1].budget == After(env, runs[k], ops[k]).budget
  {
    StoreReached(env, runs, ops, k);
    StepPosts(env, runs[k], ops[k]);
  }

  lemma {:induction false} BudgetsReached(env: Env, runs: seq<RunRecord>, ops: seq<Op>, k: nat)
    requires StoreHistory(env, runs, ops) && k < |runs|
    ensures NonNegative(runs[k].budget) && runs[k].budget.limits == runs[0].budget.limits
    decreases k
  {
    if k > 0 {
      CallKeepsLimits(env, runs, ops, k - 1);
      hide StoreHistory, NonNegative;
      BudgetsReached(env, runs, ops, k - 1);
    } else {
      assert NonNegative(runs[0].budget);
    }
  }

  lemma CallKeepsLimits(env: Env, runs: seq<RunRecord>, ops: seq<Op>, k: nat)
    requires StoreHistory(env, runs, ops) && k < |ops|
    ensures |runs| == |ops| + 1
    ensures NonNegative(runs[k].budget) ==> NonNegative(runs[k + 1].budget) && runs[k + 1].budget.limits == runs[k].budget.limits
  {
    hide After, NonNegative, Posting;
    if NonNegative(runs[k].budget) { HistoryPosts(env, runs, ops, k); }
  }

  /** Conservation: what a line holds is exactly what the calls posted on it since the start. */
  lemma {:induction false} ConsumptionIsTheLedger(env: Env, runs: seq<RunRecord>, ops: seq<Op>, x: Line, k: nat)
    requires StoreHistory(env, runs, ops) && k < |runs|
    ensures |runs| == |ops| + 1 && Held(runs[k].budget, x) == Ledger(env, runs, ops, x, k)
    decreases k
  {
    if k > 0 {
      ConsumptionIsTheLedger(env, runs, ops, x, k - 1);
      BudgetsReached(env, runs, ops, k - 1);
      HistoryPosts(env, runs, ops, k - 1);
      hide StoreHistory, After, Posting;
    }
  }

  lemma NothingFalls(env: Env, runs: seq<RunRecord>, ops: seq<Op>, x: Line, k: nat)
    requires StoreHistory(env, runs, ops) && k < |ops|
    ensures |runs| == |ops| + 1 && Held(runs[k].budget, x) <= Held(runs[k + 1].budget, x)
  {
    BudgetsReached(env, runs, ops, k);
    HistoryPosts(env, runs, ops, k);
    hide StoreHistory, After, Posting;
  }

  /** Consumption never goes down on any line, whatever is called. */
  lemma {:induction false} ConsumptionNeverFalls(env: Env, runs: seq<RunRecord>, ops: seq<Op>, x: Line, j: nat, k: nat)
    requires StoreHistory(env, runs, ops) && j <= k < |runs|
    ensures Held(runs[j].budget, x) <= Held(runs[k].budget, x)
    decreases k
  {
    if j < k {
      NothingFalls(env, runs, ops, x, k - 1);
      hide StoreHistory, Held;
      ConsumptionNeverFalls(env, runs, ops, x, j, k - 1);
    }
  }

  /** With positive limits, in every state: exhausted iff some limit is reached, overage exactly used minus limit. */
  lemma {:induction false} MarksStayExact(env: Env, runs: seq<RunRecord>, ops: seq<Op>, k: nat)
    requires StoreHistory(env, runs, ops) && k < |runs|
    requires runs[0].budget == Budget(runs[0].budget.limits, map[], 0, false, false, map[]) && PositiveLimits(runs[0].budget)
    ensures MarksExact(runs[k].budget) && runs[k].budget.limits == runs[0].budget.limits
    decreases k
  {
    if k == 0 {
      FreshBudget(runs[0].budget.limits);
    } else {
      MarksStayExact(env, runs, ops, k - 1);
      BudgetsReached(env, runs, ops, k - 1);
      HistoryPosts(env, runs, ops, k - 1);
      hide StoreHistory, After, Posting, MarksExact;
    }
  }

  /** Token totals stay input plus output when every reported usage balances, as DepartmentUsage makes it. */
  lemma {:induction false} TokensStayBalanced(env: Env, runs: seq<RunRecord>, ops: seq<Op>, k: nat)
    requires StoreHistory(env, runs, ops) && k < |runs|
    requires TokensBalanced(runs[0].budget)
    requires forall j :: 0 <= j < |ops| ==> BalancedOp(ops[j])
    ensures TokensBalanced(runs[k].budget)
    decreases k
  {
    if k > 0 {
      TokensStayBalanced(env, runs, ops, k - 1);
      BudgetsReached(env, runs, ops, k - 1);
      HistoryPosts(env, runs, ops, k - 1);
      hide StoreHistory, After, Posting, TokensBalanced;
    }
  }

  lemma StepKeepsWhole(env: Env, run: RunRecord, op: Op)
    requires RunOk(env, run) && WholeAmounts(run.budget)
    ensures WholeAmounts(After(env, run, op).budget)
  {
    if Step(env, run, op).Ok? {
      if op.DoUpdate? {
        UpdateCharge(env, run, op.stage, op.update);
        if RepairCharge(run.budget).Ok? { RepairKeepsWhole(run.budget); }
      } else {
        OtherKeepsWhole(env, run, op);
      }
    }
  }

  lemma DeltaKeepsWhole(b: Budget, c: Charge)
    requires WholeAmounts(b) && Delta(b, c).Ok?
    ensures WholeAmounts(Delta(b, c).value)
  {
    PatchKeepsWhole(b, Sum(b, c, FIELDS), Some(b.unmetered + c.unmetered));
  }

  lemma OtherKeepsWhole(env: Env, run: RunRecord, op: Op)
    requires WholeAmounts(run.budget) && Step(env, run, op).Ok? && !op.DoUpdate?
    ensures WholeAmounts(Step(env, run, op).value.budget)
  {
    if op.DoFailDepartment? {
      DeltaKeepsWhole(run.budget, op.usage);
    } else if op.DoCompleteDepartment? {
      if op.charge.Some? { DeltaKeepsWhole(run.budget, op.charge.value); }
    } else if op.DoBudget? {
      PatchKeepsWhole(run.budget, op.supplied, op.unmetered);
    } else {
      assert Step(env, run, op).value.budget == run.budget;
    }
  }

  lemma CallKeepsWhole(env: Env, runs: seq<RunRecord>, ops: seq<Op>, k: nat)
    requires StoreHistory(env, runs, ops) && k < |ops|
    ensures |runs| == |ops| + 1 && (WholeAmounts(runs[k].budget) ==> WholeAmounts(runs[k + 1].budget))
  {
    StoreReached(env, runs, ops, k);
    hide After, RunOk, WholeAmounts;
    if WholeAmounts(runs[k].budget) { StepKeepsWhole(env, runs[k], ops[k]); }
  }

  /** In every state every amount but the cost is a whole number, and a token total on record covers its parts. */
  lemma {:induction false} AmountsStayWhole(env: Env, runs: seq<RunRecord>, ops: seq<Op>, k: nat)
    requires StoreHistory(env, runs, ops) && k < |runs| && WholeAmounts(runs[0].budget)
    ensures WholeAmounts(runs[k].budget)
    decreases k
  {
    if k > 0 {
      CallKeepsWhole(env, runs, ops, k - 1);
      hide StoreHistory, WholeAmounts;
      AmountsStayWhole(env, runs, ops, k - 1);
    }
  }

  /** A coordinated call is never one of the two harmful ones, so what holds of all store histories holds of these. */
  lemma HistoryIsStoreHistory(env: Env, runs: seq<RunRecord>, ops: seq<Op>)
    requires History(env, runs, ops) && NonNegative(runs[0].budget)
    ensures StoreHistory(env, runs, ops)
  {
    forall k | 0 <= k < |ops| ensures !Harmful(runs[k], ops[k]) && runs[k + 1] == After(env, runs[k], ops[k]) {
      CallOf(env, runs, ops, k);
      NoStrayStage(env, runs[k]);
    }
  }

  lemma NoStrayStage(env: Env, run: RunRecord)
    requires Disciplined(env, run)
    ensures !HasStray(run.stages)
  {
    forall s | s in run.stages && s.status.Uncertain? ensures IsWrite(s) {
      var k :| 0 <= k < |run.stages| && run.stages[k] == s;
      assert StageDisciplined(run.stages[k]);
    }
  }

  // ---------------------------------------------------------------- one charge per claim

  /** A successful department report made under claim `c`. */
  ghost predicate ChargesClaim(env: Env, run: RunRecord, op: Op, c: ClaimId) {
    && (op.DoCompleteDepartment? || op.DoFailDepartment?) && op.expectedClaim == Some(c)
    && Step(env, run, op).Ok?
  }

  lemma ChargeEndsClaim(env: Env, run: RunRecord, op: Op, c: ClaimId) returns (i: nat)
    requires ChargesClaim(env, run, op, c)
    ensures HoldsAt(run, i, c) && !HoldsAt(After(env, run, op), i, c)
  {
    i := DepartmentAt(run, op.stage, Some(c)).value;
  }

  /** Two successful reports under one claim are one and the same call: a claim is charged at most once. */
  lemma ClaimIsChargedOnce(env: Env, runs: seq<RunRecord>, ops: seq<Op>, k: nat, k': nat, c: ClaimId)
    requires History(env, runs, ops) && FreshClaims(ops) && k < |ops| && k' < |ops|
    requires ChargesClaim(env, runs[k], ops[k], c) && ChargesClaim(env, runs[k'], ops[k'], c)
    ensures k == k'
  {
    var i := ChargeEndsClaim(env, runs[k], ops[k], c);
    var i' := ChargeEndsClaim(env, runs[k'], ops[k'], c);
    assert Ends(runs, k, i, c) && Ends(runs, k', i', c);
    ClaimEndsOnce(env, runs, ops, k, i, k', i', c);
  }
}
