/**
 * One round of the mission coordinator: which call it makes next for a run it
 * has loaded.  Every call it makes is one of those that the discipline allows;
 * when it waits, some stage is parked where only another party can move it; and
 * a claim it makes is refused only by the retry and repair limits or by a
 * resolution already given.
 */
module MissionRunner {
  import opened Common
  import opened PG = PipelineGraph
  import Admission = PipelineAdmission
  import opened RunBudget
  import opened RunState
  import opened RunValidity
  import opened RunCoordination
  import opened RunGuarantees

  /** Which executors the coordinator was given, and its limit of transitions. */
  datatype Runner = Runner(departments: bool, actions: bool, gates: bool, maxTransitions: nat)

  datatype Decision =
    | Ended
    | Waits
    | PausesForBudget
    | BlocksPending(id: Id)
    | Completes
    | FailsWith(id: Id)
    | AsksApproval(id: Id)
    | BlocksUnavailable(id: Id)
    | Claims(id: Id, from: StageStatus)

  /** Not yet begun, or a department stopped half-way. */
  predicate Startable(s: RunStage) {
    s.status.Pending? || (s.kind.Department? && s.status.Interrupted?)
  }

  predicate ReadyAt(stages: seq<RunStage>, i: nat)
    requires i < |stages|
  {
    Startable(stages[i]) && DependenciesReady(stages, stages[i])
  }

  /** The first of the stages from i on that is ready. */
  function FirstReady(stages: seq<RunStage>, i: nat): (r: Option<nat>)
    requires i <= |stages|
    ensures r.Some? ==> i <= r.value < |stages| && ReadyAt(stages, r.value)
    ensures r.None? ==> forall k | i <= k < |stages| :: !ReadyAt(stages, k)
    decreases |stages| - i
  {
    if i == |stages| then None else if ReadyAt(stages, i) then Some(i) else FirstReady(stages, i + 1)
  }

  function FirstWith(stages: seq<RunStage>, status: StageStatus, i: nat): (r: Option<nat>)
    requires i <= |stages|
    ensures r.Some? ==> i <= r.value < |stages| && stages[r.value].status == status
    ensures r.None? ==> forall k | i <= k < |stages| :: stages[k].status != status
    decreases |stages| - i
  {
    if i == |stages| then None else if stages[i].status == status then Some(i) else FirstWith(stages, status, i + 1)
  }

  predicate AllCompleted(stages: seq<RunStage>) {
    forall i | 0 <= i < |stages| :: stages[i].status.Completed?
  }

  predicate Unavailable(r: Runner, s: RunStage) {
    (s.kind.Department? && !r.departments) || (IsWrite(s) && !r.actions) || (s.kind.TruthGate? && !r.gates)
  }

  function Decide(r: Runner, run: RunRecord, transitions: nat): Decision {
    if Terminal(run.status) then Ended
    else if !run.status.Active? then Waits
    else if run.budget.exhausted && !AllCompleted(run.stages) then PausesForBudget
    else if transitions >= r.maxTransitions then
      var pending := FirstWith(run.stages, Pending, 0);
      if pending.None? then Waits else BlocksPending(run.stages[pending.value].id)
    else
      var ready := FirstReady(run.stages, 0);
      if ready.None? then
        if AllCompleted(run.stages) then Completes
        else
          var failed := FirstWith(run.stages, Failed, 0);
          if failed.None? then Waits else FailsWith(run.stages[failed.value].id)
      else
        var s := run.stages[ready.value];
        if s.kind.Approval? then AsksApproval(s.id)
        else if Unavailable(r, s) then BlocksUnavailable(s.id)
        else Claims(s.id, s.status)
  }

  /** The calls a decision makes; the claim and approval identifiers are drawn fresh. */
  function Issued(run: RunRecord, d: Decision, claim: ClaimId, approval: string): seq<Op> {
    match d
    case Ended => []
    case Waits => []
    case PausesForBudget => [DoTransition(BudgetPausedRun)]
    case BlocksPending(id) => [DoUpdate(id, BLOCK_UPDATE), DoTransition(BlockedRun)]
    case BlocksUnavailable(id) => [DoUpdate(id, BLOCK_UPDATE), DoTransition(BlockedRun)]
    case Completes => [DoTransition(CompletedRun)]
    case FailsWith(id) => [DoTransition(FailedRun)]
    case AsksApproval(id) => [DoApproval(approval, id, Requested), DoTransition(AwaitingDecision)]
    case Claims(id, from) =>
      var k := IndexOf(run.stages, id);
      var write := k.Some? && IsWrite(run.stages[k.value]);
      [DoUpdate(id, ClaimUpdate(from, claim, if write then Some(run.checkpoint) else None))]
  }

  method FindReady(stages: seq<RunStage>) returns (r: Option<nat>)
    ensures r == FirstReady(stages, 0)
  {
    var i: nat := 0;
    while i < |stages|
      invariant i <= |stages| && FirstReady(stages, i) == FirstReady(stages, 0)
    {
      if ReadyAt(stages, i) { return Some(i); }
      i := i + 1;
    }
    return None;
  }

  method FindWith(stages: seq<RunStage>, status: StageStatus) returns (r: Option<nat>)
    ensures r == FirstWith(stages, status, 0)
  {
    var i: nat := 0;
    while i < |stages|
      invariant i <= |stages| && FirstWith(stages, status, i) == FirstWith(stages, status, 0)
    {
      if stages[i].status == status { return Some(i); }
      i := i + 1;
    }
    return None;
  }

  /** One turn of the advance loop, up to the call it makes. */
  method AdvanceOnce(r: Runner, run: RunRecord, transitions: nat) returns (d: Decision)
    ensures d == Decide(r, run, transitions)
  {
    if run.status.CompletedRun? || run.status.FailedRun? || run.status.CancelledRun? { return Ended; }
    if !run.status.Active? { return Waits; }
    var allCompleted := forall i | 0 <= i < |run.stages| :: run.stages[i].status.Completed?;
    if run.budget.exhausted && !allCompleted { return PausesForBudget; }
    if transitions >= r.maxTransitions {
      var pending := FindWith(run.stages, Pending);
      if pending.None? { return Waits; }
      return BlocksPending(run.stages[pending.value].id);
    }
    var ready := FindReady(run.stages);
    if ready.None? {
      if allCompleted { return Completes; }
      var failed := FindWith(run.stages, Failed);
      if failed.None? { return Waits; }
      return FailsWith(run.stages[failed.value].id);
    }
    var s := run.stages[ready.value];
    if s.kind.Approval? { return AsksApproval(s.id); }
    if (s.kind.Department? && !r.departments) || (IsWrite(s) && !r.actions) || (s.kind.TruthGate? && !r.gates) {
      return BlocksUnavailable(s.id);
    }
    return Claims(s.id, s.status);
  }

  // ---------------------------------------------------------------- the calls keep the discipline

  /** Every call the coordinator makes is a coordinated one. */
  lemma CallsAreCoordinated(env: Env, r: Runner, run: RunRecord, transitions: nat, claim: ClaimId, approval: string)
    requires Disciplined(env, run)
    ensures forall op | op in Issued(run, Decide(r, run, transitions), claim, approval) :: Coordinated(run, op)
  {
    var d := Decide(r, run, transitions);
    if d.Claims? {
      var k := FirstReady(run.stages, 0).value;
      IndexIs(run.stages, k);
    }
    forall op | op in Issued(run, d, claim, approval) ensures Coordinated(run, op) {
      if op.DoUpdate? && !d.Claims? { assert op.update == BLOCK_UPDATE; }
    }
  }

  /** Once the dependencies of a stage are completed, everything upstream of them is. */
  lemma ReadyUpstream(stages: seq<RunStage>, s: RunStage, id: Id)
    requires DistinctStages(stages) && DependenciesDone(stages) && DependenciesReady(stages, s)
    requires Upstream(stages, s, id)
    ensures CompletedAt(stages, id)
  {
    var dep :| dep in s.dependsOn && (dep == id || Reaches(StageTable(stages), dep, id));
    assert CompletedAt(stages, dep);
    if dep != id {
      var p :| Walk(StageTable(stages), dep, p, id);
      WalkIsCompleted(stages, p, |p| - 1);
    }
  }

  /** What is claimed has everything upstream of it completed. */
  lemma ClaimsOnlyAfterItsUpstream(env: Env, r: Runner, run: RunRecord, transitions: nat, id: Id)
    requires Disciplined(env, run) && Decide(r, run, transitions).Claims?
    ensures var k := FirstReady(run.stages, 0).value;
            Upstream(run.stages, run.stages[k], id) ==> CompletedAt(run.stages, id)
  {
    var k := FirstReady(run.stages, 0).value;
    if Upstream(run.stages, run.stages[k], id) {
      ReadyUpstream(run.stages, run.stages[k], id);
    }
  }

  /** Attempts are left, a repetition can be paid for with a repair cycle, and no write that was already settled is run again. */
  ghost predicate MayStart(s: RunStage, b: Budget) {
    && s.attempts < MaxAttempts(s)
    && (s.attempts > 0 ==> RepairCycleLeft(b))
    && !(IsWrite(s) && s.resolution.Some? && !s.resolution.value.outcome.Retry?)
  }

  ghost predicate RepairCycleLeft(b: Budget) {
    var used := Get(b.consumed, RepairCycles);
    used >= 0.0 && Whole(used) && (RepairCycles in b.limits ==> used < b.limits[RepairCycles])
  }

  /** What the coordinator claims has never a crash retry to spend, so its claim is granted exactly when the stage may start. */
  lemma ClaimGrantedExactlyWhen(env: Env, r: Runner, run: RunRecord, transitions: nat, claim: ClaimId, approval: string)
    requires Disciplined(env, run) && Decide(r, run, transitions).Claims?
    ensures var k := FirstReady(run.stages, 0).value;
            var s := run.stages[k];
            var op := Issued(run, Decide(r, run, transitions), claim, approval)[0];
            (Step(env, run, op).Ok? <==> MayStart(s, run.budget))
            && (Step(env, run, op).Ok? ==>
                  var t := Step(env, run, op).value.stages[k];
                  t.status.Running? && t.claim == Some(claim) && t.attempts == s.attempts + 1)
  {
    var k := FirstReady(run.stages, 0).value;
    var s := run.stages[k];
    IndexIs(run.stages, k);
    assert StageSound(s) && StageDisciplined(s);
    assert Start(s, run.budget).Ok? <==> MayStart(s, run.budget);
  }

  /** A department that was interrupted in its last attempt can never be taken up again: every round claims it, and every claim is refused. */
  lemma InterruptedLastAttemptIsRefused(env: Env, r: Runner, run: RunRecord, transitions: nat, claim: ClaimId, approval: string)
    requires Disciplined(env, run)
    requires var k := FirstReady(run.stages, 0);
             k.Some? && run.stages[k.value].kind.Department? && run.stages[k.value].status.Interrupted?
             && !IsWrite(run.stages[k.value]) && run.stages[k.value].attempts >= MaxAttempts(run.stages[k.value])
    requires run.status.Active? && r.departments && !run.budget.exhausted && transitions < r.maxTransitions
    ensures var d := Decide(r, run, transitions);
            d.Claims? && Step(env, run, Issued(run, d, claim, approval)[0]) == Err(RetryExhausted)
  {
    var k := FirstReady(run.stages, 0).value;
    IndexIs(run.stages, k);
    assert StageSound(run.stages[k]) && StageDisciplined(run.stages[k]);
  }

  // ---------------------------------------------------------------- no deadlock of its own making

  /** A stage that the coordinator does not start of itself: running, decided elsewhere, stopped, or an interrupted stage that is not a department. */
  predicate Parked(s: RunStage) {
    !s.status.Completed? && !Startable(s)
  }

  /** A dependency of a startable stage that is not ready is itself not completed. */
  lemma OpenDependency(env: Env, stages: seq<RunStage>, i: nat) returns (k: nat)
    requires DistinctStages(stages) && i < |stages| && StageShapeOk(env, stages, stages[i]) && !DependenciesReady(stages, stages[i])
    ensures k < |stages| && !stages[k].status.Completed? && stages[k].id in stages[i].dependsOn
  {
    var d :| d in stages[i].dependsOn && !CompletedAt(stages, d);
    assert KnownStage(stages, d);
    k :| 0 <= k < |stages| && stages[k].id == d;
    IndexIs(stages, k);
  }

  lemma ChainCons(e: Edges, a: Id, q: seq<Id>)
    requires Chain(e, q) && a in e && q[0] in e[a]
    ensures Chain(e, [a] + q)
  {
    var p := [a] + q;
    forall x | 0 <= x < |p| - 1 ensures p[x] in e && p[x + 1] in e[p[x]] {
      if x > 0 { assert p[x] == q[x - 1] && p[x + 1] == q[x]; }
    }
  }

  function StageIds(stages: seq<RunStage>): set<Id> {
    set i | 0 <= i < |stages| :: stages[i].id
  }

  ghost predicate DependsWithin(stages: seq<RunStage>, among: set<nat>, k: nat) {
    k < |stages| && exists m :: m in among && m < |stages| && stages[m].id in stages[k].dependsOn
  }

  /** Each of these stages depends on another of them. */
  ghost predicate Endless(stages: seq<RunStage>, among: set<nat>) {
    DistinctStages(stages) && forall k {:trigger DependsWithin(stages, among, k)} :: k in among ==> DependsWithin(stages, among, k)
  }

  lemma EndlessStep(stages: seq<RunStage>, among: set<nat>, i: nat) returns (k: nat)
    requires Endless(stages, among) && i in among
    ensures k in among && k < |stages| && i < |stages| && stages[i].id in StageIds(stages)
    ensures stages[i].id in StageTable(stages) && stages[k].id in StageTable(stages)[stages[i].id]
  {
    assert DependsWithin(stages, among, i);
    k :| k in among && k < |stages| && stages[k].id in stages[i].dependsOn;
    TableAt(stages, i);
  }

  /** Then chains among them go on for any length. */
  lemma {:induction false} LongChain(stages: seq<RunStage>, among: set<nat>, i: nat, n: nat) returns (p: seq<Id>)
    requires Endless(stages, among) && i in among
    ensures i < |stages| && Chain(StageTable(stages), p) && |p| == n + 1 && p[0] == stages[i].id
    ensures forall x | 0 <= x < |p| :: p[x] in StageIds(stages)
    decreases n
  {
    var k := EndlessStep(stages, among, i);
    if n == 0 {
      p := [stages[i].id];
    } else {
      hide Endless, StageIds, StageTable, Chain;
      var q := LongChain(stages, among, k, n - 1);
      ChainCons(StageTable(stages), stages[i].id, q);
      p := [stages[i].id] + q;
    }
  }

  /** More places than values: some value comes twice. */
  lemma {:induction false} Repeats(p: seq<Id>, values: set<Id>) returns (a: nat, b: nat)
    requires |p| > |values| && forall x | 0 <= x < |p| :: p[x] in values
    ensures a < b < |p| && p[a] == p[b]
    decreases |p|
  {
    if y :| 1 <= y < |p| && p[y] == p[0] {
      a, b := 0, y;
    } else {
      var c, d := Repeats(p[1..], values - {p[0]});
      a, b := c + 1, d + 1;
    }
  }

  lemma {:induction false} FewIds(stages: seq<RunStage>)
    ensures |StageIds(stages)| <= |stages|
  {
    if stages == [] {
      assert StageIds(stages) == {};
    } else {
      var n := |stages| - 1;
      FewIds(stages[..n]);
      assert StageIds(stages) == StageIds(stages[..n]) + {stages[n].id} by {
        forall id ensures id in StageIds(stages) <==> id in StageIds(stages[..n]) || id == stages[n].id {
          if id in StageIds(stages[..n]) {
            var i :| 0 <= i < n && stages[..n][i].id == id;
            assert stages[i].id == id;
          }
          if id in StageIds(stages) {
            var i :| 0 <= i < |stages| && stages[i].id == id;
            if i < n { assert stages[..n][i].id == id; }
          }
        }
      }
    }
  }

  /** A chain that comes back to where it was is a cycle. */
  lemma LoopIsCycle(e: Edges, p: seq<Id>, a: nat, b: nat)
    requires Chain(e, p) && a < b < |p| && p[a] == p[b]
    ensures HasCycle(e)
  {
    var q := p[a..b + 1];
    forall x | 0 <= x < |q| - 1 ensures q[x] in e && q[x + 1] in e[q[x]] {
      assert q[x] == p[a + x] && q[x + 1] == p[a + x + 1];
    }
    assert Walk(e, p[a], q, p[a]);
    assert p[a] in e && Reaches(e, p[a], p[a]);
  }

  lemma EndlessHasCycle(stages: seq<RunStage>, among: set<nat>, i: nat)
    requires Endless(stages, among) && i in among
    ensures HasCycle(StageTable(stages))
  {
    var p := LongChain(stages, among, i, |stages|);
    FewIds(stages);
    var a, b := Repeats(p, StageIds(stages));
    LoopIsCycle(StageTable(stages), p, a, b);
  }

  /** A stage that could start, with no parked stage above it. */
  ghost predicate Free(stages: seq<RunStage>, i: nat)
    requires i < |stages|
  {
    Startable(stages[i]) && !ParkedAbove(stages, i)
  }

  ghost predicate ParkedAbove(stages: seq<RunStage>, i: nat)
    requires i < |stages|
  {
    exists k :: 0 <= k < |stages| && Parked(stages[k]) && Upstream(stages, stages[i], stages[k].id)
  }

  lemma UpstreamStep(stages: seq<RunStage>, i: nat, k: nat, id: Id)
    requires DistinctStages(stages) && i < |stages| && k < |stages| && stages[k].id in stages[i].dependsOn
    ensures Upstream(stages, stages[i], stages[k].id)
    ensures Upstream(stages, stages[k], id) ==> Upstream(stages, stages[i], id)
  {
    if Upstream(stages, stages[k], id) {
      var e := StageTable(stages);
      TableAt(stages, k);
      var d :| d in stages[k].dependsOn && (d == id || Reaches(e, d, id));
      EdgeReaches(e, stages[k].id, d);
      if d != id { ReachesTransitive(e, stages[k].id, d, id); }
    }
  }

  /** A free stage that is not ready depends on another free stage. */
  lemma FreeStep(env: Env, stages: seq<RunStage>, i: nat) returns (k: nat)
    requires DistinctStages(stages) && i < |stages| && StageShapeOk(env, stages, stages[i])
    requires Free(stages, i) && !DependenciesReady(stages, stages[i])
    ensures k < |stages| && Free(stages, k) && stages[k].id in stages[i].dependsOn
  {
    k := OpenDependency(env, stages, i);
    UpstreamStep(stages, i, k, stages[k].id);
    assert !Parked(stages[k]);
    if ParkedAbove(stages, k) {
      var m :| 0 <= m < |stages| && Parked(stages[m]) && Upstream(stages, stages[k], stages[m].id);
      UpstreamStep(stages, i, k, stages[m].id);
    }
  }

  /** Over an acyclic design, as long as one stage is free some stage is ready. */
  lemma SomethingIsReady(env: Env, stages: seq<RunStage>, i: nat)
    requires DistinctStages(stages) && !HasCycle(StageTable(stages))
    requires forall k | 0 <= k < |stages| :: StageShapeOk(env, stages, stages[k])
    requires i < |stages| && Free(stages, i)
    ensures FirstReady(stages, 0).Some?
  {
    hide StageShapeOk, DependenciesReady, HasCycle, StageTable, ParkedAbove;
    if FirstReady(stages, 0).None? {
      var among := set k: nat | k < |stages| && Free(stages, k);
      forall k | k in among ensures DependsWithin(stages, among, k) {
        assert !ReadyAt(stages, k);
        var m := FreeStep(env, stages, k);
        assert m in among;
      }
      EndlessHasCycle(stages, among, i);
    }
  }

  /** Nothing above a ready stage is parked. */
  lemma ReadyIsFree(stages: seq<RunStage>, i: nat)
    requires DistinctStages(stages) && DependenciesDone(stages) && i < |stages| && ReadyAt(stages, i)
    ensures Free(stages, i)
  {
    if ParkedAbove(stages, i) {
      var k :| 0 <= k < |stages| && Parked(stages[k]) && Upstream(stages, stages[i], stages[k].id);
      ReadyUpstream(stages, stages[i], stages[k].id);
      IndexIs(stages, k);
    }
  }

  /**
   * Exactly when the coordinator leaves an active run alone: the budget is not
   * exhausted, no stage has failed, some stage is parked, and every stage it
   * could start lies below a parked one.  After its last transition it looks for
   * pending stages only.
   */
  lemma WaitsExactlyWhen(env: Env, definition: seq<PG.Stage>, profiles: set<string>, r: Runner, run: RunRecord, transitions: nat)
    requires DistinctIds(definition) && Admission.Admissible(definition, profiles) && FromDefinition(definition, run)
    requires Disciplined(env, run) && run.status.Active?
    ensures transitions < r.maxTransitions ==>
              (Decide(r, run, transitions).Waits? <==>
                && !run.budget.exhausted
                && (forall k :: 0 <= k < |run.stages| ==> !run.stages[k].status.Failed?)
                && (exists k :: 0 <= k < |run.stages| && Parked(run.stages[k]))
                && (forall k :: 0 <= k < |run.stages| && Startable(run.stages[k]) ==> ParkedAbove(run.stages, k)))
    ensures transitions >= r.maxTransitions ==>
              (Decide(r, run, transitions).Waits? <==>
                && (run.budget.exhausted ==> AllCompleted(run.stages))
                && (forall k :: 0 <= k < |run.stages| ==> !run.stages[k].status.Pending?))
  {
    DefinitionTable(definition, run.stages);
    NothingReadyExactlyWhen(env, run);
    DecideWaits(r, run, transitions);
    hide HasCycle, StageTable, ParkedAbove, Disciplined, FromDefinition, Decide, AllCompleted, Admission.Admissible;
    if FirstReady(run.stages, 0).None? {
      OpenIsParked(run.stages);
    }
  }

  lemma DecideWaits(r: Runner, run: RunRecord, transitions: nat)
    requires run.status.Active?
    ensures transitions < r.maxTransitions ==>
              (Decide(r, run, transitions).Waits? <==>
                && !run.budget.exhausted && !AllCompleted(run.stages) && FirstReady(run.stages, 0).None?
                && (forall k :: 0 <= k < |run.stages| ==> !run.stages[k].status.Failed?))
    ensures transitions >= r.maxTransitions ==>
              (Decide(r, run, transitions).Waits? <==>
                && (run.budget.exhausted ==> AllCompleted(run.stages))
                && (forall k :: 0 <= k < |run.stages| ==> !run.stages[k].status.Pending?))
  {
    hide DependenciesReady;
  }

  /** With nothing startable outside the parked stages, some stage is open exactly when some stage is parked. */
  lemma OpenIsParked(stages: seq<RunStage>)
    requires forall k :: 0 <= k < |stages| && Startable(stages[k]) ==> ParkedAbove(stages, k)
    ensures AllCompleted(stages) <==> !exists k :: 0 <= k < |stages| && Parked(stages[k])
  {
    if !AllCompleted(stages) {
      var k :| 0 <= k < |stages| && !stages[k].status.Completed?;
      if Startable(stages[k]) {
        assert ParkedAbove(stages, k);
      } else {
        assert Parked(stages[k]);
      }
    }
  }

  lemma NothingReadyExactlyWhen(env: Env, run: RunRecord)
    requires Disciplined(env, run) && !HasCycle(StageTable(run.stages))
    ensures FirstReady(run.stages, 0).None? <==>
              forall k :: 0 <= k < |run.stages| && Startable(run.stages[k]) ==> ParkedAbove(run.stages, k)
  {
    if FirstReady(run.stages, 0).Some? {
      ReadyIsFree(run.stages, FirstReady(run.stages, 0).value);
    }
    forall k | 0 <= k < |run.stages| && Startable(run.stages[k]) && !ParkedAbove(run.stages, k)
      ensures FirstReady(run.stages, 0).Some?
    {
      SomethingIsReady(env, run.stages, k);
    }
  }

  // ---------------------------------------------------------------- interrupted writes

  /** The stage a call is about, if it is about one. */
  function Target(op: Op): Option<Id> {
    match op
    case DoUpdate(id, _) => Some(id)
    case DoApproval(_, id, _) => Some(id)
    case _ => None
  }

  /** Every call of the coordinator is a transition, or is about a pending stage or an interrupted department. */
  lemma TargetsAreStartable(r: Runner, run: RunRecord, transitions: nat, claim: ClaimId, approval: string, op: Op)
    requires DistinctStages(run.stages) && op in Issued(run, Decide(r, run, transitions), claim, approval)
    ensures if op.DoTransition? then true
            else Target(op).Some? && exists k :: 0 <= k < |run.stages| && Some(run.stages[k].id) == Target(op) && Startable(run.stages[k])
  {
    hide DependenciesReady, Startable;
    var d := Decide(r, run, transitions);
    if d.BlocksPending? {
      var k := FirstWith(run.stages, Pending, 0).value;
      PendingIsStartable(run.stages[k]);
      assert Some(run.stages[k].id) == Some(d.id);
    } else if d.AsksApproval? || d.BlocksUnavailable? || d.Claims? {
      var k := FirstReady(run.stages, 0).value;
      assert Some(run.stages[k].id) == Some(d.id);
    }
  }

  lemma PendingIsStartable(s: RunStage)
    requires s.status.Pending?
    ensures Startable(s)
  {
  }

  /** A call about another stage, or a transition, leaves a stage as it is. */
  lemma OthersUntouched(env: Env, run: RunRecord, op: Op, i: nat)
    requires RunOk(env, run) && i < |run.stages| && Target(op) != Some(run.stages[i].id)
    requires op.DoTransition? || op.DoUpdate? || op.DoApproval?
    ensures |After(env, run, op).stages| == |run.stages| && After(env, run, op).stages[i] == run.stages[i]
  {
    if op.DoUpdate? && Step(env, run, op).Ok? {
      var k, u := IndexOf(run.stages, op.stage).value, op.update;
      var s := run.stages[k];
      if !(u.expectedStatus.Some? && s.status != u.expectedStatus.value) {
        MoveStays(env, run, k, Effective(s, if u.status.Some? then u.status.value else s.status), u);
        hide Proceed, Guard;
      }
    }
  }

  /** No call the coordinator makes, in any turn of any run, moves an interrupted stage that is not a department. */
  lemma InterruptedStageIsLeftAlone(env: Env, r: Runner, run: RunRecord, transitions: nat, claim: ClaimId, approval: string, op: Op, i: nat)
    requires Disciplined(env, run) && i < |run.stages|
    requires run.stages[i].status.Interrupted? && !run.stages[i].kind.Department?
    requires op in Issued(run, Decide(r, run, transitions), claim, approval)
    ensures Target(op) != Some(run.stages[i].id)
    ensures |After(env, run, op).stages| == |run.stages| && After(env, run, op).stages[i] == run.stages[i]
  {
    TargetsAreStartable(r, run, transitions, claim, approval, op);
    CallsAreCoordinated(env, r, run, transitions, claim, approval);
    forall k | 0 <= k < |run.stages| && Startable(run.stages[k]) ensures run.stages[k].id != run.stages[i].id {
      assert k != i;
    }
    hide Decide, Issued, After, Disciplined;
    IssuedKinds(r, run, transitions, claim, approval, op);
    OthersUntouched(env, run, op, i);
  }

  lemma IssuedKinds(r: Runner, run: RunRecord, transitions: nat, claim: ClaimId, approval: string, op: Op)
    requires op in Issued(run, Decide(r, run, transitions), claim, approval)
    ensures op.DoTransition? || op.DoUpdate? || op.DoApproval?
  {
  }

  /** So a write resolved for a retry waits for a caller outside: where it is the last open stage, the run stands still. */
  lemma RetriedWriteIsLeftAlone(r: Runner, run: RunRecord, transitions: nat, i: nat)
    requires run.status.Active? && !run.budget.exhausted && i < |run.stages|
    requires run.stages[i].kind.Action? && run.stages[i].status.Interrupted?
    requires forall k | 0 <= k < |run.stages| && k != i :: run.stages[k].status.Completed?
    ensures Parked(run.stages[i]) && Decide(r, run, transitions).Waits?
  {
  }
}
