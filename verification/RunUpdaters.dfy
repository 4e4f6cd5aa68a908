/**
 * The store object: each method works on its own copy of the state step by
 * step, as the updaters of the store do, and writes it back only at the end.
 * Every method is proved equal to the updater function it implements.
 */
module RunUpdaters {
  import opened Common
  import opened PG = PipelineGraph
  import opened RunBudget
  import opened RunState
  import opened RunValidity
  import opened RunGuarantees

  // ---------------------------------------------------------------- the upstream walk

  /** An id the walk must fail on: unknown, or a write without the digest of its receipt. */
  ghost predicate Broken(stages: seq<RunStage>, id: Id) {
    IndexOf(stages, id).None?
    || var c := stages[IndexOf(stages, id).value]; IsWrite(c) && c.receiptDigest.None?
  }

  ghost predicate WithinReach(stages: seq<RunStage>, from: Id, id: Id) {
    id == from || Reaches(StageTable(stages), from, id)
  }

  ghost function DigestsOf(stages: seq<RunStage>, ids: set<Id>): set<Digest> {
    set c | c in stages && c.id in ids && IsWrite(c) && c.receiptDigest.Some? :: c.receiptDigest.value
  }

  /** Apart from the ids still being walked, every visited id is sound, expanded, and its digest collected. */
  ghost predicate Walked(stages: seq<RunStage>, visited: set<Id>, open: set<Id>, digests: set<Digest>) {
    && open <= visited
    && (forall id :: id in visited && id !in open ==> !Broken(stages, id))
    && (forall id :: id in visited && id !in open && IndexOf(stages, id).Some? ==>
          forall d :: d in stages[IndexOf(stages, id).value].dependsOn ==> d in visited)
    && digests == DigestsOf(stages, visited - open)
  }

  lemma ReachIsUpstream(stages: seq<RunStage>, s: RunStage, d: Id, id: Id)
    requires d in s.dependsOn && WithinReach(stages, d, id)
    ensures Upstream(stages, s, id)
  {
    assert d == id || Reaches(StageTable(stages), d, id);
  }

  lemma StepWithinReach(stages: seq<RunStage>, from: Id, d: Id, id: Id)
    requires DistinctStages(stages) && IndexOf(stages, from).Some?
    requires d in stages[IndexOf(stages, from).value].dependsOn
    requires WithinReach(stages, d, id)
    ensures WithinReach(stages, from, id)
  {
    TableAt(stages, IndexOf(stages, from).value);
    EdgeReaches(StageTable(stages), from, d);
    if id != d { ReachesTransitive(StageTable(stages), from, d, id); }
  }

  lemma CollectOne(stages: seq<RunStage>, k: nat, ids: set<Id>)
    requires DistinctStages(stages) && k < |stages|
    ensures DigestsOf(stages, ids + {stages[k].id})
         == DigestsOf(stages, ids) + (if IsWrite(stages[k]) && stages[k].receiptDigest.Some? then {stages[k].receiptDigest.value} else {})
  {
    var s := stages[k];
    assert s in stages;
    forall c | c in stages && c.id == s.id ensures c == s {
      var m :| 0 <= m < |stages| && stages[m] == c;
    }
    assert forall c :: c in stages && c.id in ids + {s.id} ==> c.id in ids || c == s;
  }

  ghost function KnownIds(stages: seq<RunStage>): set<Id> {
    set s | s in stages :: s.id
  }

  /** The recursive visit; it terminates on every graph because visited ids are never expanded twice. */
  method VisitUpstream(stages: seq<RunStage>, stageId: Id, visited: set<Id>, digests: set<Digest>, ghost open: set<Id>)
    returns (ok: bool, seen: set<Id>, collected: set<Digest>)
    requires DistinctStages(stages) && Walked(stages, visited, open, digests)
    ensures ok ==> Walked(stages, seen, open, collected) && visited <= seen && stageId in seen
    ensures ok ==> forall id :: id in seen && id !in visited ==> WithinReach(stages, stageId, id)
    ensures !ok ==> exists id :: WithinReach(stages, stageId, id) && Broken(stages, id)
    decreases KnownIds(stages) - visited
  {
    if stageId in visited { return true, visited, digests; }
    seen, collected := visited + {stageId}, digests;
    var index := IndexOf(stages, stageId);
    if index.None? {
      assert WithinReach(stages, stageId, stageId) && Broken(stages, stageId);
      return false, seen, collected;
    }
    var candidate := stages[index.value];
    assert candidate in stages && stageId in KnownIds(stages);
    assert seen - (open + {stageId}) == visited - open;
    var i := 0;
    while i < |candidate.dependsOn|
      invariant 0 <= i <= |candidate.dependsOn|
      invariant visited + {stageId} <= seen
      invariant Walked(stages, seen, open + {stageId}, collected)
      invariant forall j :: 0 <= j < i ==> candidate.dependsOn[j] in seen
      invariant forall id :: id in seen && id !in visited ==> WithinReach(stages, stageId, id)
    {
      var d := candidate.dependsOn[i];
      ghost var before := seen;
      ok, seen, collected := VisitUpstream(stages, d, seen, collected, open + {stageId});
      if !ok {
        ghost var id :| WithinReach(stages, d, id) && Broken(stages, id);
        StepWithinReach(stages, stageId, d, id);
        return;
      }
      forall id | id in seen && id !in visited ensures WithinReach(stages, stageId, id) {
        if id !in before { StepWithinReach(stages, stageId, d, id); }
      }
      i := i + 1;
    }
    if IsWrite(candidate) {
      if candidate.receiptDigest.None? {
        assert WithinReach(stages, stageId, stageId) && Broken(stages, stageId);
        return false, seen, collected;
      }
      collected := collected + {candidate.receiptDigest.value};
    }
    CollectOne(stages, index.value, seen - (open + {stageId}));
    assert seen - open == seen - (open + {stageId}) + {stageId} by {
      assert stageId !in visited && open <= visited;
    }
    ok := true;
  }

  /** The walk terminates on any graph; it fails iff the lineage is incomplete, and otherwise collects exactly the upstream digests. */
  method UpstreamActionReceiptDigests(stages: seq<RunStage>, stage: RunStage) returns (r: Option<set<Digest>>)
    requires DistinctStages(stages)
    ensures r.Some? <==> LineageComplete(stages, stage)
    ensures r.Some? ==> r.value == LineageDigests(stages, stage)
  {
    var visited: set<Id>, digests: set<Digest> := {}, {};
    assert DigestsOf(stages, {}) == {};
    var i := 0;
    while i < |stage.dependsOn|
      invariant 0 <= i <= |stage.dependsOn|
      invariant Walked(stages, visited, {}, digests)
      invariant forall j :: 0 <= j < i ==> stage.dependsOn[j] in visited
      invariant forall id :: id in visited ==> Upstream(stages, stage, id)
    {
      ghost var before := visited;
      var ok;
      ok, visited, digests := VisitUpstream(stages, stage.dependsOn[i], visited, digests, {});
      if !ok {
        ghost var id :| WithinReach(stages, stage.dependsOn[i], id) && Broken(stages, id);
        ReachIsUpstream(stages, stage, stage.dependsOn[i], id);
        return None;
      }
      forall id | id in visited ensures Upstream(stages, stage, id) {
        if id !in before { ReachIsUpstream(stages, stage, stage.dependsOn[i], id); }
      }
      i := i + 1;
    }
    forall id | Upstream(stages, stage, id) ensures id in visited {
      UpstreamIsVisited(stages, stage, visited, digests, id);
    }
    assert visited - {} == visited;
    assert digests == LineageDigests(stages, stage);
    return Some(digests);
  }

  lemma UpstreamIsVisited(stages: seq<RunStage>, stage: RunStage, visited: set<Id>, digests: set<Digest>, id: Id)
    requires DistinctStages(stages) && Walked(stages, visited, {}, digests) && Upstream(stages, stage, id)
    requires forall d :: d in stage.dependsOn ==> d in visited
    ensures id in visited
  {
    var d :| d in stage.dependsOn && (d == id || Reaches(StageTable(stages), d, id));
    if d != id {
      var p :| Walk(StageTable(stages), d, p, id);
      WalkIsVisited(stages, visited, digests, p, |p| - 1);
    }
  }

  lemma {:induction false} WalkIsVisited(stages: seq<RunStage>, visited: set<Id>, digests: set<Digest>, p: seq<Id>, i: nat)
    requires DistinctStages(stages) && Walked(stages, visited, {}, digests)
    requires Chain(StageTable(stages), p) && p[0] in visited && i < |p|
    ensures p[i] in visited
    decreases i
  {
    if i > 0 {
      WalkIsVisited(stages, visited, digests, p, i - 1);
      assert !Broken(stages, p[i - 1]);
      TableAt(stages, IndexOf(stages, p[i - 1]).value);
    }
  }

  // ---------------------------------------------------------------- the store object

  /** What a method leaves behind: the new state when it succeeds, the old one when it throws. */
  function Written(before: RunRecord, r: Result<RunRecord, RunError>): RunRecord {
    if r.Ok? then r.value else before
  }

  ghost function Prepend(done: seq<RunStage>, r: Result<(seq<RunStage>, Option<Receipt>), RunError>)
    : Result<(seq<RunStage>, Option<Receipt>), RunError>
  {
    match r
    case Err(e) => Err(e)
    case Ok(rest) => Ok((done + rest.0, rest.1))
  }

  lemma PrependNothing(r: Result<(seq<RunStage>, Option<Receipt>), RunError>)
    ensures Prepend([], r) == r
  {
    if r.Ok? { assert [] + r.value.0 == r.value.0; }
  }

  lemma PrependError(done: seq<RunStage>, e: RunError)
    ensures Prepend(done, Err(e)) == Err(e)
  {
  }

  lemma ResolutionIsThere(env: Env, s: RunStage, marker: Receipt)
    requires ApplyResolution(env, s, marker).Ok?
    ensures ApplyResolution(env, s, marker).value.resolution.Some?
  {
  }

  lemma ResolveNone(env: Env, m: Markers, count: nat, last: Option<Receipt>, done: seq<RunStage>)
    ensures Prepend(done, ResolveAll(env, [], m, count, last)) == Ok((done, last))
  {
    assert done + [] == done;
  }

  /** One round of the resolution, on the first stage. */
  lemma ResolveFirst(env: Env, stages: seq<RunStage>, m: Markers, count: nat, last: Option<Receipt>)
    requires |stages| > 0
    ensures var s := stages[0];
            var marker := MarkerFor(m, s.id, count);
            ResolveAll(env, stages, m, count, last) ==
              if !NeedsResolution(s) then Prepend([s], ResolveAll(env, stages[1..], m, count, last))
              else if marker.None? then Err(WriteResolutionRequired)
              else
                var resolved := ApplyResolution(env, s, marker.value);
                if resolved.Err? then Err(resolved.error)
                else if resolved.value.resolution.value.outcome.Retry? then Prepend([resolved.value], ResolveAll(env, stages[1..], m, count, last))
                else if last.Some? && last.value.workspaceDigest != marker.value.workspaceDigest then Err(ResolutionConflict)
                else Prepend([resolved.value], ResolveAll(env, stages[1..], m, count, marker))
  {
  }

  lemma PrependTwice(done: seq<RunStage>, s: RunStage, r: Result<(seq<RunStage>, Option<Receipt>), RunError>)
    ensures Prepend(done, Prepend([s], r)) == Prepend(done + [s], r)
  {
    if r.Ok? { assert done + ([s] + r.value.0) == (done + [s]) + r.value.0; }
  }

  lemma MovedKeepsId(env: Env, run: RunRecord, s: RunStage, status: StageStatus, u: Update)
    requires Move(env, run, s, status, u).Ok?
    ensures Move(env, run, s, status, u).value.0.id == s.id
  {
  }

  class PipelineRunStore {
    var state: RunRecord

    constructor (initial: RunRecord)
      ensures state == initial
    {
      state := initial;
    }

    method SetStatus(status: RunStatus) returns (r: Result<RunRecord, RunError>)
      modifies this
      ensures r == Transition(old(state), status) && state == Written(old(state), r)
    {
      if state.status == status { return Ok(state); }
      if status !in RunEdges(state.status) { return Err(StatusTransitionInvalid); }
      if Terminal(status) {
        if exists s :: s in state.stages && WriteUnresolved(s) { return Err(WriteResolutionRequired); }
        if exists s :: s in state.stages && s.status.Running? { return Err(StageActive); }
        if status.CompletedRun? && exists s :: s in state.stages && (!s.status.Completed? || !DurableCompletion(s)) {
          return Err(CompletionGateFailed);
        }
      }
      state := state.(status := status);
      return Ok(state);
    }

    /** The stages of a stopped run, one by one. */
    method StopStages() returns (stages: seq<RunStage>)
      ensures stages == StopAll(state.stages)
    {
      stages := [];
      var i := 0;
      while i < |state.stages|
        invariant 0 <= i <= |state.stages| && |stages| == i
        invariant forall j :: 0 <= j < i ==> stages[j] == StopStage(state.stages[j])
      {
        var s := state.stages[i];
        if s.status.Running? {
          s := s.(status := if IsWrite(s) then Uncertain else Interrupted, uncertain := IsWrite(s));
        }
        stages := stages + [s];
        i := i + 1;
      }
    }

    method CancelRun() returns (r: Result<RunRecord, RunError>)
      modifies this
      ensures r == Cancel(old(state)) && state == Written(old(state), r)
    {
      if state.status.CancelledRun? { return Ok(state); }
      if Terminal(state.status) { return Err(StatusTransitionInvalid); }
      var unresolvedWrite := exists s :: s in state.stages && WriteUnresolved(s);
      var stages := StopStages();
      state := state.(status := if unresolvedWrite then InterruptedRun else CancelledRun, stages := stages);
      return Ok(state);
    }

    method RecoverRun() returns (r: Result<RunRecord, RunError>)
      modifies this
      ensures r == RecoverInterrupted(old(state)) && state == Written(old(state), r)
    {
      var activeAtCommit := exists s :: s in state.stages && s.status.Running?;
      if Terminal(state.status) || (!state.status.Active? && !activeAtCommit) { return Ok(state); }
      var stages := StopStages();
      state := state.(status := InterruptedRun, stages := stages);
      return Ok(state);
    }

    /** The resolution loop of resume: it stops at the first missing, refused or conflicting marker. */
    method ResolveStages(env: Env, stages: seq<RunStage>, m: Markers, count: nat)
      returns (r: Result<(seq<RunStage>, Option<Receipt>), RunError>)
      ensures r == ResolveAll(env, stages, m, count, None)
    {
      hide ResolveAll, ApplyResolution, Prepend;
      var done: seq<RunStage> := [];
      var checkpointMarker: Option<Receipt> := None;
      var i := 0;
      assert stages[0..] == stages;
      PrependNothing(ResolveAll(env, stages, m, count, None));
      while i < |stages|
        invariant 0 <= i <= |stages|
        invariant ResolveAll(env, stages, m, count, None)
               == Prepend(done, ResolveAll(env, stages[i..], m, count, checkpointMarker))
      {
        var s := stages[i];
        assert stages[i..][0] == s && stages[i..][1..] == stages[i + 1..];
        ResolveFirst(env, stages[i..], m, count, checkpointMarker);
        if NeedsResolution(s) {
          var marker := MarkerFor(m, s.id, count);
          if marker.None? {
            PrependError(done, WriteResolutionRequired);
            return Err(WriteResolutionRequired);
          }
          var resolved := ApplyResolution(env, s, marker.value);
          if resolved.Err? {
            PrependError(done, resolved.error);
            return Err(resolved.error);
          }
          ResolutionIsThere(env, s, marker.value);
          s := resolved.value;
          if !s.resolution.value.outcome.Retry? {
            if checkpointMarker.Some? && checkpointMarker.value.workspaceDigest != marker.value.workspaceDigest {
              PrependError(done, ResolutionConflict);
              return Err(ResolutionConflict);
            }
            checkpointMarker := marker;
          }
        }
        PrependTwice(done, s, ResolveAll(env, stages[i + 1..], m, count, checkpointMarker));
        done := done + [s];
        i := i + 1;
      }
      assert stages[i..] == [];
      ResolveNone(env, m, count, checkpointMarker, done);
      return Ok((done, checkpointMarker));
    }

    method ResumeRun(env: Env, m: Markers) returns (r: Result<RunRecord, RunError>)
      modifies this
      ensures r == Resume(env, old(state), m) && state == Written(old(state), r)
    {
      if !(state.status.Paused? || state.status.InterruptedRun? || state.status.BlockedRun?) { return Err(ResumeInvalid); }
      var stages := state.stages;
      if state.status.BlockedRun? {
        stages := seq(|state.stages|, i requires 0 <= i < |state.stages| reads this => Rearm(state.stages[i]));
        assert stages == seq(|old(state).stages|, i requires 0 <= i < |old(state).stages| => Rearm(old(state).stages[i]));
      }
      var resolved := ResolveStages(env, stages, m, CountUncertain(stages));
      if resolved.Err? { return Err(resolved.error); }
      var checkpoint := state.checkpoint;
      var marker := resolved.value.1;
      if marker.Some? {
        if marker.value.workspaceDigest.None? || !marker.value.observed { return Err(ResolutionInvalid); }
        checkpoint := marker.value.workspaceDigest.value;
      }
      state := state.(status := Active, stages := resolved.value.0, checkpoint := checkpoint);
      return Ok(state);
    }

    /** The charge for starting a stage, and the crash retry it uses up. */
    method StartStage(base: RunStage) returns (r: Result<(RunStage, Budget), RunError>)
      ensures r == Start(base, state.budget)
    {
      if IsWrite(base) && base.resolution.Some? && (base.resolution.value.outcome.Applied? || base.resolution.value.outcome.Abandoned?) {
        return Err(ResolutionOutcomeInvalid);
      }
      var crashRetryAuthorized := CrashRetry(base);
      if base.attempts >= MaxAttempts(base) && !crashRetryAuthorized { return Err(RetryExhausted); }
      var budget := state.budget;
      if base.attempts > 0 {
        var cycles := Get(budget.consumed, RepairCycles);
        if !Whole(cycles) || cycles < 0.0 { return Err(BudgetRefused(UsageInvalid)); }
        if RepairCycles in budget.limits && cycles >= budget.limits[RepairCycles] { return Err(BudgetRefused(Exhausted)); }
        var exhausted := RepairCycles in budget.limits && cycles + 1.0 >= budget.limits[RepairCycles];
        budget := budget.(consumed := budget.consumed[RepairCycles := cycles + 1.0], exhausted := budget.exhausted || exhausted);
      }
      var stage := base;
      if crashRetryAuthorized {
        stage := stage.(resolution := Some(stage.resolution.value.(retryConsumed := true)));
      }
      return Ok((stage, budget));
    }

    /** The guarded stage update, in the order of its checks. */
    method UpdateStageTo(env: Env, id: Id, u: Update) returns (r: Result<RunRecord, RunError>)
      requires DistinctStages(state.stages)
      modifies this
      ensures r == UpdateStage(env, old(state), id, u) && state == Written(old(state), r)
    {
      if !state.status.Active? { return Err(RunInactive); }
      var index := IndexOf(state.stages, id);
      if index.None? { return Err(StageNotFound); }
      var current := state.stages[index.value];
      if u.expectedStatus.Some? && current.status != u.expectedStatus.value { return Ok(state); }
      var refused := Guard(env, state, current, u);
      if refused.Some? { return Err(refused.value); }
      var status := Effective(current, if u.status.Some? then u.status.value else current.status);
      r := ProceedTo(env, state, index.value, status, u);
      if r.Ok? { state := r.value; }
    }

    /** After the guards: the status change, then the receipt of a write, then the receipt of a gate. */
    method ProceedTo(env: Env, run: RunRecord, i: nat, status: StageStatus, u: Update) returns (r: Result<RunRecord, RunError>)
      requires i < |run.stages| && DistinctStages(run.stages) && run == state
      ensures r == Proceed(env, run, i, status, u)
    {
      var current := run.stages[i];
      var moved := MoveTo(env, current, status, u);
      if moved.Err? { return Err(moved.error); }
      var next := moved.value.0;
      var after := WithStage(run, i, next).(budget := moved.value.1);
      if IsWrite(current) && current.status.Running? && status.Completed? {
        if u.actionReceipt.None? { return Err(ActionReceiptInvalid); }
        var acted := FinishAction(env, after, i, next, u.actionReceipt.value);
        if acted.Err? { return Err(acted.error); }
        after := acted.value;
      }
      if current.kind.TruthGate? && status.Completed? {
        if u.gateReceipt.None? { return Err(GateReceiptInvalid); }
        MovedKeepsId(env, run, current, status, u);
        forall a, b | 0 <= a < b < |after.stages| ensures after.stages[a].id != after.stages[b].id {
          assert run.stages[a].id != run.stages[b].id;
        }
        r := FinishGateOf(env, after, i, current, u.gateReceipt.value);
        return;
      }
      return Ok(after);
    }

    method MoveTo(env: Env, current: RunStage, status: StageStatus, u: Update) returns (r: Result<(RunStage, Budget), RunError>)
      ensures r == Move(env, state, current, status, u)
    {
      var base := current;
      if NeedsResolution(current) && !status.Uncertain? {
        if u.marker.None? { return Err(WriteResolutionRequired); }
        var resolved := ApplyResolution(env, current, u.marker.value);
        if resolved.Err? { return Err(resolved.error); }
        if status.Running? && !resolved.value.status.Interrupted? { return Err(ResolutionOutcomeInvalid); }
        if (status.Completed? || status.Failed?) && resolved.value.status != status { return Err(ResolutionOutcomeInvalid); }
        base := resolved.value;
      } else if current.status != status && status !in StageEdges(current.status) {
        return Err(StageTransitionInvalid);
      }
      var budget := state.budget;
      var starting := status.Running? && !base.status.Running?;
      var attempts := base.attempts + if starting then 1 else 0;
      if status.Running? && !current.status.Running? {
        var started := StartStage(base);
        if started.Err? { return Err(started.error); }
        base, budget := started.value.0, started.value.1;
      }
      var before := base.digestBefore;
      if IsWrite(base) && starting {
        if u.digestBefore.Some? { before := u.digestBefore; }
        if before.None? { return Err(BaselineRequired); }
        if before.value != state.checkpoint { return Err(WorkspaceChanged); }
      }
      return Ok((base.(status := status, attempts := attempts,
                       claim := if u.claim.Some? then u.claim else base.claim,
                       uncertain := status.Uncertain? || base.uncertain, digestBefore := before), budget));
    }

    method FinishGateOf(env: Env, run: RunRecord, i: nat, current: RunStage, receipt: Receipt) returns (r: Result<RunRecord, RunError>)
      requires i < |run.stages| && DistinctStages(run.stages)
      ensures r == FinishGate(env, run, i, current, receipt)
    {
      var expected := UpstreamActionReceiptDigests(run.stages, current);
      if expected.None? { return Err(LineageInvalid); }
      if receipt.workspaceDigest.None? || !receipt.observed || !CitesOk(receipt.cites)
         || expected.value != set d | d in receipt.cites.value {
        return Err(GateReceiptInvalid);
      }
      var stamped := run.stages[i].(gateReceipt := Some(receipt), gateDigest := Some(env.digest(receipt)));
      return Ok(run.(stages := run.stages[i := stamped], checkpoint := receipt.workspaceDigest.value));
    }

    method RecordArtifactOf(env: Env, a: Artifact) returns (r: Result<RunRecord, RunError>)
      modifies this
      ensures r == RecordArtifact(env, old(state), a) && state == Written(old(state), r)
    {
      if |state.artifacts| >= MAX_ARTIFACTS { return Err(ArtifactLimit); }
      var index := IndexOf(state.stages, a.stageId);
      if index.None? { return Err(StageNotFound); }
      var s := state.stages[index.value];
      if !ArtifactFits(env, s, a) { return Err(ArtifactInvalid); }
      if HasArtifact(state, a.id) { return Err(ArtifactExists); }
      state := state.(artifacts := state.artifacts + [a],
                      stages := state.stages[index.value := s.(artifactIds := s.artifactIds + [a.id])]);
      return Ok(state);
    }

    method FailDepartmentWithUsage(id: Id, usage: Charge, expectedClaim: Option<ClaimId>) returns (r: Result<RunRecord, RunError>)
      modifies this
      ensures r == FailDepartment(old(state), id, usage, expectedClaim) && state == Written(old(state), r)
    {
      var at := DepartmentAt(state, id, expectedClaim);
      if at.Err? { return Err(at.error); }
      var charged := ApplyBudgetDelta(state.budget, usage);
      if charged.Err? { return Err(BudgetRefused(charged.error)); }
      var i := at.value;
      state := state.(budget := charged.value, stages := state.stages[i := state.stages[i].(status := Failed)]);
      return Ok(state);
    }

    method CompleteDepartmentWithArtifact(env: Env, id: Id, a: Artifact, usage: Option<Charge>, expectedClaim: Option<ClaimId>)
      returns (r: Result<RunRecord, RunError>)
      modifies this
      ensures r == CompleteDepartment(env, old(state), id, a, usage, expectedClaim) && state == Written(old(state), r)
    {
      var at := DepartmentAt(state, id, expectedClaim);
      if at.Err? { return Err(at.error); }
      var i := at.value;
      var s := state.stages[i];
      if |s.artifactIds| > 0 { return Err(DepartmentArtifactExists); }
      if |state.artifacts| >= MAX_ARTIFACTS { return Err(ArtifactLimit); }
      if !ArtifactFits(env, s, a) { return Err(ArtifactInvalid); }
      if HasArtifact(state, a.id) { return Err(ArtifactExists); }
      var budget := state.budget;
      if usage.Some? {
        var charged := ApplyBudgetDelta(budget, usage.value);
        if charged.Err? { return Err(BudgetRefused(charged.error)); }
        budget := charged.value;
      }
      state := state.(artifacts := state.artifacts + [a], budget := budget,
                      stages := state.stages[i := s.(status := Completed, artifactIds := s.artifactIds + [a.id])]);
      return Ok(state);
    }

    method UpdateBudgetBy(supplied: Amounts, unmetered: Option<int>) returns (r: Result<RunRecord, RunError>)
      modifies this
      ensures r == UpdateBudget(old(state), supplied, unmetered) && state == Written(old(state), r)
    {
      var patched := ApplyBudgetPatch(state.budget, supplied, unmetered);
      if patched.Err? { return Err(BudgetRefused(patched.error)); }
      state := state.(budget := patched.value);
      return Ok(state);
    }

    method RecordDecision(id: string, stageId: Id, d: Decision) returns (r: Result<RunRecord, RunError>)
      modifies this
      ensures r == RecordApproval(old(state), id, stageId, d) && state == Written(old(state), r)
    {
      if exists a :: a in state.approvals && a.id == id && a.status == d { return Ok(state); }
      if |state.approvals| >= MAX_APPROVALS { return Err(ApprovalLimit); }
      if !(state.status.Active? || state.status.Paused? || state.status.AwaitingDecision?) { return Err(ApprovalTransitionInvalid); }
      var index := IndexOf(state.stages, stageId);
      if index.None? { return Err(ApprovalStageInvalid); }
      var stage := state.stages[index.value];
      if !stage.kind.Approval? { return Err(ApprovalStageInvalid); }
      if !DependenciesReady(state.stages, stage) { return Err(ApprovalDependenciesIncomplete); }
      if Decided(state, stageId) || !(stage.status.Pending? || stage.status.AwaitingApproval?) { return Err(ApprovalTransitionInvalid); }
      if d.Requested? {
        if !stage.status.Pending? || exists a :: a in state.approvals && a.stageId == stageId && a.status.Requested? {
          return Err(ApprovalTransitionInvalid);
        }
        stage := stage.(status := AwaitingApproval, attempts := stage.attempts + 1);
      } else {
        stage := stage.(status := if d.Approved? then Completed else if d.Rejected? then Failed else Cancelled,
                        attempts := if stage.attempts < 1 then 1 else stage.attempts);
      }
      state := state.(stages := state.stages[index.value := stage],
                      approvals := state.approvals + [ApprovalRecord(id, stageId, d)]);
      return Ok(state);
    }

    method Attach(id: string) returns (r: Result<RunRecord, RunError>)
      modifies this
      ensures r == AttachSession(old(state), id) && state == Written(old(state), r)
    {
      if id !in state.sessions { state := state.(sessions := state.sessions + [id]); }
      return Ok(state);
    }

    /** One call through the mutation gate: terminal runs are closed to everything but run-level calls. */
    method Mutate(env: Env, op: Op) returns (r: Result<RunRecord, RunError>)
      requires RunOk(env, state)
      modifies this
      ensures r == Step(env, old(state), op) && state == After(env, old(state), op)
      ensures !Harmful(old(state), op) ==> RunOk(env, state)
    {
      if Terminal(state.status) && !RunLevel(op) { return Err(RunTerminal); }
      match op {
        case DoTransition(status) => r := SetStatus(status);
        case DoCancel => r := CancelRun();
        case DoRecover => r := RecoverRun();
        case DoResume(m) => r := ResumeRun(env, m);
        case DoAttach(id) => r := Attach(id);
        case DoUpdate(id, u) => r := UpdateStageTo(env, id, u);
        case DoArtifact(a) => r := RecordArtifactOf(env, a);
        case DoFailDepartment(id, usage, c) => r := FailDepartmentWithUsage(id, usage, c);
        case DoCompleteDepartment(id, a, usage, c) => r := CompleteDepartmentWithArtifact(env, id, a, usage, c);
        case DoBudget(supplied, unmetered) => r := UpdateBudgetBy(supplied, unmetered);
        case DoApproval(id, stage, d) => r := RecordDecision(id, stage, d);
      }
      if r.Ok? && !Harmful(old(state), op) { StepKeeps(env, old(state), op); }
    }
  }
}
