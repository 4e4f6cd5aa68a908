/** The path condition of an action stage and the verdict on a whole definition. */
module PipelineAdmission {
  import opened Common
  import opened PipelineGraph

  datatype Violation =
    | StagesInvalid
    | ProfileUnavailable
    | DependencyUnavailable
    | HelpUnavailable
    | GraphCycle
    | TransitionUnsafe

  // ---------------------------------------------------------------- inbound paths

  /** A walk up the dependencies that goes as far as it can: to a root, to the nearest truth gate, or to an unknown id. */
  ghost predicate Inbound(g: Graph, p: seq<Id>) {
    && Chain(Deps(g), p)
    && (forall i :: 0 <= i < |p| - 1 ==> p[i] in g && !g[p[i]].kind.TruthGate?)
    && var last := p[|p| - 1];
       last in g ==> g[last].kind.TruthGate? || g[last].dependsOn == []
  }

  /** The walk ends at a known stage and meets an approval stage. */
  ghost predicate Crosses(g: Graph, p: seq<Id>)
    requires |p| >= 1
  {
    p[|p| - 1] in g && exists i :: 0 <= i < |p| && p[i] in g && g[p[i]].kind.Approval?
  }

  /** Every way from `id` upwards crosses an approval, unless one was already crossed below it. */
  ghost predicate Covered(g: Graph, id: Id, approved: bool) {
    forall p :: Inbound(g, p) && p[0] == id ==> p[|p| - 1] in g && (approved || Crosses(g, p))
  }

  /** The declarative condition: the stage has dependencies and every inbound path crosses an approval. */
  ghost predicate EveryPathCrosses(g: Graph, start: Id) {
    && start in g && g[start].dependsOn != []
    && forall p :: Inbound(g, p) && p[0] in g[start].dependsOn ==> Crosses(g, p)
  }

  ghost function Above(g: Graph, id: Id): set<Id> {
    if id in g then {id} + AncestorsOf(g, id) else {}
  }

  lemma CycleThrough(g: Graph, id: Id, d: Id)
    requires id in g && d in g[id].dependsOn && d in g && id in Above(g, d)
    ensures HasCycle(Deps(g))
  {
    var e := Deps(g);
    EdgeReaches(e, id, d);
    if id != d { ReachesTransitive(e, id, d, id); }
    assert id in e && Reaches(e, id, id);
  }

  lemma AboveShrinks(g: Graph, id: Id, d: Id)
    requires !HasCycle(Deps(g)) && id in g && d in g[id].dependsOn
    ensures Above(g, d) < Above(g, id)
  {
    var e := Deps(g);
    if d in g {
      EdgeReaches(e, id, d);
      forall x | x in Above(g, d) ensures x in Above(g, id) {
        if x != d { ReachesTransitive(e, id, d, x); }
      }
      if id in Above(g, d) { CycleThrough(g, id, d); }
    }
    assert id in Above(g, id) && id !in Above(g, d);
  }

  lemma InboundTail(g: Graph, p: seq<Id>)
    requires Inbound(g, p) && |p| >= 2
    ensures Inbound(g, p[1..]) && p[0] in g && p[1] in g[p[0]].dependsOn
  {
    var q := p[1..];
    assert forall i :: 0 <= i < |q| ==> q[i] == p[i + 1];
  }

  lemma InboundCons(g: Graph, id: Id, q: seq<Id>)
    requires Inbound(g, q) && id in g && q[0] in g[id].dependsOn && !g[id].kind.TruthGate?
    ensures Inbound(g, [id] + q)
  {
    var p := [id] + q;
    assert forall i :: 0 <= i < |q| ==> p[i + 1] == q[i];
  }

  lemma CrossesCons(g: Graph, id: Id, q: seq<Id>)
    requires |q| >= 1 && id in g
    ensures Crosses(g, [id] + q) <==> q[|q| - 1] in g && (g[id].kind.Approval? || Crosses(g, q))
  {
    var p := [id] + q;
    assert p[|p| - 1] == q[|q| - 1];
    if Crosses(g, p) && !g[id].kind.Approval? {
      var i :| 0 <= i < |p| && p[i] in g && g[p[i]].kind.Approval?;
      assert q[i - 1] == p[i];
    }
    if q[|q| - 1] in g && g[id].kind.Approval? {
      assert p[0] == id;
    }
    if Crosses(g, q) {
      var i :| 0 <= i < |q| && q[i] in g && g[q[i]].kind.Approval?;
      assert p[i + 1] == q[i];
    }
  }

  /** Nothing more to walk: the answer is what was crossed so far, this stage included. */
  lemma CoveredAtEnd(g: Graph, id: Id, approved: bool)
    requires id in g ==> g[id].kind.TruthGate? || g[id].dependsOn == []
    ensures Covered(g, id, approved) <==> id in g && (approved || g[id].kind.Approval?)
  {
    assert Inbound(g, [id]);
    assert Crosses(g, [id]) <==> id in g && g[id].kind.Approval? by {
      if id in g && g[id].kind.Approval? { assert [id][0] == id; }
    }
    forall p | Inbound(g, p) && p[0] == id ensures p == [id] {
      if |p| >= 2 { InboundTail(g, p); }
    }
  }

  /** One step: a stage is covered exactly when all its dependencies are, counting itself if it is an approval. */
  lemma CoveredStep(g: Graph, id: Id, approved: bool)
    requires id in g && !g[id].kind.TruthGate? && g[id].dependsOn != []
    ensures Covered(g, id, approved)
       <==> forall d :: d in g[id].dependsOn ==> Covered(g, d, approved || g[id].kind.Approval?)
  {
    var next := approved || g[id].kind.Approval?;
    if Covered(g, id, approved) {
      forall d | d in g[id].dependsOn ensures Covered(g, d, next) {
        forall q | Inbound(g, q) && q[0] == d ensures q[|q| - 1] in g && (next || Crosses(g, q)) {
          InboundCons(g, id, q);
          CrossesCons(g, id, q);
          var p := [id] + q;
          assert Inbound(g, p) && p[0] == id && p[|p| - 1] == q[|q| - 1];
        }
      }
    }
    if forall d :: d in g[id].dependsOn ==> Covered(g, d, next) {
      forall p | Inbound(g, p) && p[0] == id ensures p[|p| - 1] in g && (approved || Crosses(g, p)) {
        assert |p| >= 2;
        InboundTail(g, p);
        var q := p[1..];
        assert Covered(g, q[0], next);
        CrossesCons(g, id, q);
        assert [id] + q == p;
      }
    }
  }

  type Memo = map<(Id, bool), bool>

  ghost predicate MemoOk(g: Graph, memo: Memo) {
    forall k :: k in memo ==> memo[k] == Covered(g, k.0, k.1)
  }

  /** The memoised visit of everyInboundPathApproved. */
  method VisitInbound(g: Graph, stageId: Id, approved: bool, memo: Memo) returns (r: bool, after: Memo)
    requires !HasCycle(Deps(g)) && MemoOk(g, memo)
    ensures r == Covered(g, stageId, approved)
    ensures MemoOk(g, after)
    decreases Above(g, stageId), 1
  {
    after := memo;
    if (stageId, approved) in memo {
      return memo[(stageId, approved)], after;
    }
    if stageId !in g {
      CoveredAtEnd(g, stageId, approved);
      return false, after;
    }
    var stage := g[stageId];
    if stage.kind.TruthGate? {
      CoveredAtEnd(g, stageId, approved);
      return approved, after;
    }
    var nextApproved := approved || stage.kind.Approval?;
    if stage.dependsOn == [] {
      CoveredAtEnd(g, stageId, approved);
      r := nextApproved;
    } else {
      CoveredStep(g, stageId, approved);
      forall d | d in stage.dependsOn ensures Above(g, d) < Above(g, stageId) {
        AboveShrinks(g, stageId, d);
      }
      r, after := VisitEvery(g, stage.dependsOn, nextApproved, memo, Above(g, stageId));
    }
    after := after[(stageId, approved) := r];
  }

  /** The every() over the dependencies: it stops at the first one that is not covered. */
  method VisitEvery(g: Graph, ids: seq<Id>, approved: bool, memo: Memo, ghost bound: set<Id>) returns (r: bool, after: Memo)
    requires !HasCycle(Deps(g)) && MemoOk(g, memo)
    requires forall d :: d in ids ==> Above(g, d) < bound
    ensures r <==> forall d :: d in ids ==> Covered(g, d, approved)
    ensures MemoOk(g, after)
    decreases bound, 0
  {
    after := memo;
    var i := 0;
    while i < |ids|
      invariant 0 <= i <= |ids|
      invariant MemoOk(g, after)
      invariant forall j :: 0 <= j < i ==> Covered(g, ids[j], approved)
    {
      assert ids[i] in ids;
      r, after := VisitInbound(g, ids[i], approved, after);
      if !r { return; }
      i := i + 1;
    }
    r := true;
  }

  /** The memoised walk decides exactly the path condition, on every acyclic graph. */
  method EveryInboundPathApproved(startId: Id, g: Graph) returns (r: bool)
    requires !HasCycle(Deps(g))
    ensures r <==> EveryPathCrosses(g, startId)
  {
    if startId !in g || g[startId].dependsOn == [] { return false; }
    forall d | d in g[startId].dependsOn ensures Above(g, d) < Above(g, startId) {
      AboveShrinks(g, startId, d);
    }
    var memo;
    r, memo := VisitEvery(g, g[startId].dependsOn, false, map[], Above(g, startId));
    if r {
      forall p | Inbound(g, p) && p[0] in g[startId].dependsOn ensures Crosses(g, p) {
        assert Covered(g, p[0], false);
      }
    }
  }

  // ---------------------------------------------------------------- the verdict

  /** An approval that itself consumes a department is a direct dependency. */
  ghost predicate DirectDepartmentApproval(g: Graph, s: Stage) {
    exists a, d :: a in s.dependsOn && a in g && g[a].kind.Approval? && d in g[a].dependsOn && d in g && g[d].kind.Department?
  }

  method ActionHasDirectDepartmentApproval(stage: Stage, g: Graph) returns (r: bool)
    ensures r <==> DirectDepartmentApproval(g, stage)
  {
    var i := 0;
    while i < |stage.dependsOn|
      invariant 0 <= i <= |stage.dependsOn|
      invariant forall a, d :: a in stage.dependsOn[..i] && a in g && g[a].kind.Approval? && d in g[a].dependsOn && d in g
                  ==> !g[d].kind.Department?
    {
      var a := stage.dependsOn[i];
      assert stage.dependsOn[..i + 1] == stage.dependsOn[..i] + [a];
      i := i + 1;
      if a !in g || !g[a].kind.Approval? { continue; }
      if exists d :: d in g[a].dependsOn && d in g && g[d].kind.Department? {
        return true;
      }
    }
    assert stage.dependsOn[..i] == stage.dependsOn;
    return false;
  }

  ghost predicate ReferencesOk(g: Graph, s: Stage, profiles: set<string>) {
    && (s.kind.Department? ==> s.teamProfileId in profiles)
    && (forall d :: d in s.dependsOn ==> d in g && d != s.id)
    && (forall h :: h in s.allowedHelpFrom ==> h in g && h != s.id)
  }

  ghost predicate ProfileMissing(s: Stage, profiles: set<string>) {
    s.kind.Department? && s.teamProfileId !in profiles
  }

  ghost predicate Dangles(g: Graph, s: Stage, ids: seq<Id>) {
    exists d :: d in ids && (d !in g || d == s.id)
  }

  /** The first stage with a bad reference has this one as its first: profile, then dependencies, then helpers. */
  ghost predicate FirstBadReference(g: Graph, stages: seq<Stage>, profiles: set<string>, v: Violation) {
    exists i :: 0 <= i < |stages| && (forall j :: 0 <= j < i ==> ReferencesOk(g, stages[j], profiles))
      && BadReference(g, stages[i], profiles, v)
  }

  ghost predicate BadReference(g: Graph, s: Stage, profiles: set<string>, v: Violation) {
    if ProfileMissing(s, profiles) then v == ProfileUnavailable
    else if Dangles(g, s, s.dependsOn) then v == DependencyUnavailable
    else Dangles(g, s, s.allowedHelpFrom) && v == HelpUnavailable
  }

  ghost predicate HelpSafe(g: Graph, s: Stage) {
    s.allowedHelpFrom != [] ==>
      && s.kind.Department?
      && forall h :: h in s.allowedHelpFrom ==> HelperSafe(g, s, h)
  }

  /** A helper is a department above the stage it helps. */
  ghost predicate HelperSafe(g: Graph, s: Stage, h: Id) {
    h in g && g[h].kind.Department? && Reaches(Deps(g), s.id, h)
  }

  ghost predicate ActionSafe(g: Graph, s: Stage) {
    && EveryPathCrosses(g, s.id)
    && (exists x :: x in g && g[x].kind.TruthGate? && Reaches(Deps(g), x, s.id))
    && DirectDepartmentApproval(g, s)
    && s.maxAttempts == 1
  }

  ghost predicate StageSafe(g: Graph, s: Stage) {
    && (s.dependsOn == [] ==> s.kind.Department?)
    && HelpSafe(g, s)
    && (s.kind.Approval? ==> (exists d :: d in s.dependsOn && d in g && g[d].kind.Department?) && s.maxAttempts == 1)
    && (s.kind.Action? ==> ActionSafe(g, s))
    && (s.kind.TruthGate? ==> |Matching(g, (c: Stage) => c.kind.Action?, AncestorsOf(g, s.id))| == 1)
  }

  ghost predicate AllReferencesOk(g: Graph, stages: seq<Stage>, profiles: set<string>) {
    forall i :: 0 <= i < |stages| ==> ReferencesOk(g, stages[i], profiles)
  }

  ghost predicate AllSafe(g: Graph, stages: seq<Stage>) {
    forall i :: 0 <= i < |stages| ==> StageSafe(g, stages[i])
  }

  /** What an enabled definition guarantees. */
  ghost predicate Admissible(stages: seq<Stage>, profiles: set<string>) {
    && stages != []
    && AllReferencesOk(ById(stages), stages, profiles)
    && !HasCycle(Deps(ById(stages)))
    && AllSafe(ById(stages), stages)
  }

  /** No violation is reported exactly for the admissible definitions, and each verdict names what is wrong. */
  method DefinitionViolation(stages: seq<Stage>, profiles: set<string>) returns (v: Option<Violation>)
    requires DistinctIds(stages)
    ensures v.None? <==> Admissible(stages, profiles)
    ensures v == Some(StagesInvalid) <==> stages == []
    ensures v.Some? && v.value in {ProfileUnavailable, DependencyUnavailable, HelpUnavailable} <==>
              stages != [] && !AllReferencesOk(ById(stages), stages, profiles)
    ensures v.Some? && v.value in {ProfileUnavailable, DependencyUnavailable, HelpUnavailable} ==>
              FirstBadReference(ById(stages), stages, profiles, v.value)
    ensures v == Some(GraphCycle) <==>
              stages != [] && AllReferencesOk(ById(stages), stages, profiles) && HasCycle(Deps(ById(stages)))
    ensures v == Some(TransitionUnsafe) <==>
              && stages != [] && AllReferencesOk(ById(stages), stages, profiles) && !HasCycle(Deps(ById(stages)))
              && !AllSafe(ById(stages), stages)
  {
    if stages == [] { return Some(StagesInvalid); }
    var g, dependents := GraphFor(stages);
    var missing := MissingReference(stages, profiles, g);
    if missing.Some? { return missing; }
    KnownDependencies(stages, profiles);
    var cycle := GraphHasCycle(stages, g);
    if cycle { return Some(GraphCycle); }
    var i := 0;
    while i < |stages|
      invariant 0 <= i <= |stages|
      invariant forall j :: 0 <= j < i ==> StageSafe(g, stages[j])
    {
      assert ReferencesOk(g, stages[i], profiles);
      var safe := StageTransitionSafe(stages, i, g, dependents);
      if !safe { return Some(TransitionUnsafe); }
      i := i + 1;
    }
    return None;
  }

  lemma KnownDependencies(stages: seq<Stage>, profiles: set<string>)
    requires AllReferencesOk(ById(stages), stages, profiles)
    ensures forall x :: x in ById(stages) ==> forall d :: d in ById(stages)[x].dependsOn ==> d in ById(stages)
  {
    ByIdHolds(stages);
    var g := ById(stages);
    forall x | x in g ensures forall d :: d in g[x].dependsOn ==> d in g {
      var i :| 0 <= i < |stages| && stages[i] == g[x];
      assert ReferencesOk(g, stages[i], profiles);
    }
  }

  /** The first loop of definitionViolation: profiles, dependencies and help references. */
  method MissingReference(stages: seq<Stage>, profiles: set<string>, g: Graph) returns (v: Option<Violation>)
    ensures v.None? <==> AllReferencesOk(g, stages, profiles)
    ensures v.Some? ==> FirstBadReference(g, stages, profiles, v.value)
  {
    var i := 0;
    while i < |stages|
      invariant 0 <= i <= |stages|
      invariant forall j :: 0 <= j < i ==> ReferencesOk(g, stages[j], profiles)
    {
      var s := stages[i];
      if s.kind.Department? && s.teamProfileId !in profiles {
        assert !ReferencesOk(g, stages[i], profiles) && BadReference(g, stages[i], profiles, ProfileUnavailable);
        return Some(ProfileUnavailable);
      }
      if exists d :: d in s.dependsOn && (d !in g || d == s.id) {
        assert !ReferencesOk(g, stages[i], profiles) && BadReference(g, stages[i], profiles, DependencyUnavailable);
        return Some(DependencyUnavailable);
      }
      if exists h :: h in s.allowedHelpFrom && (h !in g || h == s.id) {
        assert !ReferencesOk(g, stages[i], profiles) && BadReference(g, stages[i], profiles, HelpUnavailable);
        return Some(HelpUnavailable);
      }
      i := i + 1;
    }
    return None;
  }

  method StageTransitionSafe(stages: seq<Stage>, i: nat, g: Graph, dependents: Edges) returns (r: bool)
    requires DistinctIds(stages) && g == ById(stages) && !HasCycle(Deps(g))
    requires dependents.Keys == g.Keys && Reversed(stages, dependents)
    requires i < |stages|
    requires forall x :: x in g ==> forall d :: d in g[x].dependsOn ==> d in g
    requires forall h :: h in stages[i].allowedHelpFrom ==> h in g
    ensures r <==> StageSafe(g, stages[i])
  {
    var s := stages[i];
    ByIdFinds(stages, i);
    if s.dependsOn == [] && !s.kind.Department? { return false; }
    ByIdHolds(stages);
    var help := HelpIsSafe(s, g);
    if !help { return false; }
    if s.kind.Approval? {
      if !(exists d :: d in s.dependsOn && d in g && g[d].kind.Department?) || s.maxAttempts != 1 { return false; }
    }
    if s.kind.Action? {
      var approvedSinceLastGate := EveryInboundPathApproved(s.id, g);
      var hasTruthGateAfter := HasDescendant(stages, s.id, (c: Stage) => c.kind.TruthGate?, g, dependents);
      var direct := ActionHasDirectDepartmentApproval(s, g);
      if !approvedSinceLastGate || !hasTruthGateAfter || !direct || s.maxAttempts != 1 { return false; }
    }
    if s.kind.TruthGate? {
      var actionAncestors := CountAncestors(s.id, (c: Stage) => c.kind.Action?, g);
      if actionAncestors != 1 { return false; }
    }
    return true;
  }

  method HelpIsSafe(s: Stage, g: Graph) returns (r: bool)
    requires forall k :: k in g ==> g[k].id == k
    requires forall h :: h in s.allowedHelpFrom ==> h in g
    ensures r <==> HelpSafe(g, s)
  {
    if s.allowedHelpFrom == [] { return true; }
    if !s.kind.Department? { return false; }
    var j := 0;
    while j < |s.allowedHelpFrom|
      invariant 0 <= j <= |s.allowedHelpFrom|
      invariant forall k :: 0 <= k < j ==> HelperSafe(g, s, s.allowedHelpFrom[k])
    {
      var safe := HelperIsSafe(s, s.allowedHelpFrom[j], g);
      if !safe { return false; }
      j := j + 1;
    }
    return true;
  }

  method HelperIsSafe(s: Stage, h: Id, g: Graph) returns (r: bool)
    requires (forall k :: k in g ==> g[k].id == k) && h in g
    ensures r <==> HelperSafe(g, s, h)
  {
    if !g[h].kind.Department? { return false; }
    r := IsAncestor(s.id, h, g);
  }

  method IsAncestor(startId: Id, helpId: Id, g: Graph) returns (r: bool)
    requires (forall k :: k in g ==> g[k].id == k) && helpId in g
    ensures r <==> Reaches(Deps(g), startId, helpId)
  {
    r := HasAncestor(startId, (c: Stage) => c.id == helpId, g, (c: Stage) => false);
    OpenIsReaches(g, Deps(g), startId, helpId);
  }
}
