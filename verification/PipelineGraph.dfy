/**
 * The admission check of a pipeline definition: reachability searches over the
 * stage graph, cycle detection, and the path condition "every way back to a
 * root or to the nearest truth gate crosses an approval".
 */
module PipelineGraph {
  import opened Common

  type Id = string

  datatype Kind = Department | Approval | Action | TruthGate | Other(name: string)

  datatype Stage = Stage(
    id: Id,
    kind: Kind,
    dependsOn: seq<Id>,
    allowedHelpFrom: seq<Id>,
    teamProfileId: string,
    maxAttempts: int)

  type Graph = map<Id, Stage>
  type Edges = map<Id, seq<Id>>

  // ---------------------------------------------------------------- chains

  /** A walk along edges; it has at least its first node. */
  ghost predicate Chain(e: Edges, p: seq<Id>) {
    |p| >= 1 && forall i :: 0 <= i < |p| - 1 ==> p[i] in e && p[i + 1] in e[p[i]]
  }

  /** Some walk of at least one step leads from `a` to `b`. */
  ghost predicate Reaches(e: Edges, a: Id, b: Id) {
    exists p :: Walk(e, a, p, b)
  }

  ghost predicate Walk(e: Edges, a: Id, p: seq<Id>, b: Id) {
    Chain(e, p) && |p| >= 2 && p[0] == a && p[|p| - 1] == b
  }

  ghost predicate HasCycle(e: Edges) {
    exists a :: a in e && Reaches(e, a, a)
  }

  function Deps(g: Graph): Edges {
    map k | k in g :: g[k].dependsOn
  }

  lemma ChainJoin(e: Edges, p: seq<Id>, q: seq<Id>)
    requires Chain(e, p) && Chain(e, q) && p[|p| - 1] == q[0]
    ensures Chain(e, p + q[1..])
    ensures (p + q[1..])[0] == p[0] && (p + q[1..])[|p + q[1..]| - 1] == q[|q| - 1]
  {
    var r := p + q[1..];
    forall i | 0 <= i < |r| - 1 ensures r[i] in e && r[i + 1] in e[r[i]] {
      if i < |p| - 1 {
        assert r[i] == p[i] && r[i + 1] == p[i + 1];
      } else {
        assert r[i] == q[i - |p| + 1] && r[i + 1] == q[i - |p| + 2];
      }
    }
  }

  lemma ReachesTransitive(e: Edges, a: Id, b: Id, c: Id)
    requires Reaches(e, a, b) && Reaches(e, b, c)
    ensures Reaches(e, a, c)
  {
    var p :| Walk(e, a, p, b);
    var q :| Walk(e, b, q, c);
    ChainJoin(e, p, q);
    assert Walk(e, a, p + q[1..], c);
  }

  lemma EdgeReaches(e: Edges, a: Id, b: Id)
    requires a in e && b in e[a]
    ensures Reaches(e, a, b)
  {
    assert Walk(e, a, [a, b], b);
  }

  ghost predicate Closed(e: Edges, s: set<Id>) {
    forall a, b :: a in s && a in e && b in e[a] && b in e ==> b in s
  }

  /** A walk that starts in a closed set stays in it as long as its nodes are known. */
  lemma {:induction false} ClosedChain(e: Edges, s: set<Id>, p: seq<Id>, i: nat)
    requires Closed(e, s) && Chain(e, p) && p[0] in s && i < |p| && p[i] in e
    ensures p[i] in s
    decreases i
  {
    if i > 0 {
      ClosedChain(e, s, p, i - 1);
    }
  }

  // ---------------------------------------------------------------- cycle detection

  /** Finished nodes: known, closed under known edges, and on no cycle. */
  ghost predicate Finished(e: Edges, visited: set<Id>) {
    && visited <= e.Keys
    && Closed(e, visited)
    && forall a :: a in visited ==> !Reaches(e, a, a)
  }

  lemma FinishNode(e: Edges, visited: set<Id>, a: Id)
    requires Finished(e, visited) && a in e && a !in visited
    requires forall b :: b in e[a] && b in e ==> b in visited
    ensures Finished(e, visited + {a})
  {
    if Reaches(e, a, a) {
      var p :| Walk(e, a, p, a);
      assert p[1] in e[a] && p[1] in e;
      var q := p[1..];
      assert forall i :: 0 <= i < |q| ==> q[i] == p[i + 1];
      ClosedChain(e, visited, q, |q| - 1);
    }
  }

  lemma StackCycle(e: Edges, stack: seq<Id>, a: Id, k: nat)
    requires Chain(e, stack + [a]) && k < |stack| && stack[k] == a && a in e
    ensures HasCycle(e)
  {
    var p := (stack + [a])[k..];
    assert forall i :: 0 <= i < |p| ==> p[i] == (stack + [a])[k + i];
    assert Walk(e, a, p, a);
    assert Reaches(e, a, a);
  }

  /** The inner visit of graphHasCycle; `stack` is the chain of nodes being visited. */
  method Visit(g: Graph, stageId: Id, visiting: set<Id>, visited: set<Id>, ghost stack: seq<Id>)
    returns (cycle: bool, after: set<Id>)
    requires stageId in g && visiting <= g.Keys && visiting !! visited
    requires visiting == set x | x in stack
    requires Chain(Deps(g), stack + [stageId])
    requires Finished(Deps(g), visited)
    ensures cycle ==> HasCycle(Deps(g))
    ensures !cycle ==> visited <= after && stageId in after && visiting !! after && Finished(Deps(g), after)
    decreases g.Keys - visiting
  {
    after := visited;
    if stageId in visiting {
      ghost var k :| 0 <= k < |stack| && stack[k] == stageId;
      StackCycle(Deps(g), stack, stageId, k);
      return true, after;
    }
    if stageId in visited {
      return false, after;
    }
    var deps := g[stageId].dependsOn;
    var i := 0;
    while i < |deps|
      invariant 0 <= i <= |deps|
      invariant visited <= after && Finished(Deps(g), after) && (visiting + {stageId}) !! after
      invariant forall j :: 0 <= j < i && deps[j] in g ==> deps[j] in after
    {
      if deps[i] in g {
        assert Chain(Deps(g), (stack + [stageId]) + [deps[i]]) by {
          var s, t := stack + [stageId], (stack + [stageId]) + [deps[i]];
          assert forall j :: 0 <= j < |s| ==> t[j] == s[j];
        }
        cycle, after := Visit(g, deps[i], visiting + {stageId}, after, stack + [stageId]);
        if cycle { return; }
      }
      i := i + 1;
    }
    FinishNode(Deps(g), after, stageId);
    after := after + {stageId};
    cycle := false;
  }

  /** The exact answer: true iff the known dependencies contain a cycle. */
  method GraphHasCycle(stages: seq<Stage>, g: Graph) returns (r: bool)
    requires g.Keys == set s | s in stages :: s.id
    ensures r <==> HasCycle(Deps(g))
  {
    var visited: set<Id> := {};
    var i := 0;
    while i < |stages|
      invariant 0 <= i <= |stages|
      invariant Finished(Deps(g), visited)
      invariant forall j :: 0 <= j < i ==> stages[j].id in visited
    {
      assert stages[i] in stages;
      assert [] + [stages[i].id] == [stages[i].id];
      var cycle, after := Visit(g, stages[i].id, {}, visited, []);
      if cycle { return true; }
      visited := after;
      i := i + 1;
    }
    assert g.Keys <= visited;
    return false;
  }

  // ---------------------------------------------------------------- worklist searches

  /** A walk whose inner nodes are all known and not stopped at. */
  ghost predicate OpenWalk(g: Graph, e: Edges, stop: Stage -> bool, a: Id, p: seq<Id>, b: Id) {
    Walk(e, a, p, b) && forall i :: 0 < i < |p| - 1 ==> p[i] in g && !stop(g[p[i]])
  }

  ghost predicate OpenReaches(g: Graph, e: Edges, stop: Stage -> bool, a: Id, b: Id) {
    exists p :: OpenWalk(g, e, stop, a, p, b)
  }

  function Successors(e: Edges, a: Id): seq<Id> {
    if a in e then e[a] else []
  }

  ghost function Mentioned(e: Edges): set<Id> {
    set a, b | a in e && b in e[a] :: b
  }

  /** What a worklist search knows: everything pending or seen is reachable, and seen nodes were expanded. */
  ghost predicate Frontier(g: Graph, e: Edges, stop: Stage -> bool, start: Id, seen: set<Id>, pending: seq<Id>) {
    && seen <= Mentioned(e)
    && (forall x :: x in seen || x in pending ==> OpenReaches(g, e, stop, start, x))
    && (forall x :: x in Successors(e, start) ==> x in seen || x in pending)
    && (forall x, y :: x in seen && x in g && !stop(g[x]) && y in Successors(e, x) ==> y in seen || y in pending)
    && (forall x :: x in pending ==> x in Mentioned(e))
  }

  lemma FrontierStart(g: Graph, e: Edges, stop: Stage -> bool, start: Id)
    ensures Frontier(g, e, stop, start, {}, Successors(e, start))
  {
    forall x | x in Successors(e, start) ensures OpenReaches(g, e, stop, start, x) {
      assert OpenWalk(g, e, stop, start, [start, x], x);
    }
  }

  lemma OpenExtend(g: Graph, e: Edges, stop: Stage -> bool, a: Id, b: Id, c: Id)
    requires OpenReaches(g, e, stop, a, b) && b in g && !stop(g[b]) && c in Successors(e, b)
    ensures OpenReaches(g, e, stop, a, c)
  {
    var p :| OpenWalk(g, e, stop, a, p, b);
    ChainJoin(e, p, [b, c]);
    assert p + [b, c][1..] == p + [c];
    assert OpenWalk(g, e, stop, a, p + [c], c);
  }

  lemma FrontierSkip(g: Graph, e: Edges, stop: Stage -> bool, start: Id, seen: set<Id>, pending: seq<Id>)
    requires Frontier(g, e, stop, start, seen, pending) && |pending| > 0
    requires pending[|pending| - 1] in seen
    ensures Frontier(g, e, stop, start, seen, pending[..|pending| - 1])
  {
    var x, rest := pending[|pending| - 1], pending[..|pending| - 1];
    assert forall y :: y in pending ==> y in rest || y == x;
  }

  lemma FrontierExpand(g: Graph, e: Edges, stop: Stage -> bool, start: Id, seen: set<Id>, pending: seq<Id>, more: seq<Id>)
    requires Frontier(g, e, stop, start, seen, pending) && |pending| > 0
    requires var x := pending[|pending| - 1];
             x !in seen && more == if x in g && !stop(g[x]) then Successors(e, x) else []
    ensures Frontier(g, e, stop, start, seen + {pending[|pending| - 1]}, pending[..|pending| - 1] + more)
  {
    var x, rest := pending[|pending| - 1], pending[..|pending| - 1];
    assert forall y :: y in pending ==> y in rest || y == x;
    assert forall y :: y in rest ==> y in pending;
    forall y | y in more ensures OpenReaches(g, e, stop, start, y) {
      OpenExtend(g, e, stop, start, x, y);
    }
  }

  /** When nothing is pending, seen is exactly what the open walks reach. */
  lemma FrontierDone(g: Graph, e: Edges, stop: Stage -> bool, start: Id, seen: set<Id>)
    requires Frontier(g, e, stop, start, seen, [])
    ensures forall x :: x in seen <==> OpenReaches(g, e, stop, start, x)
  {
    forall x | OpenReaches(g, e, stop, start, x) ensures x in seen {
      var p :| OpenWalk(g, e, stop, start, p, x);
      FrontierFollows(g, e, stop, start, seen, p, |p| - 1);
    }
  }

  lemma {:induction false} FrontierFollows(g: Graph, e: Edges, stop: Stage -> bool, start: Id, seen: set<Id>, p: seq<Id>, i: nat)
    requires Frontier(g, e, stop, start, seen, [])
    requires 1 <= i < |p| && OpenWalk(g, e, stop, start, p, p[|p| - 1])
    ensures p[i] in seen
    decreases i
  {
    if i == 1 {
      assert p[1] in Successors(e, p[0]);
    } else {
      FrontierFollows(g, e, stop, start, seen, p, i - 1);
      assert p[i] in Successors(e, p[i - 1]);
    }
  }

  /** Whether some known ancestor satisfies the predicate, looking no further past stop nodes. */
  method HasAncestor(startId: Id, predicate_: Stage -> bool, g: Graph, stop: Stage -> bool) returns (r: bool)
    ensures r <==> exists x :: x in g && predicate_(g[x]) && OpenReaches(g, Deps(g), stop, startId, x)
  {
    ghost var e := Deps(g);
    var seen: set<Id> := {};
    var pending := if startId in g then g[startId].dependsOn else [];
    FrontierStart(g, e, stop, startId);
    while |pending| > 0
      invariant Frontier(g, e, stop, startId, seen, pending)
      invariant forall x :: x in seen && x in g ==> !predicate_(g[x])
      decreases Mentioned(e) - seen, |pending|
    {
      var stageId := pending[|pending| - 1];
      var rest := pending[..|pending| - 1];
      assert stageId in pending;
      if stageId in seen {
        FrontierSkip(g, e, stop, startId, seen, pending);
        pending := rest;
        continue;
      }
      ghost var before := Mentioned(e) - seen;
      ghost var more := if stageId in g && !stop(g[stageId]) then Successors(e, stageId) else [];
      FrontierExpand(g, e, stop, startId, seen, pending, more);
      seen := seen + {stageId};
      assert stageId in before && stageId !in Mentioned(e) - seen;
      assert rest + [] == rest;
      if stageId !in g {
        pending := rest;
        continue;
      }
      if predicate_(g[stageId]) { return true; }
      pending := if stop(g[stageId]) then rest else rest + g[stageId].dependsOn;
    }
    FrontierDone(g, e, stop, startId, seen);
    return false;
  }


  lemma OpenIsReaches(g: Graph, e: Edges, a: Id, b: Id)
    requires e.Keys <= g.Keys
    ensures OpenReaches(g, e, s => false, a, b) <==> Reaches(e, a, b)
  {
    if Reaches(e, a, b) {
      var p :| Walk(e, a, p, b);
      assert OpenWalk(g, e, s => false, a, p, b);
    }
    if OpenReaches(g, e, s => false, a, b) {
      var p :| OpenWalk(g, e, s => false, a, p, b);
    }
  }

  ghost function Matching(g: Graph, predicate_: Stage -> bool, among: set<Id>): set<Id> {
    set x | x in among && x in g && predicate_(g[x])
  }

  ghost function AncestorsOf(g: Graph, a: Id): set<Id> {
    set x | x in g && Reaches(Deps(g), a, x)
  }

  /** The number of distinct known ancestors satisfying the predicate. */
  method CountAncestors(startId: Id, predicate_: Stage -> bool, g: Graph) returns (count: nat)
    ensures count == |Matching(g, predicate_, AncestorsOf(g, startId))|
  {
    ghost var e := Deps(g);
    ghost var stop: Stage -> bool := s => false;
    var seen: set<Id> := {};
    var pending := if startId in g then g[startId].dependsOn else [];
    count := 0;
    FrontierStart(g, e, stop, startId);
    assert Matching(g, predicate_, {}) == {};
    while |pending| > 0
      invariant Frontier(g, e, stop, startId, seen, pending)
      invariant count == |Matching(g, predicate_, seen)|
      decreases Mentioned(e) - seen, |pending|
    {
      var stageId := pending[|pending| - 1];
      var rest := pending[..|pending| - 1];
      assert stageId in pending;
      if stageId in seen {
        FrontierSkip(g, e, stop, startId, seen, pending);
        pending := rest;
        continue;
      }
      ghost var before := Mentioned(e) - seen;
      FrontierExpand(g, e, stop, startId, seen, pending, if stageId in g then Successors(e, stageId) else []);
      MatchingStep(g, predicate_, seen, stageId);
      seen := seen + {stageId};
      assert stageId in before && stageId !in Mentioned(e) - seen;
      assert rest + [] == rest;
      if stageId !in g {
        pending := rest;
        continue;
      }
      if predicate_(g[stageId]) { count := count + 1; }
      pending := rest + g[stageId].dependsOn;
    }
    FrontierDone(g, e, stop, startId, seen);
    forall x | x in g ensures x in seen <==> x in AncestorsOf(g, startId) {
      OpenIsReaches(g, e, startId, x);
    }
    assert Matching(g, predicate_, seen) == Matching(g, predicate_, AncestorsOf(g, startId));
  }

  lemma MatchingStep(g: Graph, predicate_: Stage -> bool, seen: set<Id>, x: Id)
    requires x !in seen
    ensures |Matching(g, predicate_, seen + {x})|
         == |Matching(g, predicate_, seen)| + if x in g && predicate_(g[x]) then 1 else 0
  {
    if x in g && predicate_(g[x]) {
      assert Matching(g, predicate_, seen + {x}) == Matching(g, predicate_, seen) + {x};
    } else {
      assert Matching(g, predicate_, seen + {x}) == Matching(g, predicate_, seen);
    }
  }

  // ---------------------------------------------------------------- graphFor

  function ById(stages: seq<Stage>): (g: Graph)
    ensures g.Keys == set s | s in stages :: s.id
  {
    if |stages| == 0 then map[]
    else
      var last := stages[|stages| - 1];
      assert forall s :: s in stages <==> s in stages[..|stages| - 1] || s == last;
      ById(stages[..|stages| - 1])[last.id := last]
  }

  ghost predicate DistinctIds(stages: seq<Stage>) {
    forall i, j :: 0 <= i < j < |stages| ==> stages[i].id != stages[j].id
  }

  lemma {:induction false} ByIdFinds(stages: seq<Stage>, i: nat)
    requires DistinctIds(stages) && i < |stages|
    ensures stages[i].id in ById(stages) && ById(stages)[stages[i].id] == stages[i]
    decreases |stages|
  {
    if i < |stages| - 1 {
      ByIdFinds(stages[..|stages| - 1], i);
    }
  }

  lemma {:induction false} ByIdHolds(stages: seq<Stage>)
    ensures forall k :: k in ById(stages) ==> ById(stages)[k] in stages && ById(stages)[k].id == k
  {
    if |stages| > 0 {
      ByIdHolds(stages[..|stages| - 1]);
    }
  }

  /** The reverse edges: `b` is listed under `a` exactly when some stage `b` depends on `a`. */
  ghost predicate Reversed(stages: seq<Stage>, dependents: Edges) {
    forall a, b :: a in dependents ==>
      (b in dependents[a] <==> exists s :: s in stages && s.id == b && a in s.dependsOn)
  }

  method GraphFor(stages: seq<Stage>) returns (g: Graph, dependents: Edges)
    ensures g == ById(stages)
    ensures dependents.Keys == g.Keys && Reversed(stages, dependents)
  {
    g := map[];
    var i := 0;
    while i < |stages|
      invariant 0 <= i <= |stages|
      invariant g == ById(stages[..i])
    {
      assert stages[..i + 1][..i] == stages[..i];
      g := g[stages[i].id := stages[i]];
      i := i + 1;
    }
    assert stages[..|stages|] == stages;
    dependents := map k | k in g :: [];
    i := 0;
    while i < |stages|
      invariant 0 <= i <= |stages|
      invariant dependents.Keys == g.Keys
      invariant Reversed(stages[..i], dependents)
    {
      ghost var before := dependents;
      dependents := AddDependent(stages[i], dependents);
      ReversedStep(stages, i, before, dependents);
      i := i + 1;
    }
  }

  /** The inner loop of graphFor: list one stage under each known dependency. */
  method AddDependent(stage: Stage, before: Edges) returns (dependents: Edges)
    ensures dependents.Keys == before.Keys
    ensures forall a, b :: a in dependents ==>
              (b in dependents[a] <==> b in before[a] || (b == stage.id && a in stage.dependsOn))
  {
    dependents := before;
    var j := 0;
    while j < |stage.dependsOn|
      invariant 0 <= j <= |stage.dependsOn|
      invariant dependents.Keys == before.Keys
      invariant forall a, b :: a in dependents ==>
        (b in dependents[a] <==> b in before[a] || (b == stage.id && a in stage.dependsOn[..j]))
    {
      var d := stage.dependsOn[j];
      assert stage.dependsOn[..j + 1] == stage.dependsOn[..j] + [d];
      if d in dependents {
        dependents := dependents[d := dependents[d] + [stage.id]];
      }
      j := j + 1;
    }
    assert stage.dependsOn[..j] == stage.dependsOn;
  }

  lemma ReversedStep(stages: seq<Stage>, i: nat, before: Edges, dependents: Edges)
    requires i < |stages| && Reversed(stages[..i], before) && dependents.Keys == before.Keys
    requires forall a, b :: a in dependents ==>
               (b in dependents[a] <==> b in before[a] || (b == stages[i].id && a in stages[i].dependsOn))
    ensures Reversed(stages[..i + 1], dependents)
  {
    assert stages[..i + 1] == stages[..i] + [stages[i]];
    forall a, b | a in dependents
      ensures b in dependents[a] <==> exists s :: s in stages[..i + 1] && s.id == b && a in s.dependsOn
    {
      if b in before[a] {
        var s :| s in stages[..i] && s.id == b && a in s.dependsOn;
        assert s in stages[..i + 1];
      }
      if b == stages[i].id && a in stages[i].dependsOn {
        assert stages[i] in stages[..i + 1];
      }
    }
  }

  /** A dependents edge is a dependency edge read backwards. */
  lemma EdgeReversed(stages: seq<Stage>, g: Graph, dependents: Edges, a: Id, b: Id)
    requires DistinctIds(stages) && g == ById(stages)
    requires dependents.Keys == g.Keys && Reversed(stages, dependents)
    ensures a in dependents && b in dependents[a] <==> b in g && a in g && a in g[b].dependsOn
  {
    ByIdHolds(stages);
    if a in dependents && b in dependents[a] {
      var s :| s in stages && s.id == b && a in s.dependsOn;
      var i :| 0 <= i < |stages| && stages[i] == s;
      ByIdFinds(stages, i);
    }
    if b in g && a in g && a in g[b].dependsOn {
      assert g[b] in stages && g[b].id == b;
    }
  }

  ghost function Backwards(p: seq<Id>): (q: seq<Id>)
    ensures |q| == |p|
  {
    seq(|p|, i requires 0 <= i < |p| => p[|p| - 1 - i])
  }

  /** If every edge of `e` is an edge of `f` read backwards, so is every walk. */
  lemma WalkBackwards(e: Edges, f: Edges, a: Id, p: seq<Id>, b: Id)
    requires Walk(e, a, p, b)
    requires forall x, y :: x in e && y in e[x] ==> y in f && x in f[y]
    ensures Walk(f, b, Backwards(p), a)
  {
    var q := Backwards(p);
    forall i | 0 <= i < |q| - 1 ensures q[i] in f && q[i + 1] in f[q[i]] {
      var k := |p| - 2 - i;
      assert p[k] in e && p[k + 1] in e[p[k]];
      assert q[i] == p[k + 1] && q[i + 1] == p[k];
    }
  }

  /** Walks along dependents are the walks along dependencies, read backwards. */
  lemma ReverseWalk(stages: seq<Stage>, g: Graph, dependents: Edges, a: Id, b: Id)
    requires DistinctIds(stages) && g == ById(stages)
    requires dependents.Keys == g.Keys && Reversed(stages, dependents)
    requires a in g && forall x :: x in g ==> forall d :: d in g[x].dependsOn ==> d in g
    ensures Reaches(dependents, a, b) <==> b in g && Reaches(Deps(g), b, a)
  {
    forall x, y ensures x in dependents && y in dependents[x] <==> y in Deps(g) && x in Deps(g)[y] {
      EdgeReversed(stages, g, dependents, x, y);
    }
    if Reaches(dependents, a, b) {
      var p :| Walk(dependents, a, p, b);
      WalkBackwards(dependents, Deps(g), a, p, b);
      assert Backwards(p)[0] in Deps(g);
    }
    if b in g && Reaches(Deps(g), b, a) {
      var p :| Walk(Deps(g), b, p, a);
      WalkBackwards(Deps(g), dependents, b, p, a);
    }
  }

  /** Whether some stage satisfying the predicate depends, directly or not, on the start stage. */
  method HasDescendant(stages: seq<Stage>, startId: Id, predicate_: Stage -> bool, g: Graph, dependents: Edges) returns (r: bool)
    requires DistinctIds(stages) && g == ById(stages) && startId in g
    requires forall x :: x in g ==> forall d :: d in g[x].dependsOn ==> d in g
    requires dependents.Keys == g.Keys && Reversed(stages, dependents)
    ensures r <==> exists x :: x in g && predicate_(g[x]) && Reaches(Deps(g), x, startId)
  {
    ghost var stop: Stage -> bool := s => false;
    var seen: set<Id> := {};
    var pending := if startId in dependents then dependents[startId] else [];
    FrontierStart(g, dependents, stop, startId);
    forall x ensures OpenReaches(g, dependents, stop, startId, x) <==> x in g && Reaches(Deps(g), x, startId) {
      OpenIsReaches(g, dependents, startId, x);
      ReverseWalk(stages, g, dependents, startId, x);
    }
    while |pending| > 0
      invariant Frontier(g, dependents, stop, startId, seen, pending)
      invariant forall x :: x in seen && x in g ==> !predicate_(g[x])
      decreases Mentioned(dependents) - seen, |pending|
    {
      var stageId := pending[|pending| - 1];
      var rest := pending[..|pending| - 1];
      assert stageId in pending;
      if stageId in seen {
        FrontierSkip(g, dependents, stop, startId, seen, pending);
        pending := rest;
        continue;
      }
      ghost var before := Mentioned(dependents) - seen;
      FrontierExpand(g, dependents, stop, startId, seen, pending, if stageId in g then Successors(dependents, stageId) else []);
      seen := seen + {stageId};
      assert stageId in before && stageId !in Mentioned(dependents) - seen;
      assert rest + [] == rest;
      if stageId !in g {
        pending := rest;
        continue;
      }
      if predicate_(g[stageId]) { return true; }
      pending := rest + if stageId in dependents then dependents[stageId] else [];
    }
    FrontierDone(g, dependents, stop, startId, seen);
    return false;
  }
}
