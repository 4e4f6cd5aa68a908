/**
 * Selective application of a line diff: parsing it, grouping its changes into
 * hunks, deciding hunks, and rebuilding the file from the accepted ones.
 */
module DiffHunks {
  import opened Text

  datatype Kind = Context | Added | Removed

  datatype DiffOp = DiffOp(kind: Kind, text: string)

  datatype Status = Pending | Accepted | Rejected

  /** A run of changes; `ordinal` stands for the identifier that numbers it. */
  datatype Hunk = Hunk(ordinal: nat, status: Status, start: nat, end: nat)

  // ---------------------------------------------------------------- parsing

  function ParseLine(line: string): DiffOp {
    if line != "" && line[0] == '+' then DiffOp(Added, line[1..])
    else if line != "" && line[0] == '-' then DiffOp(Removed, line[1..])
    else if line != "" && line[0] == ' ' then DiffOp(Context, line[1..])
    else DiffOp(Context, line)
  }

  function ParseDiffOps(diffText: string): seq<DiffOp> {
    if diffText == "" then []
    else
      var lines := Split(diffText, '\n');
      seq(|lines|, i requires 0 <= i < |lines| => ParseLine(lines[i]))
  }

  function Mark(k: Kind): char {
    match k
    case Context => ' '
    case Added => '+'
    case Removed => '-'
  }

  function Rendered(ops: seq<DiffOp>): seq<string> {
    seq(|ops|, i requires 0 <= i < |ops| => [Mark(ops[i].kind)] + ops[i].text)
  }

  /** A written diff reads back as the same operations. */
  lemma RenderedDiffReadsBack(ops: seq<DiffOp>)
    requires ops != [] && forall i | 0 <= i < |ops| :: '\n' !in ops[i].text
    ensures ParseDiffOps(Join(Rendered(ops), '\n')) == ops
  {
    var lines := Rendered(ops);
    assert Without(lines, '\n');
    SplitJoin(lines, '\n');
    if |lines| > 1 {
      assert lines[0] + ['\n'] + Join(lines[1..], '\n') != "";
    }
    forall i | 0 <= i < |lines| ensures ParseLine(lines[i]) == ops[i] {
      assert lines[i][1..] == ops[i].text;
    }
  }

  /** A line without a mark is context in full; a marked one is what its mark says, without the mark. */
  lemma LinesAreReadByTheirMarks(text: string, i: nat)
    requires text != "" && i < |Split(text, '\n')|
    ensures |ParseDiffOps(text)| == |Split(text, '\n')|
    ensures var (line, op) := (Split(text, '\n')[i], ParseDiffOps(text)[i]);
            && (op.kind == Added <==> line != "" && line[0] == '+')
            && (op.kind == Removed <==> line != "" && line[0] == '-')
            && op.text == if line != "" && line[0] in {'+', '-', ' '} then line[1..] else line
  {
  }

  // ---------------------------------------------------------------- grouping

  predicate Change(ops: seq<DiffOp>, i: int) {
    0 <= i < |ops| && ops[i].kind != Context
  }

  /** A run of changes that cannot be made longer. */
  ghost predicate MaximalRun(ops: seq<DiffOp>, start: nat, end: nat) {
    && start < end <= |ops|
    && (forall i | start <= i < end :: Change(ops, i))
    && !Change(ops, start - 1) && !Change(ops, end)
  }

  /** Pending hunks, numbered and in order, that are exactly the maximal runs of changes. */
  ghost predicate Grouped(ops: seq<DiffOp>, hunks: seq<Hunk>) {
    && (forall k | 0 <= k < |hunks| :: hunks[k].ordinal == k && MaximalRun(ops, hunks[k].start, hunks[k].end))
    && (forall k | 0 < k < |hunks| :: hunks[k - 1].end < hunks[k].start)
    && (forall i | 0 <= i < |ops| && Change(ops, i) :: Covered(hunks, i))
  }

  ghost predicate Covered(hunks: seq<Hunk>, i: int) {
    exists k :: 0 <= k < |hunks| && hunks[k].start <= i < hunks[k].end
  }

  lemma CoveredGrows(hunks: seq<Hunk>, h: Hunk, i: int)
    ensures Covered(hunks + [h], i) <==> Covered(hunks, i) || h.start <= i < h.end
  {
    var all := hunks + [h];
    if Covered(hunks, i) {
      var k :| 0 <= k < |hunks| && hunks[k].start <= i < hunks[k].end;
      assert all[k] == hunks[k];
    }
    assert all[|hunks|] == h;
  }

  /** The runs found so far, all before i. */
  ghost predicate GroupedUpTo(ops: seq<DiffOp>, hunks: seq<Hunk>, i: int) {
    && (forall k | 0 <= k < |hunks| ::
          hunks[k].ordinal == k && hunks[k].status == Pending && hunks[k].end <= i && MaximalRun(ops, hunks[k].start, hunks[k].end))
    && (forall k | 0 < k < |hunks| :: hunks[k - 1].end < hunks[k].start)
    && (forall j | 0 <= j < i && Change(ops, j) :: Covered(hunks, j))
  }

  lemma AnotherRun(ops: seq<DiffOp>, hunks: seq<Hunk>, i: int, start: int, end: int)
    requires 0 <= i <= start < end <= |ops| && GroupedUpTo(ops, hunks, i) && MaximalRun(ops, start, end)
    requires (hunks != [] ==> i < start) && forall j | i <= j < start :: !Change(ops, j)
    ensures GroupedUpTo(ops, hunks + [Hunk(|hunks|, Pending, start, end)], end)
  {
    var h := Hunk(|hunks|, Pending, start, end);
    forall j | 0 <= j < end && Change(ops, j) ensures Covered(hunks + [h], j) {
      CoveredGrows(hunks, h, j);
    }
  }

  method GroupOpsIntoHunks(ops: seq<DiffOp>) returns (hunks: seq<Hunk>)
    ensures Grouped(ops, hunks) && forall k | 0 <= k < |hunks| :: hunks[k].status == Pending
  {
    hunks := [];
    var i := 0;
    while i < |ops|
      invariant 0 <= i <= |ops| && GroupedUpTo(ops, hunks, i)
      invariant (i == 0 && hunks == []) || i == |ops| || !Change(ops, i)
    {
      ghost var from := i;
      while i < |ops| && ops[i].kind == Context
        invariant from <= i <= |ops| && forall j | from <= j < i :: !Change(ops, j)
      {
        i := i + 1;
      }
      if i >= |ops| { break; }
      var start := i;
      while i < |ops| && ops[i].kind != Context
        invariant start <= i <= |ops| && forall j | start <= j < i :: Change(ops, j)
      {
        i := i + 1;
      }
      assert Change(ops, start);
      AnotherRun(ops, hunks, from, start, i);
      hunks := hunks + [Hunk(|hunks|, Pending, start, i)];
    }
    assert GroupedUpTo(ops, hunks, |ops|);
  }

  lemma SameRun(ops: seq<DiffOp>, s: nat, e: nat, t: nat, f: nat)
    requires MaximalRun(ops, s, e) && MaximalRun(ops, t, f) && s <= t < e
    ensures s == t && e == f
  {
  }

  lemma {:induction false} RunsAscend(ops: seq<DiffOp>, hunks: seq<Hunk>, i: nat, j: nat)
    requires Grouped(ops, hunks) && i < j < |hunks|
    ensures hunks[i].end < hunks[j].start
    decreases j
  {
    assert MaximalRun(ops, hunks[j - 1].start, hunks[j - 1].end);
    if i < j - 1 { RunsAscend(ops, hunks, i, j - 1); }
  }

  /** Where two groupings agree so far, the next run of one is a run of the other, no earlier. */
  lemma NextRunIsThere(ops: seq<DiffOp>, a: seq<Hunk>, b: seq<Hunk>, n: nat) returns (k: nat)
    requires Grouped(ops, a) && Grouped(ops, b) && n < |a| && n <= |b|
    requires forall i | 0 <= i < n :: a[i].start == b[i].start && a[i].end == b[i].end
    ensures n <= k < |b| && a[n].start == b[k].start && a[n].end == b[k].end
  {
    var s := a[n].start;
    assert MaximalRun(ops, s, a[n].end);
    assert Change(ops, s);
    k :| 0 <= k < |b| && b[k].start <= s < b[k].end;
    assert MaximalRun(ops, b[k].start, b[k].end);
    SameRun(ops, b[k].start, b[k].end, s, a[n].end);
    if k < n { RunsAscend(ops, a, k, n); }
  }

  /** There is only one way to group. */
  lemma {:induction false} GroupingIsUnique(ops: seq<DiffOp>, a: seq<Hunk>, b: seq<Hunk>, n: nat)
    requires Grouped(ops, a) && Grouped(ops, b) && n <= |a|
    ensures n <= |b| && forall k | 0 <= k < n :: a[k].start == b[k].start && a[k].end == b[k].end
  {
    if n > 0 {
      var m := n - 1;
      GroupingIsUnique(ops, a, b, m);
      var k := NextRunIsThere(ops, a, b, m);
      var j := NextRunIsThere(ops, b, a, m);
      if m < k { RunsAscend(ops, b, m, k); }
      if m < j { RunsAscend(ops, a, m, j); }
      assert MaximalRun(ops, a[m].start, a[m].end);
      assert MaximalRun(ops, b[m].start, b[m].end);
    }
  }

  // ---------------------------------------------------------------- rebuilding

  function OldSide(ops: seq<DiffOp>): seq<string> {
    if ops == [] then []
    else (if ops[0].kind == Added then [] else [ops[0].text]) + OldSide(ops[1..])
  }

  function NewSide(ops: seq<DiffOp>): seq<string> {
    if ops == [] then []
    else (if ops[0].kind == Removed then [] else [ops[0].text]) + NewSide(ops[1..])
  }

  ghost predicate AcceptedAt(hunks: seq<Hunk>, i: int) {
    exists k :: 0 <= k < |hunks| && hunks[k].status == Accepted && hunks[k].start <= i < hunks[k].end
  }

  /** The line an operation contributes, if it contributes one. */
  function Line(op: DiffOp, takeNew: bool): seq<string> {
    if op.kind == Context || (op.kind == Removed && !takeNew) || (op.kind == Added && takeNew) then [op.text] else []
  }

  ghost function Output(ops: seq<DiffOp>, hunks: seq<Hunk>, i: nat): seq<string>
    requires i <= |ops|
    decreases |ops| - i
  {
    if i == |ops| then [] else Line(ops[i], AcceptedAt(hunks, i)) + Output(ops, hunks, i + 1)
  }

  function Lines(text: string): seq<string> {
    if text == "" then [] else Split(text, '\n')
  }

  /** What rebuilding returns. */
  ghost function Applied(oldText: string, ops: seq<DiffOp>, hunks: seq<Hunk>): string {
    if ops == [] then oldText else Join(Output(ops, hunks, 0), '\n')
  }

  /** The positions inside accepted hunks. */
  method AcceptedPositions(hunks: seq<Hunk>) returns (accepted: set<int>)
    ensures forall i :: i in accepted <==> AcceptedAt(hunks, i)
  {
    accepted := {};
    var h := 0;
    while h < |hunks|
      invariant 0 <= h <= |hunks|
      invariant forall i :: i in accepted <==> AcceptedAt(hunks[..h], i)
    {
      if hunks[h].status == Accepted {
        var i := hunks[h].start;
        while i < hunks[h].end
          invariant forall j :: j in accepted <==> AcceptedAt(hunks[..h], j) || hunks[h].start <= j < i
          invariant i <= hunks[h].end || i == hunks[h].start
        {
          accepted := accepted + {i};
          i := i + 1;
        }
      }
      forall i ensures i in accepted <==> AcceptedAt(hunks[..h + 1], i) {
        AcceptedGrows(hunks, h, i);
      }
      h := h + 1;
    }
    assert hunks[..h] == hunks;
  }

  lemma OutputStep(ops: seq<DiffOp>, hunks: seq<Hunk>, i: nat, out: seq<string>)
    requires i < |ops|
    ensures out + Output(ops, hunks, i) == (out + Line(ops[i], AcceptedAt(hunks, i))) + Output(ops, hunks, i + 1)
    ensures Line(ops[i], AcceptedAt(hunks, i)) == [] ==> out + Output(ops, hunks, i) == out + Output(ops, hunks, i + 1)
  {
    hide AcceptedAt, Line;
  }

  lemma NothingLeft(ops: seq<DiffOp>, hunks: seq<Hunk>, out: seq<string>)
    ensures out + Output(ops, hunks, |ops|) == out
  {
  }

  lemma NoLines(text: string)
    ensures Lines(text) == [] <==> text == ""
    ensures Join([], '\n') == ""
  {
  }

  method ApplyHunksToOldText(oldText: string, ops: seq<DiffOp>, hunks: seq<Hunk>) returns (text: string)
    ensures text == Applied(oldText, ops, hunks)
  {
    var accepted := AcceptedPositions(hunks);
    hide AcceptedAt, Output, Join, Split;
    var oldLines := Lines(oldText);
    var out: seq<string> := [];
    var oi := 0;
    var i := 0;
    while i < |ops|
      invariant 0 <= i <= |ops| && (ops == [] ==> oi == 0 && out == [])
      invariant out + Output(ops, hunks, i) == Output(ops, hunks, 0)
    {
      var op := ops[i];
      OutputStep(ops, hunks, i, out);
      if op.kind == Context {
        out := out + [op.text];
        oi := oi + 1;
      } else if op.kind == Removed {
        if i !in accepted { out := out + [op.text]; }
        oi := oi + 1;
      } else if i in accepted {
        out := out + [op.text];
      }
      i := i + 1;
    }
    NothingLeft(ops, hunks, out);
    NoLines(oldText);
    if oi < |oldLines| && |ops| == 0 { return oldText; }
    return Join(out, '\n');
  }

  lemma AcceptedGrows(hunks: seq<Hunk>, h: nat, i: int)
    requires h < |hunks|
    ensures AcceptedAt(hunks[..h + 1], i) <==> AcceptedAt(hunks[..h], i) || (hunks[h].status == Accepted && hunks[h].start <= i < hunks[h].end)
  {
    var more, less := hunks[..h + 1], hunks[..h];
    if AcceptedAt(less, i) {
      var k :| 0 <= k < h && less[k].status == Accepted && less[k].start <= i < less[k].end;
      assert more[k] == less[k];
    }
    assert more[h] == hunks[h];
    if AcceptedAt(more, i) {
      var k :| 0 <= k <= h && more[k].status == Accepted && more[k].start <= i < more[k].end;
      if k < h { assert less[k] == more[k]; }
    }
  }

  // ---------------------------------------------------------------- hunk by hunk

  /** Old lines up to each hunk, then the hunk's new side if it was accepted and its old side if not. */
  ghost function Spliced(ops: seq<DiffOp>, hunks: seq<Hunk>, k: nat, from: nat): seq<string>
    requires k <= |hunks| && from <= |ops|
    requires forall i | k <= i < |hunks| :: from <= hunks[i].start <= hunks[i].end <= |ops|
    requires forall i, j | k <= i < j < |hunks| :: hunks[i].end <= hunks[j].start
    decreases |hunks| - k
  {
    if k == |hunks| then OldSide(ops[from..])
    else
      var h := hunks[k];
      OldSide(ops[from..h.start])
      + (if h.status == Accepted then NewSide(ops[h.start..h.end]) else OldSide(ops[h.start..h.end]))
      + Spliced(ops, hunks, k + 1, h.end)
  }

  function Side(ops: seq<DiffOp>, takeNew: bool): seq<string> {
    if takeNew then NewSide(ops) else OldSide(ops)
  }

  lemma SideStep(ops: seq<DiffOp>, from: nat, end: nat, takeNew: bool)
    requires from < end <= |ops|
    ensures Side(ops[from..end], takeNew) == Line(ops[from], takeNew) + Side(ops[from + 1..end], takeNew)
  {
    assert ops[from..end][1..] == ops[from + 1..end];
  }

  lemma {:induction false} OutputSplits(ops: seq<DiffOp>, hunks: seq<Hunk>, from: nat, end: nat, takeNew: bool)
    requires from <= end <= |ops|
    requires forall i | from <= i < end :: AcceptedAt(hunks, i) == takeNew
    ensures Output(ops, hunks, from) == Side(ops[from..end], takeNew) + Output(ops, hunks, end)
    decreases end - from
  {
    if from < end {
      OutputSplits(ops, hunks, from + 1, end, takeNew);
      SideStep(ops, from, end, takeNew);
      OutputStep(ops, hunks, from, []);
      hide Side, AcceptedAt, Line, Output;
      Regroup(Line(ops[from], takeNew), Side(ops[from + 1..end], takeNew), Output(ops, hunks, end));
    }
  }

  lemma Regroup(a: seq<string>, b: seq<string>, c: seq<string>)
    ensures (a + b) + c == a + (b + c)
  {
  }

  lemma AcceptedInside(ops: seq<DiffOp>, hunks: seq<Hunk>, k: nat, i: int)
    requires Grouped(ops, hunks) && k < |hunks| && hunks[k].start <= i < hunks[k].end
    ensures AcceptedAt(hunks, i) == (hunks[k].status == Accepted)
  {
    if AcceptedAt(hunks, i) {
      var j :| 0 <= j < |hunks| && hunks[j].status == Accepted && hunks[j].start <= i < hunks[j].end;
      if j < k { RunsAscend(ops, hunks, j, k); }
      if k < j { RunsAscend(ops, hunks, k, j); }
    }
  }

  lemma GroupedFits(ops: seq<DiffOp>, hunks: seq<Hunk>)
    requires Grouped(ops, hunks)
    ensures forall i | 0 <= i < |hunks| :: hunks[i].start <= hunks[i].end <= |ops|
    ensures forall i, j | 0 <= i < j < |hunks| :: hunks[i].end <= hunks[j].start
  {
    forall i | 0 <= i < |hunks| ensures hunks[i].start <= hunks[i].end <= |ops| {
      assert MaximalRun(ops, hunks[i].start, hunks[i].end);
    }
    forall i, j | 0 <= i < j < |hunks| ensures hunks[i].end <= hunks[j].start {
      RunsAscend(ops, hunks, i, j);
    }
  }

  lemma NotAcceptedBetween(ops: seq<DiffOp>, hunks: seq<Hunk>, k: nat, i: int)
    requires Grouped(ops, hunks) && k <= |hunks| && (k > 0 ==> hunks[k - 1].end <= i) && (k < |hunks| ==> i < hunks[k].start)
    ensures !AcceptedAt(hunks, i)
  {
    GroupedFits(ops, hunks);
    hide Grouped;
    forall j | 0 <= j < |hunks| ensures !(hunks[j].start <= i < hunks[j].end) {
    }
  }

  /** The lines up to the end of a hunk: the old ones before it, then one side of it. */
  lemma OutputOfHunk(ops: seq<DiffOp>, hunks: seq<Hunk>, k: nat, from: nat)
    requires Grouped(ops, hunks) && k < |hunks| && from == (if k == 0 then 0 else hunks[k - 1].end)
    requires from <= hunks[k].start <= hunks[k].end <= |ops|
    ensures var h := hunks[k];
            Output(ops, hunks, from) == OldSide(ops[from..h.start])
            + (if h.status == Accepted then NewSide(ops[h.start..h.end]) else OldSide(ops[h.start..h.end]))
            + Output(ops, hunks, h.end)
  {
    var h := hunks[k];
    hide Grouped, AcceptedAt, Output, OldSide, NewSide;
    forall i | from <= i < h.start ensures !AcceptedAt(hunks, i) { NotAcceptedBetween(ops, hunks, k, i); }
    forall i | h.start <= i < h.end ensures AcceptedAt(hunks, i) == (h.status == Accepted) { AcceptedInside(ops, hunks, k, i); }
    OutputSplits(ops, hunks, from, h.start, false);
    OutputSplits(ops, hunks, h.start, h.end, h.status == Accepted);
    var first, second, rest := Side(ops[from..h.start], false), Side(ops[h.start..h.end], h.status == Accepted), Output(ops, hunks, h.end);
    assert first == OldSide(ops[from..h.start]);
    assert second == if h.status == Accepted then NewSide(ops[h.start..h.end]) else OldSide(ops[h.start..h.end]);
    hide Side;
    Regroup(first, second, rest);
  }

  lemma OutputOfTail(ops: seq<DiffOp>, hunks: seq<Hunk>, from: nat)
    requires Grouped(ops, hunks) && from <= |ops| && from == (if hunks == [] then 0 else hunks[|hunks| - 1].end)
    ensures Output(ops, hunks, from) == OldSide(ops[from..])
  {
    forall i | from <= i < |ops| ensures !AcceptedAt(hunks, i) { NotAcceptedBetween(ops, hunks, |hunks|, i); }
    OutputSplits(ops, hunks, from, |ops|, false);
    assert ops[from..|ops|] == ops[from..];
  }

  lemma {:induction false} OutputIsSplicedFrom(ops: seq<DiffOp>, hunks: seq<Hunk>, k: nat, from: nat)
    requires Grouped(ops, hunks) && k <= |hunks| && from == (if k == 0 then 0 else hunks[k - 1].end) && from <= |ops|
    requires forall i | k <= i < |hunks| :: from <= hunks[i].start <= hunks[i].end <= |ops|
    requires forall i, j | k <= i < j < |hunks| :: hunks[i].end <= hunks[j].start
    ensures Output(ops, hunks, from) == Spliced(ops, hunks, k, from)
    decreases |hunks| - k
  {
    hide Grouped, Output, OldSide, NewSide;
    if k == |hunks| {
      OutputOfTail(ops, hunks, from);
    } else {
      OutputOfHunk(ops, hunks, k, from);
      OutputIsSplicedFrom(ops, hunks, k + 1, hunks[k].end);
    }
  }

  /** The rebuilt lines are the hunk-by-hunk splice of new and old sides. */
  lemma OutputIsTheSplice(ops: seq<DiffOp>, hunks: seq<Hunk>)
    requires Grouped(ops, hunks)
    ensures (forall i | 0 <= i < |hunks| :: hunks[i].start <= hunks[i].end <= |ops|)
    ensures (forall i, j | 0 <= i < j < |hunks| :: hunks[i].end <= hunks[j].start)
    ensures Output(ops, hunks, 0) == Spliced(ops, hunks, 0, 0)
  {
    GroupedFits(ops, hunks);
    OutputIsSplicedFrom(ops, hunks, 0, 0);
  }

  lemma {:induction false} OutputIsNew(ops: seq<DiffOp>, hunks: seq<Hunk>, i: nat)
    requires i <= |ops| && forall j | i <= j < |ops| && Change(ops, j) :: AcceptedAt(hunks, j)
    ensures Output(ops, hunks, i) == NewSide(ops[i..])
    decreases |ops| - i
  {
    if i < |ops| {
      OutputIsNew(ops, hunks, i + 1);
      assert ops[i..][1..] == ops[i + 1..];
      assert Change(ops, i) <==> ops[i].kind != Context;
    }
  }

  lemma {:induction false} OutputIsOld(ops: seq<DiffOp>, hunks: seq<Hunk>, i: nat)
    requires i <= |ops| && forall j | i <= j < |ops| :: !AcceptedAt(hunks, j)
    ensures Output(ops, hunks, i) == OldSide(ops[i..])
    decreases |ops| - i
  {
    if i < |ops| {
      OutputIsOld(ops, hunks, i + 1);
      assert ops[i..][1..] == ops[i + 1..];
    }
  }

  lemma LinesJoin(text: string)
    ensures Join(Lines(text), '\n') == text
  {
    if text != "" { JoinSplit(text, '\n'); }
  }

  /** With every hunk accepted, a diff from the old text to the new gives the new text. */
  lemma AllAcceptedGivesNewText(oldText: string, newText: string, ops: seq<DiffOp>, hunks: seq<Hunk>)
    requires Grouped(ops, hunks) && OldSide(ops) == Lines(oldText) && NewSide(ops) == Lines(newText)
    requires forall k | 0 <= k < |hunks| :: hunks[k].status == Accepted
    ensures Applied(oldText, ops, hunks) == newText
  {
    LinesJoin(newText);
    LinesJoin(oldText);
    forall j | 0 <= j < |ops| && Change(ops, j) ensures AcceptedAt(hunks, j) {
      var k :| 0 <= k < |hunks| && hunks[k].start <= j < hunks[k].end;
    }
    OutputIsNew(ops, hunks, 0);
    assert ops[0..] == ops;
  }

  /** With no hunk accepted, pending ones included, the text stays as it was. */
  lemma NoneAcceptedKeepsOldText(oldText: string, ops: seq<DiffOp>, hunks: seq<Hunk>)
    requires OldSide(ops) == Lines(oldText) && forall k | 0 <= k < |hunks| :: hunks[k].status != Accepted
    ensures Applied(oldText, ops, hunks) == oldText
  {
    LinesJoin(oldText);
    OutputIsOld(ops, hunks, 0);
    assert ops[0..] == ops;
  }

  /**
   * Nothing is checked about the operations themselves: old lines they do not
   * mention are dropped even when every hunk is rejected.  The text stays as it
   * was exactly when there are no operations or they list its lines in full.
   */
  lemma OldTextKeptExactlyWhen(oldText: string, ops: seq<DiffOp>, hunks: seq<Hunk>)
    requires forall k | 0 <= k < |hunks| :: hunks[k].status != Accepted
    requires forall i | 0 <= i < |ops| :: '\n' !in ops[i].text
    ensures Applied(oldText, ops, hunks) == oldText <==>
              ops == [] || OldSide(ops) == Lines(oldText) || (oldText == "" && OldSide(ops) == [""])
  {
    var kept := OldSide(ops);
    OutputIsOld(ops, hunks, 0);
    assert ops[0..] == ops;
    OldSideWithout(ops);
    LinesJoin(oldText);
    if kept != [] {
      SplitJoin(kept, '\n');
    }
  }

  lemma {:induction false} OldSideWithout(ops: seq<DiffOp>)
    requires forall i | 0 <= i < |ops| :: '\n' !in ops[i].text
    ensures Without(OldSide(ops), '\n')
  {
    if ops != [] {
      assert forall i | 0 <= i < |ops[1..]| :: ops[1..][i] == ops[i + 1];
      OldSideWithout(ops[1..]);
    }
  }

  // ---------------------------------------------------------------- deciding

  datatype Decision = Decision(ordinal: nat, accept: bool)

  /** The last decision about a hunk counts, if there is one. */
  function LastDecision(decisions: seq<Decision>, ordinal: nat): Status {
    if decisions == [] then Pending
    else
      var n := |decisions| - 1;
      if decisions[n].ordinal == ordinal then (if decisions[n].accept then Accepted else Rejected)
      else LastDecision(decisions[..n], ordinal)
  }

  function Decided(h: Hunk, decisions: seq<Decision>): Hunk {
    if h.status != Pending then h else h.(status := LastDecision(decisions, h.ordinal))
  }

  function ApplyHunkDecisions(hunks: seq<Hunk>, decisions: seq<Decision>): (decided: seq<Hunk>)
    ensures |decided| == |hunks|
  {
    seq(|hunks|, i requires 0 <= i < |hunks| => Decided(hunks[i], decisions))
  }

  /** Some decision of the batch accepts or rejects the hunk of this number, and no later one is about it. */
  ghost predicate FinallySays(decisions: seq<Decision>, ordinal: nat, accept: bool) {
    exists j :: 0 <= j < |decisions| && decisions[j].ordinal == ordinal && decisions[j].accept == accept
                && forall k :: j < k < |decisions| ==> decisions[k].ordinal != ordinal
  }

  lemma {:induction false} LastDecisionSays(decisions: seq<Decision>, ordinal: nat)
    ensures LastDecision(decisions, ordinal) == Accepted <==> FinallySays(decisions, ordinal, true)
    ensures LastDecision(decisions, ordinal) == Rejected <==> FinallySays(decisions, ordinal, false)
  {
    if decisions != [] {
      var n := |decisions| - 1;
      var less := decisions[..n];
      LastDecisionSays(less, ordinal);
      forall accept: bool ensures decisions[n].ordinal != ordinal ==> (FinallySays(decisions, ordinal, accept) <==> FinallySays(less, ordinal, accept)) {
        if decisions[n].ordinal != ordinal && FinallySays(less, ordinal, accept) {
          var j :| 0 <= j < n && less[j].ordinal == ordinal && less[j].accept == accept && forall k :: j < k < n ==> less[k].ordinal != ordinal;
          assert decisions[j] == less[j];
          assert forall k :: j < k < |decisions| ==> k == n || decisions[k] == less[k];
        }
        if decisions[n].ordinal != ordinal && FinallySays(decisions, ordinal, accept) {
          var j :| 0 <= j <= n && decisions[j].ordinal == ordinal && decisions[j].accept == accept && forall k :: j < k <= n ==> decisions[k].ordinal != ordinal;
          assert less[j] == decisions[j];
        }
      }
    }
  }

  /**
   * A pending hunk becomes accepted exactly when the last decision about it in
   * the batch accepts, and rejected exactly when it rejects; a hunk without a
   * decision, and one that was decided before, stays as it is.
   */
  lemma DecidedExactlyWhen(hunks: seq<Hunk>, decisions: seq<Decision>, i: nat)
    requires i < |hunks|
    ensures var (h, d) := (hunks[i], ApplyHunkDecisions(hunks, decisions)[i]);
            && d == h.(status := d.status)
            && (h.status != Pending ==> d == h)
            && (h.status == Pending ==>
                  && (d.status == Accepted <==> FinallySays(decisions, h.ordinal, true))
                  && (d.status == Rejected <==> FinallySays(decisions, h.ordinal, false))
                  && (d.status == Pending <==> forall j :: 0 <= j < |decisions| ==> decisions[j].ordinal != h.ordinal))
  {
    LastDecisionSays(decisions, hunks[i].ordinal);
    LastDecisionIsThere(decisions, hunks[i].ordinal);
  }

  lemma {:induction false} LastDecisionIsThere(decisions: seq<Decision>, ordinal: nat)
    ensures LastDecision(decisions, ordinal) == Pending <==> forall j :: 0 <= j < |decisions| ==> decisions[j].ordinal != ordinal
  {
    if decisions != [] {
      var n := |decisions| - 1;
      LastDecisionIsThere(decisions[..n], ordinal);
      assert forall j :: 0 <= j < n ==> decisions[..n][j] == decisions[j];
    }
  }

  /** Accepting every hunk of a fresh diff gives the new text, and rejecting every one keeps the old. */
  lemma DecidingAllGivesThatText(oldText: string, newText: string, ops: seq<DiffOp>, hunks: seq<Hunk>, decisions: seq<Decision>, accept: bool)
    requires Grouped(ops, hunks) && OldSide(ops) == Lines(oldText) && NewSide(ops) == Lines(newText)
    requires forall i :: 0 <= i < |hunks| ==> hunks[i].status == Pending && FinallySays(decisions, hunks[i].ordinal, accept)
    ensures Applied(oldText, ops, ApplyHunkDecisions(hunks, decisions)) == if accept then newText else oldText
  {
    var decided := ApplyHunkDecisions(hunks, decisions);
    forall i | 0 <= i < |hunks| ensures decided[i] == hunks[i].(status := if accept then Accepted else Rejected) {
      DecidedExactlyWhen(hunks, decisions, i);
    }
    SameGrouping(ops, hunks, decided);
    if accept {
      AllAcceptedGivesNewText(oldText, newText, ops, decided);
    } else {
      NoneAcceptedKeepsOldText(oldText, ops, decided);
    }
  }

  lemma SameGrouping(ops: seq<DiffOp>, hunks: seq<Hunk>, decided: seq<Hunk>)
    requires Grouped(ops, hunks) && |decided| == |hunks|
    requires forall i :: 0 <= i < |hunks| ==> decided[i] == hunks[i].(status := decided[i].status)
    ensures Grouped(ops, decided)
  {
    forall i | 0 <= i < |ops| && Change(ops, i) ensures Covered(decided, i) {
      var k :| 0 <= k < |hunks| && hunks[k].start <= i < hunks[k].end;
      assert decided[k].start <= i < decided[k].end;
    }
  }

  lemma {:induction false} LastOfBoth(first: seq<Decision>, second: seq<Decision>, ordinal: nat)
    ensures LastDecision(first + second, ordinal)
         == if LastDecision(second, ordinal) == Pending then LastDecision(first, ordinal) else LastDecision(second, ordinal)
  {
    if second == [] {
      assert first + second == first;
    } else {
      var n := |second| - 1;
      LastOfBoth(first, second[..n], ordinal);
      assert (first + second)[..|first| + n] == first + second[..n];
    }
  }

  /** Within one batch the last decision of a hunk counts; across batches the first does. */
  lemma EarlierBatchWins(hunks: seq<Hunk>, first: seq<Decision>, second: seq<Decision>)
    ensures ApplyHunkDecisions(ApplyHunkDecisions(hunks, first), second) == ApplyHunkDecisions(hunks, second + first)
  {
    forall i | 0 <= i < |hunks| ensures Decided(Decided(hunks[i], first), second) == Decided(hunks[i], second + first) {
      LastOfBoth(second, first, hunks[i].ordinal);
    }
  }

  ghost predicate Apart(first: seq<Decision>, second: seq<Decision>) {
    forall n: nat :: LastDecision(first, n) == Pending || LastDecision(second, n) == Pending
  }

  /** Batches about distinct hunks may come in either order, and give the same text. */
  lemma OrderOfDecisionsIsFree(oldText: string, ops: seq<DiffOp>, hunks: seq<Hunk>, first: seq<Decision>, second: seq<Decision>)
    requires Apart(first, second)
    ensures ApplyHunkDecisions(ApplyHunkDecisions(hunks, first), second) == ApplyHunkDecisions(ApplyHunkDecisions(hunks, second), first)
    ensures Applied(oldText, ops, ApplyHunkDecisions(ApplyHunkDecisions(hunks, first), second))
         == Applied(oldText, ops, ApplyHunkDecisions(ApplyHunkDecisions(hunks, second), first))
  {
    var a := ApplyHunkDecisions(ApplyHunkDecisions(hunks, first), second);
    var b := ApplyHunkDecisions(ApplyHunkDecisions(hunks, second), first);
    forall i | 0 <= i < |hunks| ensures a[i] == b[i] {
      assert LastDecision(first, hunks[i].ordinal) == Pending || LastDecision(second, hunks[i].ordinal) == Pending;
    }
    assert a == b;
  }

  datatype Aggregate = AllPending | AllAccepted | AllRejected | Partial

  function AggregateHunkStatus(hunks: seq<Hunk>): Aggregate {
    if hunks == [] then AllAccepted
    else if exists k :: 0 <= k < |hunks| && hunks[k].status == Pending then AllPending
    else if forall k | 0 <= k < |hunks| :: hunks[k].status == Accepted then AllAccepted
    else if forall k | 0 <= k < |hunks| :: hunks[k].status == Rejected then AllRejected
    else Partial
  }

  /** What each shown status says about the hunks. */
  lemma AggregateMeans(hunks: seq<Hunk>)
    ensures AggregateHunkStatus(hunks) == AllAccepted <==> forall k :: 0 <= k < |hunks| ==> hunks[k].status == Accepted
    ensures AggregateHunkStatus(hunks) == AllRejected <==> hunks != [] && forall k :: 0 <= k < |hunks| ==> hunks[k].status == Rejected
    ensures AggregateHunkStatus(hunks) == AllPending <==> exists k :: 0 <= k < |hunks| && hunks[k].status == Pending
    ensures AggregateHunkStatus(hunks) == Partial <==>
              && (exists k :: 0 <= k < |hunks| && hunks[k].status == Accepted)
              && (exists k :: 0 <= k < |hunks| && hunks[k].status == Rejected)
              && forall k :: 0 <= k < |hunks| ==> hunks[k].status != Pending
  {
    forall k | 0 <= k < |hunks| ensures hunks[k].status == Pending || hunks[k].status == Accepted || hunks[k].status == Rejected {
      match hunks[k].status { case Pending => case Accepted => case Rejected => }
    }
    assert hunks != [] && hunks[0].status == Rejected ==> hunks[0].status != Accepted;
  }

  /** The status shown agrees with the text: accepted means the new text, rejected the old one. */
  lemma StatusAgreesWithText(oldText: string, newText: string, ops: seq<DiffOp>, hunks: seq<Hunk>)
    requires Grouped(ops, hunks) && OldSide(ops) == Lines(oldText) && NewSide(ops) == Lines(newText)
    ensures AggregateHunkStatus(hunks) == AllAccepted ==> Applied(oldText, ops, hunks) == newText
    ensures AggregateHunkStatus(hunks) == AllRejected ==> Applied(oldText, ops, hunks) == oldText
  {
    if AggregateHunkStatus(hunks) == AllAccepted { AllAcceptedGivesNewText(oldText, newText, ops, hunks); }
    if AggregateHunkStatus(hunks) == AllRejected { NoneAcceptedKeepsOldText(oldText, ops, hunks); }
  }
}
