/**
 * Exactly when a resume goes through, and which workspace it leaves on record:
 * every uncertain stage needs a marker that the verifier accepts, and the
 * markers that fix what was written must agree on the workspace.
 */
module RunResume {
  import opened Common
  import opened PG = PipelineGraph
  import opened RunBudget
  import opened RunState
  import opened RunValidity
  import opened RunCoordination
  import opened RunGuarantees
  import opened RunLifecycle

  /** What each stage is offered; `None` for a stage that needs nothing or is offered nothing. */
  type Offering = seq<Option<Receipt>>

  /** Every stage that needs a marker has one that is verified and says an outcome. */
  ghost predicate AllSettled(env: Env, stages: seq<RunStage>, offers: Offering)
    requires |offers| == |stages|
  {
    forall i :: 0 <= i < |stages| && NeedsResolution(stages[i]) ==> Settles(env, offers[i])
  }

  ghost predicate Settles(env: Env, offer: Option<Receipt>) {
    offer.Some? && env.resolutionVerified(offer.value) && offer.value.outcome.Some?
  }

  /** The stage at `i` is settled as applied or abandoned, which fixes the workspace. */
  ghost predicate Fixes(stages: seq<RunStage>, offers: Offering, i: int)
    requires |offers| == |stages|
  {
    && 0 <= i < |stages| && NeedsResolution(stages[i])
    && offers[i].Some? && offers[i].value.outcome.Some? && !offers[i].value.outcome.value.Retry?
  }

  ghost predicate Agree(stages: seq<RunStage>, offers: Offering, last: Option<Receipt>)
    requires |offers| == |stages|
  {
    && (forall i, j :: Fixes(stages, offers, i) && Fixes(stages, offers, j) ==>
          offers[i].value.workspaceDigest == offers[j].value.workspaceDigest)
    && (last.Some? ==> forall i :: Fixes(stages, offers, i) ==> offers[i].value.workspaceDigest == last.value.workspaceDigest)
  }

  /** The last marker that fixes the workspace, or the one from before. */
  ghost predicate LastFix(stages: seq<RunStage>, offers: Offering, last: Option<Receipt>, r: Option<Receipt>)
    requires |offers| == |stages|
  {
    && ((forall i :: !Fixes(stages, offers, i)) ==> r == last)
    && (forall i :: Fixes(stages, offers, i) && (forall j :: i < j ==> !Fixes(stages, offers, j)) ==> r == offers[i])
  }

  ghost function OffersFor(stages: seq<RunStage>, m: Markers, count: nat): Offering {
    seq(|stages|, i requires 0 <= i < |stages| => MarkerFor(m, stages[i].id, count))
  }

  lemma TailFixes(stages: seq<RunStage>, offers: Offering, i: int)
    requires |offers| == |stages| > 0
    ensures i >= 1 ==> (Fixes(stages, offers, i) <==> Fixes(stages[1..], offers[1..], i - 1))
    ensures Fixes(stages[1..], offers[1..], i) ==> Fixes(stages, offers, i + 1) && offers[i + 1] == offers[1..][i]
  {
  }

  lemma {:induction false} AgreeStep(stages: seq<RunStage>, offers: Offering, last: Option<Receipt>)
    requires |offers| == |stages| > 0
    ensures !Fixes(stages, offers, 0) ==> (Agree(stages, offers, last) <==> Agree(stages[1..], offers[1..], last))
    ensures Fixes(stages, offers, 0) ==>
              (Agree(stages, offers, last) <==>
                && Agree(stages[1..], offers[1..], offers[0])
                && (last.Some? ==> last.value.workspaceDigest == offers[0].value.workspaceDigest))
  {
    forall i ensures i >= 1 ==> (Fixes(stages, offers, i) <==> Fixes(stages[1..], offers[1..], i - 1)) {
      TailFixes(stages, offers, i);
    }
    forall i | Fixes(stages[1..], offers[1..], i) ensures Fixes(stages, offers, i + 1) && offers[i + 1] == offers[1..][i] {
      TailFixes(stages, offers, i);
    }
  }

  lemma {:induction false} LastFixStep(stages: seq<RunStage>, offers: Offering, last: Option<Receipt>, r: Option<Receipt>)
    requires |offers| == |stages| > 0
    requires LastFix(stages[1..], offers[1..], if Fixes(stages, offers, 0) then offers[0] else last, r)
    ensures LastFix(stages, offers, last, r)
  {
    forall i ensures i >= 1 ==> (Fixes(stages, offers, i) <==> Fixes(stages[1..], offers[1..], i - 1)) {
      TailFixes(stages, offers, i);
    }
    forall i ensures Fixes(stages[1..], offers[1..], i) ==> Fixes(stages, offers, i + 1) {
      TailFixes(stages, offers, i);
    }
  }

  lemma AllSettledStep(env: Env, stages: seq<RunStage>, offers: Offering)
    requires |offers| == |stages| > 0
    ensures AllSettled(env, stages, offers) <==>
              (NeedsResolution(stages[0]) ==> Settles(env, offers[0])) && AllSettled(env, stages[1..], offers[1..])
  {
    var rest, more := stages[1..], offers[1..];
    if AllSettled(env, stages, offers) {
      forall i | 0 <= i < |rest| && NeedsResolution(rest[i]) ensures Settles(env, more[i]) {
        assert rest[i] == stages[i + 1] && more[i] == offers[i + 1];
      }
    }
    if (NeedsResolution(stages[0]) ==> Settles(env, offers[0])) && AllSettled(env, rest, more) {
      forall i | 0 <= i < |stages| && NeedsResolution(stages[i]) ensures Settles(env, offers[i]) {
        assert i > 0 ==> rest[i - 1] == stages[i] && more[i - 1] == offers[i];
      }
    }
  }

  /** Resolving the stages in order goes through exactly when all are settled and the fixing markers agree. */
  lemma {:induction false} ResolvesExactlyWhen(env: Env, stages: seq<RunStage>, m: Markers, count: nat, last: Option<Receipt>)
    ensures var offers := OffersFor(stages, m, count);
            var r := ResolveAll(env, stages, m, count, last);
            && (r.Ok? <==> AllSettled(env, stages, offers) && Agree(stages, offers, last))
            && (r.Ok? ==> LastFix(stages, offers, last, r.value.1))
    decreases |stages|
  {
    var offers := OffersFor(stages, m, count);
    if stages != [] {
      assert OffersFor(stages[1..], m, count) == offers[1..];
      var next := if Fixes(stages, offers, 0) then offers[0] else last;
      ResolvesExactlyWhen(env, stages[1..], m, count, next);
      AgreeStep(stages, offers, last);
      AllSettledStep(env, stages, offers);
      if ResolveAll(env, stages[1..], m, count, next).Ok? {
        LastFixStep(stages, offers, last, ResolveAll(env, stages[1..], m, count, next).value.1);
      }
      hide AllSettled, Agree, LastFix;
    }
  }

  // ---------------------------------------------------------------- in terms of the run

  /** The stage at `i` is uncertain and the call settles it as applied or abandoned. */
  ghost predicate CallFixes(run: RunRecord, m: Markers, i: int) {
    && 0 <= i < |run.stages| && run.stages[i].status.Uncertain?
    && Offered(run, m, i).Some? && Offered(run, m, i).value.outcome.Some? && !Offered(run, m, i).value.outcome.value.Retry?
  }

  ghost predicate IsLastFix(run: RunRecord, m: Markers, i: int) {
    CallFixes(run, m, i) && forall j :: i < j ==> !CallFixes(run, m, j)
  }

  ghost predicate OffersSettle(env: Env, run: RunRecord, m: Markers) {
    forall i :: 0 <= i < |run.stages| && run.stages[i].status.Uncertain? ==> Settles(env, Offered(run, m, i))
  }

  ghost predicate OffersAgree(run: RunRecord, m: Markers) {
    forall i, j :: CallFixes(run, m, i) && CallFixes(run, m, j) ==>
      Offered(run, m, i).value.workspaceDigest == Offered(run, m, j).value.workspaceDigest
  }

  ghost function OffersOf(run: RunRecord, m: Markers): Offering {
    OffersFor(Rearmed(run), m, CountUncertain(Rearmed(run)))
  }

  lemma SameNeeds(env: Env, run: RunRecord, m: Markers, i: nat)
    requires RunOk(env, run) && i < |run.stages|
    ensures NeedsResolution(Rearmed(run)[i]) <==> run.stages[i].status.Uncertain?
    ensures run.stages[i].status.Uncertain? ==> OffersOf(run, m)[i] == Offered(run, m, i)
  {
    assert StageSound(run.stages[i]);
    if run.stages[i].status.Uncertain? {
      OfferedIsTheMarker(env, run, m, i);
      assert Rearmed(run)[i] == run.stages[i];
    }
    hide Offered, CountUncertain, MarkerFor, RunOk;
  }

  lemma SameFixes(env: Env, run: RunRecord, m: Markers, i: int)
    requires RunOk(env, run)
    ensures CallFixes(run, m, i) <==> Fixes(Rearmed(run), OffersOf(run, m), i)
    ensures CallFixes(run, m, i) ==> OffersOf(run, m)[i] == Offered(run, m, i)
  {
    if 0 <= i < |run.stages| { SameNeeds(env, run, m, i); }
    hide RunOk, Rearmed, NeedsResolution, Offered;
  }

  lemma SameOffers(env: Env, run: RunRecord, m: Markers)
    requires RunOk(env, run)
    ensures AllSettled(env, Rearmed(run), OffersOf(run, m)) <==> OffersSettle(env, run, m)
    ensures Agree(Rearmed(run), OffersOf(run, m), None) <==> OffersAgree(run, m)
  {
    forall i | 0 <= i < |run.stages|
      ensures NeedsResolution(Rearmed(run)[i]) <==> run.stages[i].status.Uncertain?
      ensures run.stages[i].status.Uncertain? ==> OffersOf(run, m)[i] == Offered(run, m, i)
    {
      SameNeeds(env, run, m, i);
    }
    forall i
      ensures CallFixes(run, m, i) <==> Fixes(Rearmed(run), OffersOf(run, m), i)
      ensures CallFixes(run, m, i) ==> OffersOf(run, m)[i] == Offered(run, m, i)
    {
      SameFixes(env, run, m, i);
    }
    hide RunOk, Rearmed, NeedsResolution, Offered, OffersOf, Settles, CallFixes, Fixes;
  }

  /** If some stage is settled for good, one of them comes last. */
  lemma {:induction false} SomeLastFix(run: RunRecord, m: Markers, i: int) returns (j: int)
    requires CallFixes(run, m, i)
    ensures IsLastFix(run, m, j)
    decreases |run.stages| - i
  {
    if k :| i < k && CallFixes(run, m, k) {
      j := SomeLastFix(run, m, k);
    } else {
      j := i;
    }
  }

  /** What resolving the stages of the run returns: nothing when no marker fixes the workspace, else the last that does. */
  lemma ResolvedMarker(env: Env, run: RunRecord, m: Markers)
    requires RunOk(env, run)
    ensures var r := ResolveAll(env, Rearmed(run), m, CountUncertain(Rearmed(run)), None);
            && (r.Ok? <==> OffersSettle(env, run, m) && OffersAgree(run, m))
            && (r.Ok? && (forall i :: !CallFixes(run, m, i)) ==> r.value.1 == None)
            && (r.Ok? ==> forall i :: IsLastFix(run, m, i) ==> r.value.1 == Offered(run, m, i))
  {
    ResolvesExactlyWhen(env, Rearmed(run), m, CountUncertain(Rearmed(run)), None);
    SameOffers(env, run, m);
    forall i
      ensures CallFixes(run, m, i) <==> Fixes(Rearmed(run), OffersOf(run, m), i)
      ensures CallFixes(run, m, i) ==> OffersOf(run, m)[i] == Offered(run, m, i)
    {
      SameFixes(env, run, m, i);
    }
    hide RunOk, Rearmed, ResolveAll, Offered, CallFixes, Fixes, AllSettled, Agree, OffersSettle, OffersAgree;
  }

  lemma ResumeUnfolds(env: Env, run: RunRecord, m: Markers)
    ensures var r := ResolveAll(env, Rearmed(run), m, CountUncertain(Rearmed(run)), None);
            && (Resume(env, run, m).Ok? <==>
                  && run.status in {Paused, InterruptedRun, BlockedRun} && r.Ok?
                  && (r.value.1.Some? ==> r.value.1.value.workspaceDigest.Some? && r.value.1.value.observed))
            && (Resume(env, run, m).Ok? ==>
                  Resume(env, run, m).value.checkpoint == if r.value.1.Some? then r.value.1.value.workspaceDigest.value else run.checkpoint)
  {
    hide ResolveAll, CountUncertain;
  }

  /**
   * A resume goes through exactly when the run is paused, interrupted or
   * blocked, every uncertain stage is offered a marker that the verifier accepts
   * and that names an outcome, all markers that fix the workspace name the same
   * one, and the last of them is complete.
   */
  lemma ResumeGrantedExactlyWhen(env: Env, run: RunRecord, m: Markers)
    requires RunOk(env, run)
    ensures Resume(env, run, m).Ok? <==>
              && run.status in {Paused, InterruptedRun, BlockedRun}
              && OffersSettle(env, run, m) && OffersAgree(run, m)
              && (forall i :: IsLastFix(run, m, i) ==> Offered(run, m, i).value.workspaceDigest.Some? && Offered(run, m, i).value.observed)
  {
    ResolvedMarker(env, run, m);
    ResumeUnfolds(env, run, m);
    if i :| CallFixes(run, m, i) {
      var j := SomeLastFix(run, m, i);
      assert IsLastFix(run, m, j);
    }
    hide RunOk, Rearmed, ResolveAll, Offered, OffersSettle, OffersAgree, Resume;
  }

  /** The workspace on record after a resume is the one every fixing marker names; without one it stays. */
  lemma ResumeRecordsTheWorkspace(env: Env, run: RunRecord, m: Markers)
    requires RunOk(env, run) && Resume(env, run, m).Ok?
    ensures var after := Resume(env, run, m).value;
            && ((forall i :: !CallFixes(run, m, i)) ==> after.checkpoint == run.checkpoint)
            && (forall i :: CallFixes(run, m, i) ==> Offered(run, m, i).value.workspaceDigest == Some(after.checkpoint))
  {
    ResolvedMarker(env, run, m);
    ResumeUnfolds(env, run, m);
    forall i | CallFixes(run, m, i) ensures Offered(run, m, i).value.workspaceDigest == Some(Resume(env, run, m).value.checkpoint) {
      var j := SomeLastFix(run, m, i);
      assert CallFixes(run, m, j);
      hide RunOk, Rearmed, ResolveAll, Offered, OffersSettle, Resume;
    }
  }
}
