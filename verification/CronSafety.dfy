/**
 * What every history of the cron registry keeps: one running record a job,
 * stored expressions that always have a next run, and, while the clock does not
 * go back, scheduled slots that strictly increase.
 */
module CronSafety {
  import opened Common
  import opened CronParse
  import opened CronClaims

  // ---------------------------------------------------------------- one job's records

  ghost predicate OneRunning(runs: seq<Run>) {
    forall i, j | 0 <= i < j < |runs| :: runs[i].status != Running || runs[j].status != Running
  }

  ghost predicate DistinctRuns(runs: seq<Run>) {
    forall i, j | 0 <= i < j < |runs| :: runs[i].id != runs[j].id
  }

  ghost predicate Tidy(runs: seq<Run>) {
    OneRunning(runs) && DistinctRuns(runs)
  }

  lemma BreakStaleIsTidy(runs: seq<Run>, env: Env, now: int)
    requires Tidy(runs)
    ensures var broken := BreakStale(runs, env, now);
            Tidy(broken) && |broken| == |runs| && RunIds(broken) == RunIds(runs)
  {
    var broken := BreakStale(runs, env, now);
    forall id ensures id in RunIds(broken) <==> id in RunIds(runs) {
      if id in RunIds(runs) {
        var i :| 0 <= i < |runs| && runs[i].id == id;
        assert broken[i] in broken;
      }
      if id in RunIds(broken) {
        var i :| 0 <= i < |broken| && broken[i].id == id;
        assert runs[i] in runs;
      }
    }
  }

  lemma PrependIsTidy(run: Run, runs: seq<Run>, limit: nat)
    requires Tidy(runs) && run.id !in RunIds(runs) && 1 <= limit
    requires run.status == Running ==> !AnyRunning(runs)
    ensures Tidy(Trim([run] + runs, limit)) && |Trim([run] + runs, limit)| <= limit
  {
    var all := [run] + runs;
    forall i, j | 0 <= i < j < |all| ensures (all[i].status != Running || all[j].status != Running) && all[i].id != all[j].id {
      assert all[j] == runs[j - 1] && runs[j - 1] in runs;
      assert runs[j - 1].id in RunIds(runs);
    }
  }

  lemma FinishIsTidy(runs: seq<Run>, r: nat, run: Run)
    requires Tidy(runs) && r < |runs| && run.id == runs[r].id && run.status != Running
    ensures Tidy(runs[r := run])
  {
  }

  // ---------------------------------------------------------------- reading the records back

  ghost predicate NewestFirst(runs: seq<Run>) {
    forall i, j | 0 <= i < j < |runs| :: runs[i].startedAt >= runs[j].startedAt
  }

  ghost predicate NoneRunning(runs: seq<Run>) {
    forall i | 0 <= i < |runs| :: runs[i].status != Running
  }

  lemma {:induction false} InsertKeeps(r: Run, rest: seq<Run>)
    requires NewestFirst(rest)
    ensures NewestFirst(Insert(r, rest)) && |Insert(r, rest)| == |rest| + 1
    ensures forall x :: x in Insert(r, rest) <==> x == r || x in rest
    ensures Insert(r, rest)[0] == r || (rest != [] && Insert(r, rest)[0] == rest[0])
  {
    if rest == [] || rest[0].startedAt <= r.startedAt {
    } else {
      InsertKeeps(r, rest[1..]);
      var tail := Insert(r, rest[1..]);
      forall i | 0 <= i < |tail| ensures rest[0].startedAt >= tail[i].startedAt {
        assert tail[i] in tail;
      }
      assert rest == [rest[0]] + rest[1..];
    }
  }

  lemma {:induction false} InsertDistinct(r: Run, rest: seq<Run>)
    requires DistinctRuns(rest) && NewestFirst(rest) && r.id !in RunIds(rest)
    ensures DistinctRuns(Insert(r, rest))
  {
    if rest == [] || rest[0].startedAt <= r.startedAt {
      forall i | 0 <= i < |rest| ensures rest[i].id != r.id {
        assert rest[i].id in RunIds(rest);
      }
    } else {
      assert rest[0].id in RunIds(rest);
      forall id | id in RunIds(rest[1..]) ensures id in RunIds(rest) {
        var x :| x in rest[1..] && x.id == id;
        assert x in rest;
      }
      InsertDistinct(r, rest[1..]);
      InsertKeeps(r, rest[1..]);
      var tail := Insert(r, rest[1..]);
      forall i | 0 <= i < |tail| ensures tail[i].id != rest[0].id {
        assert tail[i] in tail;
        if tail[i] != r {
          var k :| 0 <= k < |rest[1..]| && rest[1..][k] == tail[i];
          assert rest[k + 1] == tail[i];
        }
      }
    }
  }

  /** Reading back closes every running record, orders by start and keeps every identifier. */
  lemma {:induction false} NewestIsTidy(runs: seq<Run>, now: int)
    requires DistinctRuns(runs)
    ensures var back := Newest(runs, now);
            && NewestFirst(back) && NoneRunning(back) && DistinctRuns(back)
            && |back| == |runs| && RunIds(back) == RunIds(runs)
  {
    if runs != [] {
      var rest := runs[1..];
      NewestIsTidy(rest, now);
      var r, back := Interrupted(runs[0], now), Newest(rest, now);
      assert runs[0].id !in RunIds(rest) by {
        forall i | 0 <= i < |rest| ensures rest[i].id != runs[0].id {
          assert rest[i] == runs[i + 1];
        }
      }
      InsertKeeps(r, back);
      InsertDistinct(r, back);
      var all := Insert(r, back);
      forall i | 0 <= i < |all| ensures all[i].status != Running {
        assert all[i] in all;
      }
      forall id ensures id in RunIds(all) <==> id in RunIds(runs) {
        SameIds(r, back, all, runs, id);
      }
    }
  }

  lemma SameIds(r: Run, back: seq<Run>, all: seq<Run>, runs: seq<Run>, id: string)
    requires runs != [] && r.id == runs[0].id && RunIds(back) == RunIds(runs[1..])
    requires forall x :: x in all <==> x == r || x in back
    ensures id in RunIds(all) <==> id in RunIds(runs)
  {
    if id in RunIds(all) {
      var x :| x in all && x.id == id;
      if x == r {
        assert runs[0] in runs;
      } else {
        assert id in RunIds(back);
        var y :| y in runs[1..] && y.id == id;
        assert y in runs;
      }
    }
    if id in RunIds(runs) {
      var x :| x in runs && x.id == id;
      if id == r.id {
        assert r in all;
      } else {
        assert x in runs[1..];
        assert id in RunIds(back);
        var y :| y in back && y.id == id;
        assert y in all;
      }
    }
  }

  lemma ReloadIsTidy(runs: seq<Run>, env: Env, now: int)
    requires DistinctRuns(runs)
    ensures var back := ReloadRuns(runs, env, now);
            Tidy(back) && NoneRunning(back) && |back| <= env.maxHistory
  {
    NewestIsTidy(runs, now);
  }

  // ---------------------------------------------------------------- the whole state

  ghost predicate JobOk(job: Job) {
    && Stored(job.expression) == Ok(job.expression)
    && (job.enabled <==> job.nextRunAt.Some?)
    && (job.lastScheduledAt.Some? ==> FloorToMinute(job.lastScheduledAt.value) == job.lastScheduledAt.value)
  }

  ghost predicate DistinctJobs(jobs: seq<Job>) {
    forall i, j | 0 <= i < j < |jobs| :: jobs[i].id != jobs[j].id
  }

  ghost predicate Good(s: State, env: Env) {
    && DistinctJobs(s.jobs)
    && s.runs.Keys == JobIds(s.jobs)
    && (forall i | 0 <= i < |s.jobs| :: JobOk(s.jobs[i]))
    && (forall id | id in s.runs :: Tidy(s.runs[id]) && |s.runs[id]| <= env.maxHistory)
  }

  datatype Op =
    | CreateOp(expression: string, enabled: Option<bool>, drawn: seq<string>)
    | UpdateOp(id: string, patch: Option<string>, enabled: Option<bool>)
    | RemoveOp(id: string)
    | BeginOp(id: string, trigger: Trigger, scheduledAt: Option<int>, nextFrom: Option<int>, drawn: seq<string>)
    | FinishOp(id: string, runId: string, status: FinalStatus)
    | RecordOp(id: string, record: Record, drawn: seq<string>)
    | ReloadOp

  type FinalStatus = s: Status | s != Running witness Success

  /** The state an operation leaves; one that throws leaves what was there. */
  ghost function Step(s: State, env: Env, op: Op, now: int): Result<State, StoreError>
    requires op.RecordOp? ==> op.record.status != Running
  {
    match op
    case CreateOp(e, on, drawn) =>
      var r :- Create(s, env, e, on, now, drawn);
      Ok(r.0)
    case UpdateOp(id, e, on) =>
      var r :- Update(s, env, id, e, on, now);
      Ok(r.0)
    case RemoveOp(id) => Ok(Remove(s, id).0)
    case BeginOp(id, t, at, from, drawn) =>
      var r :- Begin(s, env, id, t, at, from, now, drawn);
      Ok(r.0)
    case FinishOp(id, runId, status) =>
      var r :- Finish(s, id, runId, status, now);
      Ok(r.0)
    case RecordOp(id, record, drawn) =>
      var r :- RecordRun(s, env, id, record, now, drawn);
      Ok(r.0)
    case ReloadOp => Ok(Reload(s.jobs, s.runs, env, now))
  }

  ghost function After(s: State, env: Env, op: Op, now: int): State
    requires op.RecordOp? ==> op.record.status != Running
  {
    match Step(s, env, op, now)
    case Ok(t) => t
    case Err(_) => s
  }

  // ---------------------------------------------------------------- every operation keeps it

  lemma StoredIsStored(e: string)
    requires Stored(e).Ok?
    ensures Stored(Stored(e).value) == Stored(e)
  {
    StoredFormReadsTheSame(e);
  }

  lemma JobIdAt(jobs: seq<Job>, k: nat)
    requires k < |jobs|
    ensures jobs[k].id in JobIds(jobs)
  {
    assert jobs[k] in jobs;
  }

  lemma SameJobIds(jobs: seq<Job>, k: nat, job: Job)
    requires k < |jobs| && jobs[k].id == job.id
    ensures JobIds(jobs[k := job]) == JobIds(jobs)
  {
    forall id ensures id in JobIds(jobs[k := job]) <==> id in JobIds(jobs) {
      if id in JobIds(jobs) {
        var i :| 0 <= i < |jobs| && jobs[i].id == id;
        assert jobs[k := job][i].id == id;
        assert jobs[k := job][i] in jobs[k := job];
      }
      if id in JobIds(jobs[k := job]) {
        var i :| 0 <= i < |jobs| && jobs[k := job][i].id == id;
        assert jobs[i] in jobs;
      }
    }
  }

  /** One job and its records may be replaced by others that are in order. */
  lemma ReplaceIsGood(s: State, env: Env, k: nat, job: Job, runs: seq<Run>)
    requires Good(s, env) && k < |s.jobs| && job.id == s.jobs[k].id && JobOk(job)
    requires Tidy(runs) && |runs| <= env.maxHistory
    ensures Good(State(s.jobs[k := job], s.runs[job.id := runs]), env)
  {
    SameJobIds(s.jobs, k, job);
    JobIdAt(s.jobs, k);
  }

  /** A job under a new identifier may join. */
  lemma AppendIsGood(s: State, env: Env, job: Job, runs: seq<Run>)
    requires Good(s, env) && job.id !in JobIds(s.jobs) && JobOk(job)
    requires Tidy(runs) && |runs| <= env.maxHistory
    ensures Good(State(s.jobs + [job], s.runs[job.id := runs]), env)
    ensures JobIds(s.jobs + [job]) == JobIds(s.jobs) + {job.id}
  {
    hide JobOk, Tidy;
    var jobs := s.jobs + [job];
    forall i | 0 <= i < |s.jobs| ensures s.jobs[i].id != job.id {
      JobIdAt(s.jobs, i);
    }
    forall id ensures id in JobIds(jobs) <==> id in JobIds(s.jobs) || id == job.id {
      if id in JobIds(s.jobs) {
        var j :| j in s.jobs && j.id == id;
        assert j in jobs;
      }
      assert jobs[|s.jobs|] in jobs;
    }
  }

  lemma CreateIsGood(s: State, env: Env, e: string, on: Option<bool>, now: int, drawn: seq<string>)
    requires Good(s, env) && Create(s, env, e, on, now, drawn).Ok?
    ensures Good(Create(s, env, e, on, now, drawn).value.0, env)
  {
    StoredIsStored(e);
    var (t, job) := Create(s, env, e, on, now, drawn).value;
    AppendIsGood(s, env, job, []);
  }

  lemma UpdateIsGood(s: State, env: Env, id: string, e: Option<string>, on: Option<bool>, now: int)
    requires Good(s, env) && Update(s, env, id, e, on, now).Ok?
    ensures Good(Update(s, env, id, e, on, now).value.0, env)
  {
    hide ReadExpression;
    if e.Some? { StoredIsStored(e.value); }
    var k := FindJob(s.jobs, id);
    var (t, job) := Update(s, env, id, e, on, now).value;
    JobIdAt(s.jobs, k);
    ReplaceIsGood(s, env, k, job, s.runs[id]);
    assert s.runs[id := s.runs[id]] == s.runs;
  }

  lemma SplicedIds(jobs: seq<Job>, k: nat, x: string)
    requires DistinctJobs(jobs) && k < |jobs|
    ensures x in JobIds(Spliced(jobs, k)) <==> x in JobIds(jobs) && x != jobs[k].id
  {
    var less := Spliced(jobs, k);
    if x in JobIds(jobs) && x != jobs[k].id {
      var i :| 0 <= i < |jobs| && jobs[i].id == x;
      assert less[if i < k then i else i - 1] == jobs[i];
    }
    if x in JobIds(less) {
      var i :| 0 <= i < |less| && less[i].id == x;
      var o := if i < k then i else i + 1;
      assert less[i] == jobs[o];
      JobIdAt(jobs, o);
    }
  }

  lemma SplicedIsDistinct(jobs: seq<Job>, k: nat)
    requires DistinctJobs(jobs) && k < |jobs|
    ensures DistinctJobs(Spliced(jobs, k))
    ensures JobIds(Spliced(jobs, k)) == JobIds(jobs) - {jobs[k].id}
    ensures forall i | 0 <= i < |Spliced(jobs, k)| :: Spliced(jobs, k)[i] in jobs
  {
    forall x ensures x in JobIds(Spliced(jobs, k)) <==> x in JobIds(jobs) && x != jobs[k].id {
      SplicedIds(jobs, k, x);
    }
  }

  lemma RemoveIsGood(s: State, env: Env, id: string)
    requires Good(s, env)
    ensures Good(Remove(s, id).0, env)
  {
    hide JobOk, Tidy;
    var k := FindJob(s.jobs, id);
    if k < |s.jobs| {
      SplicedIsDistinct(s.jobs, k);
      hide Spliced;
    }
  }

  lemma LogIsGood(s: State, env: Env, k: nat, job: Job, run: Run, runs: seq<Run>)
    requires Good(s, env) && 1 <= env.maxHistory && k < |s.jobs| && job.id == s.jobs[k].id && JobOk(job)
    requires Tidy(runs) && run.id !in RunIds(runs) && (run.status == Running ==> !AnyRunning(runs))
    ensures Good(Logged(s, env, k, job, run, runs), env)
  {
    PrependIsTidy(run, runs, env.maxHistory);
    ReplaceIsGood(s, env, k, job.(lastRunStatus := Some(run.status)), Trim([run] + runs, env.maxHistory));
  }

  lemma ClaimedIsOk(job: Job, env: Env, trigger: Trigger, at: int, from: int)
    requires JobOk(job) && (trigger.Scheduled? ==> job.enabled) && Claimed(job, env, trigger, FloorToMinute(at), from).Ok?
    ensures var claimed := Claimed(job, env, trigger, FloorToMinute(at), from).value; JobOk(claimed) && claimed.id == job.id
  {
    assert FloorToMinute(FloorToMinute(at)) == FloorToMinute(at);
  }

  /** What a call to begin leaves behind, case by case. */
  lemma BeginIs(s: State, env: Env, id: string, trigger: Trigger, at: Option<int>, from: Option<int>, now: int, drawn: seq<string>)
    requires Good(s, env) && Begin(s, env, id, trigger, at, from, now, drawn).Ok?
    ensures var k := FindJob(s.jobs, id);
            var runs := BreakStale(RunsOf(s, id), env, now);
            var slot := FloorToMinute(if at.Some? then at.value else now);
            var (t, claimed) := Begin(s, env, id, trigger, at, from, now, drawn).value;
            k < |s.jobs|
            && (claimed.None? <==> Refused(s.jobs[k], runs, trigger, slot))
            && (claimed.None? ==> t == s.(runs := s.runs[id := runs]))
            && (claimed.Some? ==>
                  var job := Claimed(s.jobs[k], env, trigger, slot, if from.Some? then from.value else slot);
                  job.Ok? && t == Logged(s, env, k, job.value, claimed.value, runs)
                  && claimed.value.id !in RunIds(runs) && claimed.value.status == Running && claimed.value.startedAt == now)
  {
  }

  lemma BeginIsGood(s: State, env: Env, id: string, trigger: Trigger, at: Option<int>, from: Option<int>, now: int, drawn: seq<string>)
    requires Good(s, env) && 1 <= env.maxHistory && Begin(s, env, id, trigger, at, from, now, drawn).Ok?
    ensures Good(Begin(s, env, id, trigger, at, from, now, drawn).value.0, env)
  {
    var k := FindJob(s.jobs, id);
    JobIdAt(s.jobs, k);
    var runs := BreakStale(s.runs[id], env, now);
    BreakStaleIsTidy(s.runs[id], env, now);
    BeginIs(s, env, id, trigger, at, from, now, drawn);
    var (t, claimed) := Begin(s, env, id, trigger, at, from, now, drawn).value;
    if claimed.None? {
      ReplaceIsGood(s, env, k, s.jobs[k], runs);
      assert s.jobs[k := s.jobs[k]] == s.jobs;
    } else {
      var at' := if at.Some? then at.value else now;
      var slot := FloorToMinute(at');
      var from' := if from.Some? then from.value else slot;
      ClaimedIsOk(s.jobs[k], env, trigger, at', from');
      LogIsGood(s, env, k, Claimed(s.jobs[k], env, trigger, slot, from').value, claimed.value, runs);
    }
  }

  lemma FinishIsGood(s: State, env: Env, id: string, runId: string, status: FinalStatus, now: int)
    requires Good(s, env) && Finish(s, id, runId, status, now).Ok?
    ensures Good(Finish(s, id, runId, status, now).value.0, env)
  {
    var k := FindJob(s.jobs, id);
    JobIdAt(s.jobs, k);
    var (t, run) := Finish(s, id, runId, status, now).value;
    FinishIsTidy(s.runs[id], FindRun(s.runs[id], runId), run);
    ReplaceIsGood(s, env, k, t.jobs[k], t.runs[id]);
  }

  lemma JobAt(s: State, env: Env, k: nat)
    requires Good(s, env) && k < |s.jobs|
    ensures var id := s.jobs[k].id; JobOk(s.jobs[k]) && id in s.runs && Tidy(RunsOf(s, id)) && |RunsOf(s, id)| <= env.maxHistory
  {
    JobIdAt(s.jobs, k);
  }

  /** What a call to record leaves behind. */
  lemma RecordIs(s: State, env: Env, id: string, record: Record, now: int, drawn: seq<string>)
    requires record.status != Running && RecordRun(s, env, id, record, now, drawn).Ok?
    ensures var k := FindJob(s.jobs, id);
            var (t, run) := RecordRun(s, env, id, record, now, drawn).value;
            && k < |s.jobs| && s.jobs[k].id == id && t == Logged(s, env, k, s.jobs[k], run, RunsOf(s, id))
            && run.status == record.status && run.id !in RunIds(RunsOf(s, id))
  {
    var run := RecordRun(s, env, id, record, now, drawn).value.1;
    assert FindRun(RunsOf(s, id), run.id) == |RunsOf(s, id)|;
  }

  lemma RecordIsGood(s: State, env: Env, id: string, record: Record, now: int, drawn: seq<string>)
    requires Good(s, env) && 1 <= env.maxHistory && record.status != Running && RecordRun(s, env, id, record, now, drawn).Ok?
    ensures Good(RecordRun(s, env, id, record, now, drawn).value.0, env)
  {
    RecordIs(s, env, id, record, now, drawn);
    hide RecordRun, Tidy, JobOk, Good, Logged;
    var k := FindJob(s.jobs, id);
    JobAt(s, env, k);
    LogIsGood(s, env, k, s.jobs[k], RecordRun(s, env, id, record, now, drawn).value.1, RunsOf(s, id));
  }

  /** Equal but for the status shown last. */
  ghost predicate SameJob(a: Job, b: Job) {
    a.(lastRunStatus := b.lastRunStatus) == b
  }

  lemma ReloadJobIsOk(job: Job, runs: seq<Run>, env: Env, now: int)
    requires JobOk(job)
    ensures ReloadJob(job, runs, env, now).Ok?
    ensures var back := ReloadJob(job, runs, env, now).value;
            JobOk(back) && SameJob(back, job)
  {
  }

  ghost predicate SameJobs(a: seq<Job>, b: seq<Job>) {
    |a| == |b| && forall i | 0 <= i < |b| :: SameJob(a[i], b[i])
  }

  lemma NewJob(less: seq<Job>, before: seq<Job>, id: string)
    requires SameJobs(before, less) && forall i | 0 <= i < |less| :: less[i].id != id
    ensures id !in JobIds(before)
  {
  }

  /** The records read back are the saved ones, all closed. */
  ghost predicate ReadBack(t: State, saved: map<string, seq<Run>>, env: Env, now: int) {
    forall id | id in t.runs :: NoneRunning(t.runs[id]) && t.runs[id] == ReloadRuns(Log(saved, id), env, now)
  }

  lemma ReloadAdds(before: State, saved: map<string, seq<Run>>, env: Env, now: int, last: Job)
    requires Good(before, env) && ReadBack(before, saved, env, now) && last.id !in JobIds(before.jobs) && JobOk(last)
    requires Tidy(Log(saved, last.id))
    ensures var runs := ReloadRuns(Log(saved, last.id), env, now);
            var job := ReloadJob(last, runs, env, now);
            var t := WithJob(before, job, runs);
            Good(t, env) && ReadBack(t, saved, env, now) && job.Ok? && t.jobs == before.jobs + [job.value] && SameJob(job.value, last)
  {
    var runs := ReloadRuns(Log(saved, last.id), env, now);
    ReloadJobIsOk(last, runs, env, now);
    ReloadIsTidy(Log(saved, last.id), env, now);
    AppendIsGood(before, env, ReloadJob(last, runs, env, now).value, runs);
  }

  ghost predicate TidyLogs(runs: map<string, seq<Run>>) {
    forall id | id in runs :: Tidy(runs[id])
  }

  ghost predicate Sound(jobs: seq<Job>) {
    DistinctJobs(jobs) && forall i | 0 <= i < |jobs| :: JobOk(jobs[i])
  }

  lemma SoundPrefix(jobs: seq<Job>)
    requires Sound(jobs) && jobs != []
    ensures var n := |jobs| - 1;
            Sound(jobs[..n]) && JobOk(jobs[n]) && forall i | 0 <= i < n :: jobs[..n][i].id != jobs[n].id
  {
    hide JobOk;
  }

  lemma SameJobsGrow(a: seq<Job>, b: seq<Job>, x: Job, jobs: seq<Job>)
    requires jobs != [] && SameJobs(a, jobs[..|jobs| - 1]) && SameJob(x, jobs[|jobs| - 1]) && b == a + [x]
    ensures SameJobs(b, jobs)
  {
  }

  /** A restart loses no job, and leaves no record running. */
  lemma {:induction false} ReloadIsGood(jobs: seq<Job>, runs: map<string, seq<Run>>, env: Env, now: int)
    requires Sound(jobs) && TidyLogs(runs)
    ensures var t := Reload(jobs, runs, env, now);
            Good(t, env) && SameJobs(t.jobs, jobs) && ReadBack(t, runs, env, now)
  {
    hide JobOk, Tidy, SameJob, NoneRunning, ReloadRuns, ReloadJob;
    if jobs != [] {
      var n := |jobs| - 1;
      SoundPrefix(jobs);
      ReloadIsGood(jobs[..n], runs, env, now);
      var before := Reload(jobs[..n], runs, env, now);
      NewJob(jobs[..n], before.jobs, jobs[n].id);
      TidyLog(runs, jobs[n].id);
      ReloadAdds(before, runs, env, now, jobs[n]);
      var back := ReloadJob(jobs[n], ReloadRuns(Log(runs, jobs[n].id), env, now), env, now).value;
      SameJobsGrow(before.jobs, before.jobs + [back], back, jobs);
    }
  }

  lemma TidyLog(runs: map<string, seq<Run>>, id: string)
    requires TidyLogs(runs)
    ensures Tidy(Log(runs, id))
  {
  }

  /** Every operation, at any clock reading, keeps the registry in order. */
  lemma StepIsGood(s: State, env: Env, op: Op, now: int)
    requires Good(s, env) && 1 <= env.maxHistory && (op.RecordOp? ==> op.record.status != Running)
    ensures Good(After(s, env, op, now), env)
  {
    if Step(s, env, op, now).Ok? {
      match op
      case CreateOp(e, on, drawn) => CreateIsGood(s, env, e, on, now, drawn);
      case UpdateOp(id, e, on) => UpdateIsGood(s, env, id, e, on, now);
      case RemoveOp(id) => RemoveIsGood(s, env, id);
      case BeginOp(id, t, at, from, drawn) => BeginIsGood(s, env, id, t, at, from, now, drawn);
      case FinishOp(id, runId, status) => FinishIsGood(s, env, id, runId, status, now);
      case RecordOp(id, record, drawn) => RecordIsGood(s, env, id, record, now, drawn);
      case ReloadOp => ReloadIsGood(s.jobs, s.runs, env, now);
    }
  }
}
