/**
 * What the calls of the cron registry do, told by the fields of jobs and
 * records before and after; and that an enabled job always shows the next run
 * of the expression it has now.
 */
module CronEffects {
  import opened Common
  import opened CronParse
  import opened CronClaims
  import opened CronSafety
  import opened CronHistory

  /** At most the job at `k` differs. */
  ghost predicate OnlyJob(s: State, t: State, k: nat) {
    && |t.jobs| == |s.jobs| && forall i :: 0 <= i < |s.jobs| && i != k ==> t.jobs[i] == s.jobs[i]
  }

  /** At most the log of `id` differs. */
  ghost predicate OnlyLog(s: State, t: State, id: string) {
    forall x :: x != id ==> RunsOf(t, x) == RunsOf(s, x)
  }

  /** The time is the first after `from` that the job's own expression matches. */
  ghost predicate ShowsNext(job: Job, from: int) {
    ReadExpression(job.expression).Ok? && job.nextRunAt.Some? && IsNextRun(job.expression, from, job.nextRunAt.value)
  }

  lemma SearchShows(env: Env, e: string, from: int)
    requires Lawful(env) && NextRun(env, e, from).Ok?
    ensures ReadExpression(e).Ok? && IsNextRun(e, from, NextRun(env, e, from).value)
  {
  }

  // ---------------------------------------------------------------- jobs

  /** A new job goes behind the others, enabled unless told otherwise, without records, and if enabled it shows the next run of its expression. */
  lemma CreatedJob(s: State, env: Env, expression: string, enabled: Option<bool>, now: int, drawn: seq<string>)
    requires Good(s, env) && Lawful(env) && Create(s, env, expression, enabled, now, drawn).Ok?
    ensures var (t, job) := (Create(s, env, expression, enabled, now, drawn).value.0, Create(s, env, expression, enabled, now, drawn).value.1);
            && t.jobs == s.jobs + [job] && job.id !in JobIds(s.jobs) && job.id in drawn
            && RunsOf(t, job.id) == [] && OnlyLog(s, t, job.id)
            && ReadExpression(expression).Ok? && ReadExpression(job.expression) == ReadExpression(expression)
            && (job.enabled <==> enabled != Some(false))
            && job.lastRunStatus.None? && job.lastScheduledAt.None?
            && (job.enabled ==> ShowsNext(job, now)) && (!job.enabled ==> job.nextRunAt.None?)
  {
    StoredFormReadsTheSame(expression);
    hide ReadExpression, IsNextRun;
    var stored := Stored(expression).value;
    if enabled != Some(false) { SearchShows(env, stored, now); }
  }

  /**
   * What an update makes of its job: it sets what it is given and keeps the
   * rest; a disabled job shows no next run, one whose expression or enablement
   * changed shows the next run of its new expression from now on, and any other
   * keeps the one it showed.
   */
  ghost predicate Edited(before: Job, job: Job, expression: Option<string>, enabled: Option<bool>, now: int) {
    && job.id == before.id
    && (if expression.Some? then ReadExpression(expression.value).Ok? && ReadExpression(job.expression) == ReadExpression(expression.value)
        else job.expression == before.expression)
    && job.enabled == (if enabled.Some? then enabled.value else before.enabled)
    && job.lastRunStatus == before.lastRunStatus && job.lastScheduledAt == before.lastScheduledAt
    && (!job.enabled ==> job.nextRunAt.None?)
    && (job.enabled && (job.expression != before.expression || !before.enabled) ==> ShowsNext(job, now))
    && (job.enabled && job.expression == before.expression && before.enabled ==> job.nextRunAt == before.nextRunAt)
  }

  lemma RescheduledJob(job: Job, env: Env, patch: Option<string>, enabled: Option<bool>, now: int)
    requires JobOk(job) && Lawful(env) && Rescheduled(job, env, patch, enabled, now).Ok?
    ensures var after := Rescheduled(job, env, patch, enabled, now).value;
            && after == job.(expression := if patch.Some? then patch.value else job.expression,
                             enabled := if enabled.Some? then enabled.value else job.enabled, nextRunAt := after.nextRunAt)
            && (!after.enabled ==> after.nextRunAt.None?)
            && (after.enabled && (after.expression != job.expression || !job.enabled) ==> ShowsNext(after, now))
            && (after.enabled && after.expression == job.expression && job.enabled ==> after.nextRunAt == job.nextRunAt)
  {
    hide ReadExpression, IsNextRun;
    var after := Rescheduled(job, env, patch, enabled, now).value;
    if after.enabled && (after.expression != job.expression || !job.enabled) { SearchShows(env, after.expression, now); }
  }

  /** An update touches its own job and no log. */
  lemma UpdatedJob(s: State, env: Env, id: string, expression: Option<string>, enabled: Option<bool>, now: int)
    requires Good(s, env) && Lawful(env) && Update(s, env, id, expression, enabled, now).Ok?
    ensures var (t, job) := (Update(s, env, id, expression, enabled, now).value.0, Update(s, env, id, expression, enabled, now).value.1);
            t.runs == s.runs
            && exists k :: 0 <= k < |s.jobs| && s.jobs[k].id == id && OnlyJob(s, t, k) && t.jobs[k] == job
                 && Edited(s.jobs[k], job, expression, enabled, now)
  {
    var k := FindJob(s.jobs, id);
    if expression.Some? { StoredFormReadsTheSame(expression.value); }
    assert JobOk(s.jobs[k]);
    hide ReadExpression, ShowsNext, Rescheduled, JobOk, Good;
    RescheduledJob(s.jobs[k], env, StoredPatch(expression).value, enabled, now);
    var (t, job) := Update(s, env, id, expression, enabled, now).value;
    assert Edited(s.jobs[k], job, expression, enabled, now);
    assert OnlyJob(s, t, k);
  }

  lemma SplicedHas(jobs: seq<Job>, k: nat, job: Job)
    requires DistinctJobs(jobs) && k < |jobs|
    ensures job in Spliced(jobs, k) <==> job in jobs && job.id != jobs[k].id
  {
    var less := Spliced(jobs, k);
    if job in jobs && job.id != jobs[k].id {
      var i :| 0 <= i < |jobs| && jobs[i] == job;
      assert less[if i < k then i else i - 1] == job;
    }
    if job in less {
      var i :| 0 <= i < |less| && less[i] == job;
      assert job == jobs[if i < k then i else i + 1];
    }
  }

  /** A removal takes the job and its log and nothing else. */
  lemma RemovedJob(s: State, env: Env, id: string)
    requires Good(s, env)
    ensures var t := Remove(s, id).0;
            && (Remove(s, id).1 <==> id in JobIds(s.jobs))
            && (!Remove(s, id).1 ==> t == s)
            && id !in JobIds(t.jobs) && id !in t.runs && OnlyLog(s, t, id)
            && (forall job :: job in t.jobs <==> job in s.jobs && job.id != id)
  {
    hide JobOk, Tidy;
    var k := FindJob(s.jobs, id);
    if k < |s.jobs| {
      JobIdAt(s.jobs, k);
      forall job ensures job in Spliced(s.jobs, k) <==> job in s.jobs && job.id != id {
        SplicedHas(s.jobs, k, job);
      }
      hide Spliced, DistinctJobs;
    }
  }

  // ---------------------------------------------------------------- records

  /** A record closed by the registry itself: cancelled, now. */
  ghost predicate ClosedNow(r: Run, t: Run, now: int) {
    t == r.(status := Cancelled, finishedAt := Some(now))
  }

  /** The log after stale claims were broken: those records are closed as cancelled, the others are as they were. */
  ghost predicate StaleClosed(runs: seq<Run>, after: seq<Run>, env: Env, now: int) {
    |after| == |runs| && forall i :: 0 <= i < |runs| ==>
      if runs[i].status == Running && now - runs[i].startedAt >= env.staleRunMs then ClosedNow(runs[i], after[i], now) else after[i] == runs[i]
  }

  /** A new record stands in front of the others, of which the oldest fall off at the limit. */
  ghost predicate PutInFront(runs: seq<Run>, after: seq<Run>, run: Run, limit: nat) {
    && |after| == (if |runs| + 1 <= limit then |runs| + 1 else limit)
    && (forall i :: 0 <= i < |after| ==> after[i] == if i == 0 then run else runs[i - 1])
  }

  lemma TrimPutsInFront(runs: seq<Run>, run: Run, limit: nat)
    requires 1 <= limit
    ensures PutInFront(runs, Trim([run] + runs, limit), run, limit)
  {
  }

  /** The parts of a granted claim. */
  lemma GrantIs(s: State, env: Env, id: string, trigger: Trigger, at: Option<int>, from: Option<int>, now: int, drawn: seq<string>)
    returns (k: nat, closed: seq<Run>, job: Job, t: State, run: Run)
    requires Begin(s, env, id, trigger, at, from, now, drawn).Ok? && Begin(s, env, id, trigger, at, from, now, drawn).value.1.Some?
    ensures Begin(s, env, id, trigger, at, from, now, drawn) == Ok((t, Some(run)))
    ensures k < |s.jobs| && s.jobs[k].id == id && closed == BreakStale(RunsOf(s, id), env, now)
    ensures run == Run(run.id, trigger, Running, if trigger.Scheduled? then Some(FloorToMinute(if at.Some? then at.value else now)) else None, now, None)
    ensures run.id in drawn && run.id !in RunIds(closed) && t == Logged(s, env, k, job, run, closed)
    ensures var slot := FloorToMinute(if at.Some? then at.value else now);
            Claimed(s.jobs[k], env, trigger, slot, if from.Some? then from.value else slot) == Ok(job)
  {
    k, closed := FindJob(s.jobs, id), BreakStale(RunsOf(s, id), env, now);
    var slot := FloorToMinute(if at.Some? then at.value else now);
    job := Claimed(s.jobs[k], env, trigger, slot, if from.Some? then from.value else slot).value;
    t, run := Begin(s, env, id, trigger, at, from, now, drawn).value.0, Begin(s, env, id, trigger, at, from, now, drawn).value.1.value;
  }

  lemma LoggedInFront(s: State, env: Env, k: nat, job: Job, run: Run, runs: seq<Run>)
    requires k < |s.jobs| && 1 <= env.maxHistory
    ensures var t := Logged(s, env, k, job, run, runs);
            OnlyLog(s, t, job.id) && PutInFront(runs, RunsOf(t, job.id), run, env.maxHistory)
  {
    TrimPutsInFront(runs, run, env.maxHistory);
    hide PutInFront, Trim;
  }

  /** A granted claim puts a new running record in front, started now, after closing the stale ones. */
  lemma BegunRun(s: State, env: Env, id: string, trigger: Trigger, at: Option<int>, from: Option<int>, now: int, drawn: seq<string>)
    requires Good(s, env) && 1 <= env.maxHistory && Begin(s, env, id, trigger, at, from, now, drawn).Ok?
    requires Begin(s, env, id, trigger, at, from, now, drawn).value.1.Some?
    ensures var (t, run) := (Begin(s, env, id, trigger, at, from, now, drawn).value.0, Begin(s, env, id, trigger, at, from, now, drawn).value.1.value);
            var slot := FloorToMinute(if at.Some? then at.value else now);
            && run == Run(run.id, trigger, Running, if trigger.Scheduled? then Some(slot) else None, now, None)
            && run.id in drawn && run.id !in RunIds(RunsOf(s, id)) && OnlyLog(s, t, id)
            && exists closed :: StaleClosed(RunsOf(s, id), closed, env, now) && PutInFront(closed, RunsOf(t, id), run, env.maxHistory)
  {
    hide Begin, StaleClosed, PutInFront, RunIds, Logged, BreakStale, OnlyLog, ReadExpression, FloorToMinute;
    var k, closed, job, t, run := GrantIs(s, env, id, trigger, at, from, now, drawn);
    ClosedStale(s, env, k, now);
    hide Good;
    LoggedInFront(s, env, k, job, run, closed);
    assert job.id == id;
  }

  lemma ClosedStale(s: State, env: Env, k: nat, now: int)
    requires Good(s, env) && k < |s.jobs|
    ensures var runs := RunsOf(s, s.jobs[k].id);
            StaleClosed(runs, BreakStale(runs, env, now), env, now) && RunIds(BreakStale(runs, env, now)) == RunIds(runs)
  {
    JobAt(s, env, k);
    BreakStaleIsTidy(RunsOf(s, s.jobs[k].id), env, now);
  }

  /** Its job shows it as running. A scheduled claim remembers its slot and shows the next run after the given start; a manual one leaves the schedule. */
  lemma BegunJob(s: State, env: Env, id: string, trigger: Trigger, at: Option<int>, from: Option<int>, now: int, drawn: seq<string>)
    requires Good(s, env) && Lawful(env) && Begin(s, env, id, trigger, at, from, now, drawn).Ok?
    requires Begin(s, env, id, trigger, at, from, now, drawn).value.1.Some?
    ensures var t := Begin(s, env, id, trigger, at, from, now, drawn).value.0;
            var slot := FloorToMinute(if at.Some? then at.value else now);
            exists k :: 0 <= k < |s.jobs| && s.jobs[k].id == id && OnlyJob(s, t, k)
              && t.jobs[k] == s.jobs[k].(lastRunStatus := Some(Running), lastScheduledAt := t.jobs[k].lastScheduledAt, nextRunAt := t.jobs[k].nextRunAt)
              && (trigger.Scheduled? ==> t.jobs[k].lastScheduledAt == Some(slot) && ShowsNext(t.jobs[k], if from.Some? then from.value else slot))
              && (trigger.Manual? ==> t.jobs[k].lastScheduledAt == s.jobs[k].lastScheduledAt && t.jobs[k].nextRunAt == s.jobs[k].nextRunAt)
  {
    hide ReadExpression, IsNextRun, Good, Begin, BreakStale, Trim, FloorToMinute, RunIds;
    var k, closed, job, t, run := GrantIs(s, env, id, trigger, at, from, now, drawn);
    var slot := FloorToMinute(if at.Some? then at.value else now);
    if trigger.Scheduled? { SearchShows(env, s.jobs[k].expression, if from.Some? then from.value else slot); }
    assert OnlyJob(s, t, k);
  }

  /** A refused claim closes the stale records of its job and moves nothing else. */
  lemma RefusedRun(s: State, env: Env, id: string, trigger: Trigger, at: Option<int>, from: Option<int>, now: int, drawn: seq<string>)
    requires Good(s, env) && Begin(s, env, id, trigger, at, from, now, drawn).Ok?
    requires Begin(s, env, id, trigger, at, from, now, drawn).value.1.None?
    ensures var t := Begin(s, env, id, trigger, at, from, now, drawn).value.0;
            t.jobs == s.jobs && OnlyLog(s, t, id) && StaleClosed(RunsOf(s, id), RunsOf(t, id), env, now)
  {
    BeginIs(s, env, id, trigger, at, from, now, drawn);
  }

  /** A report is taken exactly for a job there is and a record still in its log. */
  lemma FinishTakenExactlyWhen(s: State, id: string, runId: string, status: FinalStatus, now: int)
    ensures Finish(s, id, runId, status, now).Ok? <==> id in JobIds(s.jobs) && runId in RunIds(RunsOf(s, id))
  {
    var k, r := FindJob(s.jobs, id), FindRun(RunsOf(s, id), runId);
    if k < |s.jobs| { JobIdAt(s.jobs, k); }
    if r < |RunsOf(s, id)| { assert RunsOf(s, id)[r] in RunsOf(s, id); }
  }

  lemma OnlyRecord(runs: seq<Run>, r: nat, run: Run)
    requires DistinctRuns(runs) && r < |runs|
    ensures forall i :: 0 <= i < |runs| ==> runs[r := run][i] == if runs[i].id == runs[r].id then run else runs[i]
  {
  }

  /** A report closes the record it names with the status it says, shows that status, and moves nothing else. */
  lemma FinishedRun(s: State, env: Env, id: string, runId: string, status: FinalStatus, now: int)
    requires Good(s, env) && Finish(s, id, runId, status, now).Ok?
    ensures var (t, runs) := (Finish(s, id, runId, status, now).value.0, RunsOf(s, id));
            && OnlyLog(s, t, id) && |RunsOf(t, id)| == |runs|
            && (forall i :: 0 <= i < |runs| ==>
                  RunsOf(t, id)[i] == if runs[i].id == runId then runs[i].(status := status, finishedAt := Some(now)) else runs[i])
            && exists k :: 0 <= k < |s.jobs| && s.jobs[k].id == id && OnlyJob(s, t, k) && t.jobs[k] == s.jobs[k].(lastRunStatus := Some(status))
  {
    var k, runs := FindJob(s.jobs, id), RunsOf(s, id);
    var r := FindRun(runs, runId);
    JobAt(s, env, k);
    hide JobOk, Good;
    OnlyRecord(runs, r, runs[r].(status := status, finishedAt := Some(now)));
    hide DistinctRuns;
    assert OnlyJob(s, Finish(s, id, runId, status, now).value.0, k);
  }

  /** An external run is recorded as it was told, with the time of the call where none was told. */
  lemma RecordedRun(s: State, env: Env, id: string, record: Record, now: int, drawn: seq<string>)
    requires record.status != Running && RecordRun(s, env, id, record, now, drawn).Ok?
    ensures var run := RecordRun(s, env, id, record, now, drawn).value.1;
            && run.status == record.status && run.trigger == record.trigger
            && run.startedAt == (if record.startedAt.Some? then record.startedAt.value else now)
            && run.finishedAt == Some(if record.finishedAt.Some? then record.finishedAt.value else now)
            && run.startedAt <= run.finishedAt.value
            && (record.id.Some? ==> run.id == record.id.value) && (record.id.None? ==> run.id in drawn)
            && (run.scheduledFor.Some? <==> record.trigger.Scheduled? && record.scheduledFor.Some?)
            && (run.scheduledFor.Some? ==> run.scheduledFor.value <= record.scheduledFor.value < run.scheduledFor.value + MINUTE_MS)
            && (run.scheduledFor.Some? ==> run.scheduledFor.value % MINUTE_MS == 0)
  {
  }

  /** It goes in front of its job's log under an identifier of its own, the job shows its status, and no schedule moves. */
  lemma RecordedInFront(s: State, env: Env, id: string, record: Record, now: int, drawn: seq<string>)
    requires 1 <= env.maxHistory && record.status != Running && RecordRun(s, env, id, record, now, drawn).Ok?
    ensures var (t, run) := (RecordRun(s, env, id, record, now, drawn).value.0, RecordRun(s, env, id, record, now, drawn).value.1);
            && run.id !in RunIds(RunsOf(s, id))
            && OnlyLog(s, t, id) && PutInFront(RunsOf(s, id), RunsOf(t, id), run, env.maxHistory)
            && exists k :: 0 <= k < |s.jobs| && s.jobs[k].id == id && OnlyJob(s, t, k) && t.jobs[k] == s.jobs[k].(lastRunStatus := Some(record.status))
  {
    RecordIs(s, env, id, record, now, drawn);
    var k := FindJob(s.jobs, id);
    var (t, run) := (RecordRun(s, env, id, record, now, drawn).value.0, RecordRun(s, env, id, record, now, drawn).value.1);
    hide RecordRun, Trim, RunIds, PutInFront;
    TrimPutsInFront(RunsOf(s, id), run, env.maxHistory);
    assert OnlyJob(s, t, k);
  }

  /** A record as a restart leaves it: closed as cancelled if it was running. */
  ghost predicate ReadBackAs(r: Run, t: Run, now: int) {
    if r.status == Running then ClosedNow(r, t, now) else t == r
  }

  /** Reading a log back changes no record but those that were running. */
  lemma {:induction false} NewestKeepsRecords(runs: seq<Run>, now: int)
    ensures forall t :: t in Newest(runs, now) <==> exists r :: r in runs && ReadBackAs(r, t, now)
  {
    if runs != [] {
      var rest := runs[1..];
      NewestKeepsRecords(rest, now);
      InsertHas(Interrupted(runs[0], now), Newest(rest, now));
      assert runs == [runs[0]] + rest;
      forall t ensures t in Newest(runs, now) <==> exists r :: r in runs && ReadBackAs(r, t, now) {
        if t == Interrupted(runs[0], now) {
          assert runs[0] in runs && ReadBackAs(runs[0], t, now);
        } else if t in Newest(rest, now) {
          var r :| r in rest && ReadBackAs(r, t, now);
          assert r in runs;
        } else {
          forall r | r in runs ensures !ReadBackAs(r, t, now) {
            assert r == runs[0] || r in rest;
          }
        }
      }
    }
  }

  lemma {:induction false} InsertHas(r: Run, rest: seq<Run>)
    ensures forall x :: x in Insert(r, rest) <==> x == r || x in rest
  {
    if rest != [] && rest[0].startedAt > r.startedAt {
      InsertHas(r, rest[1..]);
      assert rest == [rest[0]] + rest[1..];
    }
  }

  // ---------------------------------------------------------------- the next run shown

  /** Every enabled job shows the first match of its present expression after some time that lies before a bound, if one is given. */
  ghost predicate Shows(job: Job, bound: Option<int>) {
    job.enabled ==> exists from :: (bound.Some? ==> from <= bound.value) && ShowsNext(job, from)
  }

  ghost predicate AllShow(s: State, bound: Option<int>) {
    forall i :: 0 <= i < |s.jobs| ==> Shows(s.jobs[i], bound)
  }

  /** Where a call starts a search, if it starts one. */
  ghost function SearchStart(op: Op, now: int): int {
    if op.BeginOp? then
      (if op.nextFrom.Some? then op.nextFrom.value else FloorToMinute(if op.scheduledAt.Some? then op.scheduledAt.value else now))
    else now
  }

  ghost predicate SameShown(a: Job, b: Job) {
    a.expression == b.expression && a.enabled == b.enabled && a.nextRunAt == b.nextRunAt
  }

  lemma SameStillShows(a: Job, b: Job, earlier: Option<int>, later: Option<int>)
    requires Shows(a, earlier) && SameShown(b, a)
    requires later.Some? ==> earlier.Some? && earlier.value <= later.value
    ensures Shows(b, later)
  {
    hide IsNextRun, ReadExpression;
    if b.enabled {
      var from :| (earlier.Some? ==> from <= earlier.value) && ShowsNext(a, from);
      assert ShowsNext(b, from);
    }
  }

  /** A call leaves each job showing what it showed, or the next run from where the call's own search starts. */
  lemma EachJobShows(s: State, env: Env, e: Event, i: nat)
    requires Good(s, env) && Lawful(env) && Proper(e) && Step(s, env, e.op, e.now).Ok?
    requires i < |After(s, env, e.op, e.now).jobs|
    ensures var job := After(s, env, e.op, e.now).jobs[i];
            || (exists j :: 0 <= j < |s.jobs| && SameShown(job, s.jobs[j]))
            || !job.enabled
            || ShowsNext(job, SearchStart(e.op, e.now))
  {
    hide IsNextRun, ReadExpression, ShowsNext, Good;
    var t := After(s, env, e.op, e.now);
    match e.op {
      case CreateOp(x, on, drawn) =>
        CreatedJob(s, env, x, on, e.now, drawn);
        if i < |s.jobs| { assert SameShown(t.jobs[i], s.jobs[i]); }
      case UpdateOp(id, x, on) =>
        UpdatedJob(s, env, id, x, on, e.now);
        assert SameShown(t.jobs[i], s.jobs[i]) || t.jobs[i] != s.jobs[i];
      case RemoveOp(id) =>
        RemovedJob(s, env, id);
        assert t.jobs[i] in s.jobs;
        var j :| 0 <= j < |s.jobs| && s.jobs[j] == t.jobs[i];
        assert SameShown(t.jobs[i], s.jobs[j]);
      case BeginOp(id, trigger, at, from, drawn) =>
        BeginShows(s, env, e, i);
      case FinishOp(id, runId, status) =>
        assert SameShown(t.jobs[i], s.jobs[i]);
      case RecordOp(id, record, drawn) =>
        assert SameShown(t.jobs[i], s.jobs[i]);
      case ReloadOp =>
        ReloadShows(s, env, e.now, i);
    }
  }

  lemma ReloadShows(s: State, env: Env, now: int, i: nat)
    requires Good(s, env) && i < |Reload(s.jobs, s.runs, env, now).jobs|
    ensures i < |s.jobs| && SameShown(Reload(s.jobs, s.runs, env, now).jobs[i], s.jobs[i])
  {
    ReloadIsGood(s.jobs, s.runs, env, now);
    hide Reload, JobOk;
    assert SameJob(Reload(s.jobs, s.runs, env, now).jobs[i], s.jobs[i]);
  }

  lemma BeginShows(s: State, env: Env, e: Event, i: nat)
    requires Good(s, env) && Lawful(env) && e.op.BeginOp? && Step(s, env, e.op, e.now).Ok?
    requires i < |After(s, env, e.op, e.now).jobs|
    ensures var job := After(s, env, e.op, e.now).jobs[i];
            (exists j :: 0 <= j < |s.jobs| && SameShown(job, s.jobs[j])) || ShowsNext(job, SearchStart(e.op, e.now))
  {
    hide IsNextRun, ReadExpression, ShowsNext, Good;
    var op, t := e.op, After(s, env, e.op, e.now);
    if Begin(s, env, op.id, op.trigger, op.scheduledAt, op.nextFrom, e.now, op.drawn).value.1.Some? {
      BegunJob(s, env, op.id, op.trigger, op.scheduledAt, op.nextFrom, e.now, op.drawn);
      assert i < |s.jobs| && (SameShown(t.jobs[i], s.jobs[i]) || !SameShown(t.jobs[i], s.jobs[i]));
    } else {
      RefusedRun(s, env, op.id, op.trigger, op.scheduledAt, op.nextFrom, e.now, op.drawn);
      assert SameShown(t.jobs[i], s.jobs[i]);
    }
  }

  lemma StepKeepsShowing(s: State, env: Env, e: Event, earlier: Option<int>, later: Option<int>)
    requires Good(s, env) && Lawful(env) && Proper(e) && AllShow(s, earlier)
    requires later.Some? ==> earlier.Some? && earlier.value <= later.value && SearchStart(e.op, e.now) <= later.value
    ensures AllShow(After(s, env, e.op, e.now), later)
  {
    var t := After(s, env, e.op, e.now);
    forall i | 0 <= i < |t.jobs| ensures Shows(t.jobs[i], later) {
      if Step(s, env, e.op, e.now).Ok? {
        EachJobShows(s, env, e, i);
        hide After, ShowsNext, Good, Lawful, Step;
        if j :| 0 <= j < |s.jobs| && SameShown(t.jobs[i], s.jobs[j]) { SameStillShows(s.jobs[j], t.jobs[i], earlier, later); }
      } else {
        SameStillShows(s.jobs[i], t.jobs[i], earlier, later);
      }
    }
  }

  /** In every history, however the clock moves, every enabled job shows a next run of the expression it has now. */
  lemma {:induction false} EnabledJobsShowTheirNextRun(env: Env, start: int, events: seq<Event>)
    requires Lawful(env) && forall i | 0 <= i < |events| :: Proper(events[i])
    ensures AllShow(Play(env, start, events).s, None)
  {
    if events != [] {
      var n := |events| - 1;
      EnabledJobsShowTheirNextRun(env, start, events[..n]);
      RegistryStaysGood(env, start, events[..n]);
      StepKeepsShowing(Play(env, start, events[..n]).s, env, events[n], None, None);
    }
  }

  /** While the clock does not go back, it is the first match after some time that has been reached: nothing in between is passed over. */
  lemma {:induction false} NothingIsPassedOver(env: Env, start: int, events: seq<Event>)
    requires Lawful(env) && AllTimely(env, start, events)
    ensures AllShow(Play(env, start, events).s, Some(Play(env, start, events).now))
  {
    if events != [] {
      var n := |events| - 1;
      forall i | 0 <= i < n ensures Timely(Play(env, start, events[..n][..i]), events[..n][i]) {
        assert events[..n][..i] == events[..i];
        assert Timely(Play(env, start, events[..i]), events[i]);
      }
      NothingIsPassedOver(env, start, events[..n]);
      RegistryStaysGood(env, start, events[..n]);
      assert events[..n][..n] == events[..n] && Timely(Play(env, start, events[..n]), events[n]);
      NextKeepsShowing(Play(env, start, events[..n]), env, events[n]);
    }
  }

  lemma NextKeepsShowing(w: World, env: Env, e: Event)
    requires Good(w.s, env) && Lawful(env) && Timely(w, e) && AllShow(w.s, Some(w.now))
    ensures AllShow(Next(w, env, e).s, Some(Next(w, env, e).now))
  {
    hide AllShow, Good, Lawful;
    if ScheduledCall(e.op) || !e.op.BeginOp? {
      StepKeepsShowing(w.s, env, e, Some(w.now), Some(e.now));
    } else {
      ManualKeepsShowing(w.s, env, e, Some(w.now), Some(e.now));
    }
    hide ClaimedSlot, After;
  }

  /** A manual claim searches nothing. */
  lemma ManualKeepsShowing(s: State, env: Env, e: Event, earlier: Option<int>, later: Option<int>)
    requires Good(s, env) && Lawful(env) && e.op.BeginOp? && e.op.trigger.Manual? && AllShow(s, earlier)
    requires later.Some? ==> earlier.Some? && earlier.value <= later.value
    ensures AllShow(After(s, env, e.op, e.now), later)
  {
    var op, t := e.op, After(s, env, e.op, e.now);
    if Step(s, env, op, e.now).Ok? {
      if Begin(s, env, op.id, op.trigger, op.scheduledAt, op.nextFrom, e.now, op.drawn).value.1.Some? {
        BegunJob(s, env, op.id, op.trigger, op.scheduledAt, op.nextFrom, e.now, op.drawn);
      } else {
        RefusedRun(s, env, op.id, op.trigger, op.scheduledAt, op.nextFrom, e.now, op.drawn);
      }
    }
    hide ReadExpression, IsNextRun, Good, Step, After;
    forall i | 0 <= i < |t.jobs| ensures Shows(t.jobs[i], later) {
      assert SameShown(t.jobs[i], s.jobs[i]);
      SameStillShows(s.jobs[i], t.jobs[i], earlier, later);
    }
  }

  // ---------------------------------------------------------------- identifiers

  /** Of the first twenty identifiers drawn the first one not in use is taken; none is taken exactly when all of them are in use. */
  lemma {:induction false} IdentifierIsTheFirstUnused(used: set<string>, drawn: seq<string>, attempts: nat)
    ensures var r := UniqueId(used, drawn, attempts);
            && (r.None? <==> forall i :: 0 <= i < |drawn| && i < attempts ==> drawn[i] in used)
            && (r.Some? ==> exists i :: 0 <= i < |drawn| && i < attempts && drawn[i] == r.value && drawn[i] !in used
                              && forall j :: 0 <= j < i ==> drawn[j] in used)
    decreases attempts
  {
    if attempts > 0 && drawn != [] && drawn[0] in used {
      var rest := drawn[1..];
      IdentifierIsTheFirstUnused(used, rest, attempts - 1);
      assert forall i :: 0 <= i < |rest| ==> rest[i] == drawn[i + 1];
      var r := UniqueId(used, drawn, attempts);
      if r.Some? {
        var i :| 0 <= i < |rest| && i < attempts - 1 && rest[i] == r.value && rest[i] !in used && forall j :: 0 <= j < i ==> rest[j] in used;
        assert drawn[i + 1] == r.value;
        forall j | 0 <= j < i + 1 ensures drawn[j] in used {
          assert j > 0 ==> drawn[j] == rest[j - 1];
        }
      } else {
        forall i | 0 <= i < |drawn| && i < attempts ensures drawn[i] in used {
          assert i > 0 ==> drawn[i] == rest[i - 1];
        }
      }
    }
  }
}
