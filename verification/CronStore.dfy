/**
 * The registry object, which updates its jobs and logs in place.  Each call
 * leaves exactly the state its specification names, and a call that throws
 * leaves the state as it was.
 */
module CronStore {
  import opened Common
  import opened CronParse
  import opened CronClaims
  import opened CronSafety

  class CronRegistry {
    const env: Env
    var jobs: seq<Job>
    var runs: map<string, seq<Run>>

    ghost function Contents(): State
      reads this
    {
      State(jobs, runs)
    }

    constructor (env: Env)
      ensures this.env == env && Contents() == State([], map[]) && Good(Contents(), env)
    {
      this.env := env;
      jobs, runs := [], map[];
    }

    method FindJobIndex(id: string) returns (k: nat)
      ensures k == FindJob(jobs, id)
    {
      k := 0;
      while k < |jobs| && jobs[k].id != id
        invariant k <= |jobs| && forall i | 0 <= i < k :: jobs[i].id != id
      {
        k := k + 1;
      }
    }

    method SearchNext(needed: bool, expression: string, ms: int) returns (r: Result<Option<int>, StoreError>)
      ensures r == NextRunIf(needed, env, expression, ms)
    {
      if !needed { return Ok(None); }
      var parsed := ParseCronExpression(expression);
      match parsed
      case Ok(_) => return Ok(Some(env.next(expression, ms)));
      case Err(e) => return Err(ExpressionRejected(e));
    }

    method Draw(used: set<string>, drawn: seq<string>) returns (r: Option<string>)
      ensures r == UniqueId(used, drawn, ID_ATTEMPTS)
    {
      var attempt: nat := 0;
      while attempt < ID_ATTEMPTS && attempt < |drawn|
        invariant attempt <= ID_ATTEMPTS && attempt <= |drawn|
        invariant UniqueId(used, drawn, ID_ATTEMPTS) == UniqueId(used, drawn[attempt..], ID_ATTEMPTS - attempt)
      {
        if drawn[attempt] !in used { return Some(drawn[attempt]); }
        assert drawn[attempt..][1..] == drawn[attempt + 1..];
        attempt := attempt + 1;
      }
      return None;
    }

    method CreateJob(expression: string, enabled: Option<bool>, now: int, drawn: seq<string>) returns (r: Result<Job, StoreError>)
      modifies this
      ensures var spec := Create(old(Contents()), env, expression, enabled, now, drawn);
              && (spec.Ok? ==> r == Ok(spec.value.1) && Contents() == spec.value.0)
              && (spec.Err? ==> r == Err(spec.error) && Contents() == old(Contents()))
    {
      var parsed := ParseCronExpression(expression);
      if parsed.Err? { return Err(ExpressionRejected(parsed.error)); }
      var id := Draw(JobIds(jobs), drawn);
      if id.None? { return Err(IdConflict); }
      var on := enabled.None? || enabled.value;
      var next := SearchNext(on, parsed.value.expression, now);
      if next.Err? { return Err(next.error); }
      var job := Job(id.value, parsed.value.expression, on, None, None, next.value);
      jobs := jobs + [job];
      runs := runs[id.value := []];
      return Ok(job);
    }

    method UpdateJob(id: string, patch: Option<string>, enabled: Option<bool>, now: int) returns (r: Result<Job, StoreError>)
      modifies this`jobs
      ensures var spec := Update(old(Contents()), env, id, patch, enabled, now);
              && (spec.Ok? ==> r == Ok(spec.value.1) && Contents() == spec.value.0)
              && (spec.Err? ==> r == Err(spec.error) && Contents() == old(Contents()))
    {
      var expression: Option<string> := None;
      if patch.Some? {
        var parsed := ParseCronExpression(patch.value);
        if parsed.Err? { return Err(ExpressionRejected(parsed.error)); }
        expression := Some(parsed.value.expression);
      }
      var k := FindJobIndex(id);
      if k == |jobs| { return Err(JobNotFound); }
      var job := jobs[k];
      var expressionChanged := expression.Some? && expression.value != job.expression;
      var enabledChanged := enabled.Some? && enabled.value != job.enabled;
      if expression.Some? { job := job.(expression := expression.value); }
      if enabled.Some? { job := job.(enabled := enabled.value); }
      if !job.enabled {
        job := job.(nextRunAt := None);
      } else if expressionChanged || enabledChanged || job.nextRunAt.None? {
        var next := SearchNext(true, job.expression, now);
        if next.Err? { return Err(next.error); }
        job := job.(nextRunAt := next.value);
      }
      jobs := jobs[k := job];
      return Ok(job);
    }

    method RemoveJob(id: string) returns (removed: bool)
      modifies this
      ensures (Contents(), removed) == Remove(old(Contents()), id)
    {
      var k := FindJobIndex(id);
      if k == |jobs| { return false; }
      jobs := jobs[..k] + jobs[k + 1..];
      runs := runs - {id};
      return true;
    }

    /** The pass over a job's log that closes abandoned claims. */
    method CloseStale(log: seq<Run>, now: int) returns (closed: seq<Run>)
      ensures closed == BreakStale(log, env, now)
    {
      closed := log;
      var i := 0;
      while i < |log|
        invariant 0 <= i <= |log| == |closed|
        invariant closed[..i] == BreakStale(log, env, now)[..i] && closed[i..] == log[i..]
      {
        assert closed[i] == closed[i..][0] == log[i];
        if closed[i].status == Running && now - closed[i].startedAt >= env.staleRunMs {
          closed := closed[i := closed[i].(status := Cancelled, finishedAt := Some(now))];
        }
        i := i + 1;
      }
    }

    method BeginRun(id: string, trigger: Trigger, scheduledAt: Option<int>, nextFrom: Option<int>, now: int, drawn: seq<string>)
      returns (r: Result<Option<Run>, StoreError>)
      modifies this
      ensures var spec := Begin(old(Contents()), env, id, trigger, scheduledAt, nextFrom, now, drawn);
              && (spec.Ok? ==> r == Ok(spec.value.1) && Contents() == spec.value.0)
              && (spec.Err? ==> r == Err(spec.error) && Contents() == old(Contents()))
    {
      var k := FindJobIndex(id);
      if k == |jobs| { return Err(JobNotFound); }
      var job := jobs[k];
      var log := CloseStale(if id in runs then runs[id] else [], now);
      var running := exists i :: 0 <= i < |log| && log[i].status == Running;
      var slot := FloorToMinute(if scheduledAt.Some? then scheduledAt.value else now);
      if running || (trigger.Scheduled? && (!job.enabled || job.lastScheduledAt == Some(slot))) {
        runs := runs[id := log];
        return Ok(None);
      }
      if trigger.Scheduled? {
        var next := SearchNext(true, job.expression, if nextFrom.Some? then nextFrom.value else slot);
        if next.Err? { return Err(next.error); }
        job := job.(lastScheduledAt := Some(slot), nextRunAt := next.value);
      }
      var runId := Draw(RunIds(log), drawn);
      if runId.None? { return Err(IdConflict); }
      var run := Run(runId.value, trigger, Running, if trigger.Scheduled? then Some(slot) else None, now, None);
      Prepend(k, job.(lastRunStatus := Some(Running)), run, log);
      return Ok(Some(run));
    }

    /** Puts a record at the front of a job's log and cuts the log to its limit. */
    method Prepend(k: nat, job: Job, run: Run, log: seq<Run>)
      requires k < |jobs| && job.lastRunStatus == Some(run.status)
      modifies this
      ensures Contents() == Logged(old(Contents()), env, k, job, run, log)
    {
      var longer := [run] + log;
      if |longer| > env.maxHistory { longer := longer[..env.maxHistory]; }
      jobs := jobs[k := job];
      runs := runs[job.id := longer];
    }

    method FindRunIndex(log: seq<Run>, id: string) returns (k: nat)
      ensures k == FindRun(log, id)
    {
      k := 0;
      while k < |log| && log[k].id != id
        invariant k <= |log| && forall i | 0 <= i < k :: log[i].id != id
      {
        k := k + 1;
      }
    }

    method FinishRun(id: string, runId: string, status: FinalStatus, now: int) returns (r: Result<Run, StoreError>)
      modifies this
      ensures var spec := Finish(old(Contents()), id, runId, status, now);
              && (spec.Ok? ==> r == Ok(spec.value.1) && Contents() == spec.value.0)
              && (spec.Err? ==> r == Err(spec.error) && Contents() == old(Contents()))
    {
      var k := FindJobIndex(id);
      if k == |jobs| { return Err(JobNotFound); }
      var log := if id in runs then runs[id] else [];
      var at := FindRunIndex(log, runId);
      if at == |log| { return Err(RunNotFound); }
      var run := log[at].(status := status, finishedAt := Some(now));
      jobs := jobs[k := jobs[k].(lastRunStatus := Some(status))];
      runs := runs[id := log[at := run]];
      return Ok(run);
    }

    method RecordExternal(id: string, record: Record, now: int, drawn: seq<string>) returns (r: Result<Run, StoreError>)
      requires record.status != Running
      modifies this
      ensures var spec := RecordRun(old(Contents()), env, id, record, now, drawn);
              && (spec.Ok? ==> r == Ok(spec.value.1) && Contents() == spec.value.0)
              && (spec.Err? ==> r == Err(spec.error) && Contents() == old(Contents()))
    {
      var k := FindJobIndex(id);
      if k == |jobs| { return Err(JobNotFound); }
      var started := if record.startedAt.Some? then record.startedAt.value else now;
      var finished := if record.finishedAt.Some? then record.finishedAt.value else now;
      if finished < started { return Err(RunTimeInvalid); }
      var log := if id in runs then runs[id] else [];
      var runId := record.id;
      if runId.None? {
        runId := Draw(RunIds(log), drawn);
        if runId.None? { return Err(IdConflict); }
      }
      var slot := if record.trigger.Scheduled? && record.scheduledFor.Some? then Some(FloorToMinute(record.scheduledFor.value)) else None;
      var run := Run(runId.value, record.trigger, record.status, slot, started, Some(finished));
      var at := FindRunIndex(log, run.id);
      if at < |log| { return Err(RunIdConflict); }
      Prepend(k, jobs[k].(lastRunStatus := Some(run.status)), run, log);
      return Ok(run);
    }

    /** The stable sort of a log that has been read back, newest start first. */
    method SortNewest(log: seq<Run>, now: int) returns (sorted: seq<Run>)
      ensures sorted == Newest(log, now)
    {
      sorted := [];
      var i := |log|;
      while 0 < i
        invariant 0 <= i <= |log| && sorted == Newest(log[i..], now)
      {
        i := i - 1;
        assert log[i..][0] == log[i] && log[i..][1..] == log[i + 1..];
        sorted := Insert(Interrupted(log[i], now), sorted);
      }
      assert log[0..] == log;
    }

    /** One job of the file, with its log read back. */
    method ReadJob(raw: Job, log: seq<Run>, now: int) returns (job: Result<Job, StoreError>)
      ensures job == ReloadJob(raw, log, env, now)
    {
      var parsed := ParseCronExpression(raw.expression);
      if parsed.Err? { return Err(ExpressionRejected(parsed.error)); }
      var next := SearchNext(raw.enabled && raw.nextRunAt.None?, parsed.value.expression, now);
      if next.Err? { return Err(next.error); }
      return Ok(Job(
        raw.id, parsed.value.expression, raw.enabled,
        if log == [] then raw.lastRunStatus else Some(log[0].status),
        if raw.lastScheduledAt.Some? then Some(FloorToMinute(raw.lastScheduledAt.value)) else None,
        if raw.enabled && raw.nextRunAt.Some? then raw.nextRunAt else next.value));
    }

    /** Restarting over the file this store wrote. */
    method Load(now: int)
      modifies this
      ensures Contents() == Reload(old(jobs), old(runs), env, now)
    {
      hide ReloadJob, ReadExpression;
      var oldJobs, oldRuns := jobs, runs;
      var newJobs: seq<Job>, newRuns: map<string, seq<Run>> := [], map[];
      var k := 0;
      while k < |oldJobs|
        invariant 0 <= k <= |oldJobs|
        invariant State(newJobs, newRuns) == Reload(oldJobs[..k], oldRuns, env, now)
      {
        var raw := oldJobs[k];
        assert oldJobs[..k + 1][..k] == oldJobs[..k];
        var sorted := SortNewest(if raw.id in oldRuns then oldRuns[raw.id] else [], now);
        var log := Trim(sorted, env.maxHistory);
        var job := ReadJob(raw, log, now);
        if job.Ok? {
          newJobs := newJobs + [job.value];
          newRuns := newRuns[job.value.id := log];
        }
        k := k + 1;
      }
      assert oldJobs[..k] == oldJobs;
      jobs, runs := newJobs, newRuns;
    }
  }
}
