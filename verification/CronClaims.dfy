/**
 * The cron registry as values: jobs, their run records, and what each store
 * operation makes of them.  Times are milliseconds; an operation reads the clock
 * once and is given what it read.
 */
module CronClaims {
  import opened Common
  import opened Calendar
  import opened CronSearch
  import opened CronParse

  datatype Trigger = Scheduled | Manual

  datatype Status = Running | Success | Failure | Cancelled

  datatype Run = Run(id: string, trigger: Trigger, status: Status, scheduledFor: Option<int>, startedAt: int, finishedAt: Option<int>)

  datatype Job = Job(
    id: string,
    expression: string,
    enabled: bool,
    lastRunStatus: Option<Status>,
    lastScheduledAt: Option<int>,
    nextRunAt: Option<int>)

  datatype State = State(jobs: seq<Job>, runs: map<string, seq<Run>>)

  datatype StoreError =
    | ExpressionRejected(error: CronError)
    | JobNotFound
    | RunNotFound
    | RunIdConflict
    | RunTimeInvalid
    | IdConflict

  /** The next-run search, the history limit and the time after which a claim counts as abandoned. */
  datatype Env = Env(next: (string, int) -> int, maxHistory: nat, staleRunMs: int)

  const MINUTE_MS := 60_000

  function FloorToMinute(ms: int): int {
    ms / MINUTE_MS * MINUTE_MS
  }

  // ---------------------------------------------------------------- the clock and the search

  /** The first matching minute strictly after a time in milliseconds. */
  ghost predicate IsNextRun(expression: string, ms: int, at: int)
    requires ReadExpression(expression).Ok?
  {
    exists from, r ::
      && Valid(from) && Stamp(from) == ms / MINUTE_MS
      && FirstMatch(ReadExpression(expression).value.schedule, from, r)
      && at == Stamp(r) * MINUTE_MS
  }

  ghost predicate Lawful(env: Env) {
    && 1 <= env.maxHistory && MINUTE_MS <= env.staleRunMs
    && forall e, ms | ReadExpression(e).Ok? :: IsNextRun(e, ms, env.next(e, ms))
  }

  /** Every stored expression has a next run after every time, so a lawful search exists. */
  lemma NextRunExists(expression: string, ms: int) returns (at: int)
    requires ReadExpression(expression).Ok?
    ensures IsNextRun(expression, ms, at)
  {
    var from := MomentAt(ms / MINUTE_MS);
    var c := ReadExpression(expression).value.schedule;
    AcceptedIsAcceptable(expression);
    var x := MatchWithinHorizon(c, from);
    var r := EarliestMatch(c, from, x);
    at := Stamp(r) * MINUTE_MS;
  }

  lemma {:induction false} EarliestMatch(c: Schedule, from: Moment, x: Moment) returns (r: Moment)
    requires Valid(from) && Valid(x) && Matches(c, x) && Stamp(from) < Stamp(x)
    ensures FirstMatch(c, from, r)
    decreases Stamp(x) - Stamp(from)
  {
    if y :| Valid(y) && Stamp(from) < Stamp(y) < Stamp(x) && Matches(c, y) {
      r := EarliestMatch(c, from, y);
    } else {
      r := x;
    }
  }

  lemma MinuteIsLater(ms: int, minute: int)
    requires ms / MINUTE_MS < minute
    ensures FloorToMinute(ms) <= ms < minute * MINUTE_MS && FloorToMinute(ms) < minute * MINUTE_MS
    ensures (minute * MINUTE_MS) % MINUTE_MS == 0
  {
  }

  lemma NextRunIsLater(env: Env, e: string, ms: int)
    requires Lawful(env) && ReadExpression(e).Ok?
    ensures ms < env.next(e, ms) && env.next(e, ms) % MINUTE_MS == 0
    ensures FloorToMinute(ms) < env.next(e, ms)
  {
    assert IsNextRun(e, ms, env.next(e, ms));
    var from, r :|
      && Valid(from) && Stamp(from) == ms / MINUTE_MS
      && FirstMatch(ReadExpression(e).value.schedule, from, r)
      && env.next(e, ms) == Stamp(r) * MINUTE_MS;
    MinuteIsLater(ms, Stamp(r));
  }

  /** All that the registry needs of the search: the next run is later, and on a minute. */
  ghost predicate Advances(env: Env) {
    && 1 <= env.maxHistory
    && forall e, ms | ReadExpression(e).Ok? :: FloorToMinute(ms) < env.next(e, ms) && ms < env.next(e, ms)
  }

  lemma LawfulAdvances(env: Env)
    requires Lawful(env)
    ensures Advances(env)
  {
    forall e, ms | ReadExpression(e).Ok? ensures FloorToMinute(ms) < env.next(e, ms) && ms < env.next(e, ms) {
      NextRunIsLater(env, e, ms);
    }
  }

  // ---------------------------------------------------------------- looking things up

  function FindJob(jobs: seq<Job>, id: string): (k: nat)
    ensures k <= |jobs| && (k < |jobs| ==> jobs[k].id == id)
    ensures forall i | 0 <= i < k :: jobs[i].id != id
  {
    if jobs == [] || jobs[0].id == id then 0 else 1 + FindJob(jobs[1..], id)
  }

  function FindRun(runs: seq<Run>, id: string): (k: nat)
    ensures k <= |runs| && (k < |runs| ==> runs[k].id == id)
    ensures forall i | 0 <= i < k :: runs[i].id != id
  {
    if runs == [] || runs[0].id == id then 0 else 1 + FindRun(runs[1..], id)
  }

  function Log(runs: map<string, seq<Run>>, id: string): seq<Run> {
    if id in runs then runs[id] else []
  }

  function RunsOf(s: State, id: string): seq<Run> {
    Log(s.runs, id)
  }

  /** The first of at most twenty drawn identifiers that is not in use. */
  function UniqueId(used: set<string>, drawn: seq<string>, attempts: nat): (r: Option<string>)
    ensures r.Some? ==> r.value !in used && r.value in drawn
    decreases attempts
  {
    if attempts == 0 || drawn == [] then None
    else if drawn[0] !in used then Some(drawn[0])
    else UniqueId(used, drawn[1..], attempts - 1)
  }

  const ID_ATTEMPTS: nat := 20

  function JobIds(jobs: seq<Job>): set<string> {
    set j | j in jobs :: j.id
  }

  function RunIds(runs: seq<Run>): set<string> {
    set r | r in runs :: r.id
  }

  function Trim(runs: seq<Run>, limit: nat): seq<Run> {
    if |runs| > limit then runs[..limit] else runs
  }

  // ---------------------------------------------------------------- operations

  /** The form under which an accepted expression is stored. */
  ghost function Stored(expression: string): Result<string, StoreError> {
    match ReadExpression(expression)
    case Ok(parsed) => Ok(parsed.expression)
    case Err(e) => Err(ExpressionRejected(e))
  }

  ghost function NextRun(env: Env, expression: string, ms: int): Result<int, StoreError> {
    match ReadExpression(expression)
    case Ok(_) => Ok(env.next(expression, ms))
    case Err(e) => Err(ExpressionRejected(e))
  }

  /** Only an enabled job looks for its next run. */
  ghost function NextRunIf(needed: bool, env: Env, expression: string, ms: int): Result<Option<int>, StoreError> {
    if !needed then Ok(None)
    else
      var next :- NextRun(env, expression, ms);
      Ok(Some(next))
  }

  ghost function Create(s: State, env: Env, expression: string, enabled: Option<bool>, now: int, drawn: seq<string>): Result<(State, Job), StoreError> {
    var stored :- Stored(expression);
    match UniqueId(JobIds(s.jobs), drawn, ID_ATTEMPTS)
    case None => Err(IdConflict)
    case Some(id) =>
      var on := enabled.None? || enabled.value;
      var next :- NextRunIf(on, env, stored, now);
      var job := Job(id, stored, on, None, None, next);
      Ok((State(s.jobs + [job], s.runs[id := []]), job))
  }

  ghost function Rescheduled(job: Job, env: Env, expression: Option<string>, enabled: Option<bool>, now: int): Result<Job, StoreError> {
    var changed := (expression.Some? && expression.value != job.expression) || (enabled.Some? && enabled.value != job.enabled);
    var patched := job.(
      expression := if expression.Some? then expression.value else job.expression,
      enabled := if enabled.Some? then enabled.value else job.enabled);
    if !patched.enabled then Ok(patched.(nextRunAt := None))
    else if changed || job.nextRunAt.None? then
      var next :- NextRun(env, patched.expression, now);
      Ok(patched.(nextRunAt := Some(next)))
    else Ok(patched)
  }

  ghost function StoredPatch(expression: Option<string>): Result<Option<string>, StoreError> {
    if expression.None? then Ok(None)
    else
      var stored :- Stored(expression.value);
      Ok(Some(stored))
  }

  ghost function Update(s: State, env: Env, id: string, expression: Option<string>, enabled: Option<bool>, now: int): Result<(State, Job), StoreError> {
    var patch :- StoredPatch(expression);
    var k := FindJob(s.jobs, id);
    if k == |s.jobs| then Err(JobNotFound)
    else
      var job :- Rescheduled(s.jobs[k], env, patch, enabled, now);
      Ok((s.(jobs := s.jobs[k := job]), job))
  }

  function Spliced(jobs: seq<Job>, k: nat): seq<Job>
    requires k < |jobs|
  {
    jobs[..k] + jobs[k + 1..]
  }

  function Remove(s: State, id: string): (State, bool) {
    var k := FindJob(s.jobs, id);
    if k == |s.jobs| then (s, false)
    else (State(Spliced(s.jobs, k), s.runs - {id}), true)
  }

  /** A new record goes to the front of a job's log, whose oldest records may fall off. */
  function Logged(s: State, env: Env, k: nat, job: Job, run: Run, runs: seq<Run>): State
    requires k < |s.jobs|
  {
    State(s.jobs[k := job.(lastRunStatus := Some(run.status))], s.runs[job.id := Trim([run] + runs, env.maxHistory)])
  }

  /** A running record old enough to count as abandoned. */
  predicate Stale(r: Run, env: Env, now: int) {
    r.status == Running && now - r.startedAt >= env.staleRunMs
  }

  function BreakStale(runs: seq<Run>, env: Env, now: int): seq<Run> {
    seq(|runs|, i requires 0 <= i < |runs| =>
      if Stale(runs[i], env, now) then runs[i].(status := Cancelled, finishedAt := Some(now)) else runs[i])
  }

  predicate AnyRunning(runs: seq<Run>) {
    exists i :: 0 <= i < |runs| && runs[i].status == Running
  }

  /** When a scheduled claim moves the schedule on; a manual one leaves it alone. */
  ghost function Claimed(job: Job, env: Env, trigger: Trigger, scheduledFor: int, nextFrom: int): Result<Job, StoreError> {
    if trigger.Manual? then Ok(job)
    else
      var next :- NextRun(env, job.expression, nextFrom);
      Ok(job.(lastScheduledAt := Some(scheduledFor), nextRunAt := Some(next)))
  }

  predicate Refused(job: Job, runs: seq<Run>, trigger: Trigger, scheduledFor: int) {
    AnyRunning(runs) || (trigger.Scheduled? && (!job.enabled || job.lastScheduledAt == Some(scheduledFor)))
  }

  ghost function Begin(s: State, env: Env, id: string, trigger: Trigger, scheduledAt: Option<int>, nextFrom: Option<int>, now: int, drawn: seq<string>)
    : Result<(State, Option<Run>), StoreError>
  {
    var k := FindJob(s.jobs, id);
    if k == |s.jobs| then Err(JobNotFound)
    else
      var runs := BreakStale(RunsOf(s, id), env, now);
      var slot := FloorToMinute(if scheduledAt.Some? then scheduledAt.value else now);
      if Refused(s.jobs[k], runs, trigger, slot) then Ok((s.(runs := s.runs[id := runs]), None))
      else
        var job :- Claimed(s.jobs[k], env, trigger, slot, if nextFrom.Some? then nextFrom.value else slot);
        match UniqueId(RunIds(runs), drawn, ID_ATTEMPTS)
        case None => Err(IdConflict)
        case Some(runId) =>
          var run := Run(runId, trigger, Running, if trigger.Scheduled? then Some(slot) else None, now, None);
          Ok((Logged(s, env, k, job, run, runs), Some(run)))
  }

  function Finish(s: State, id: string, runId: string, status: Status, now: int): Result<(State, Run), StoreError>
    requires status != Running
  {
    var k := FindJob(s.jobs, id);
    var runs := RunsOf(s, id);
    var r := FindRun(runs, runId);
    if k == |s.jobs| then Err(JobNotFound)
    else if r == |runs| then Err(RunNotFound)
    else
      var run := runs[r].(status := status, finishedAt := Some(now));
      Ok((State(s.jobs[k := s.jobs[k].(lastRunStatus := Some(status))], s.runs[id := runs[r := run]]), run))
  }

  /** What a caller of the external log supplies. */
  datatype Record = Record(id: Option<string>, trigger: Trigger, status: Status, scheduledFor: Option<int>, startedAt: Option<int>, finishedAt: Option<int>)

  function RecordRun(s: State, env: Env, id: string, record: Record, now: int, drawn: seq<string>): Result<(State, Run), StoreError>
    requires record.status != Running
  {
    var k := FindJob(s.jobs, id);
    var runs := RunsOf(s, id);
    var started := if record.startedAt.Some? then record.startedAt.value else now;
    var finished := if record.finishedAt.Some? then record.finishedAt.value else now;
    if k == |s.jobs| then Err(JobNotFound)
    else if finished < started then Err(RunTimeInvalid)
    else
      match if record.id.Some? then record.id else UniqueId(RunIds(runs), drawn, ID_ATTEMPTS)
      case None => Err(IdConflict)
      case Some(runId) =>
        var slot := if record.trigger.Scheduled? && record.scheduledFor.Some? then Some(FloorToMinute(record.scheduledFor.value)) else None;
        var run := Run(runId, record.trigger, record.status, slot, started, Some(finished));
        if FindRun(runs, runId) < |runs| then Err(RunIdConflict)
        else Ok((Logged(s, env, k, s.jobs[k], run, runs), run))
  }

  /** A restart cannot resume a callback, so a running record is closed as cancelled. */
  function Interrupted(r: Run, now: int): Run {
    if r.status == Running then r.(status := Cancelled, finishedAt := Some(now)) else r
  }

  /** Stable insertion, newest start first. */
  function Insert(r: Run, rest: seq<Run>): seq<Run> {
    if rest == [] || rest[0].startedAt <= r.startedAt then [r] + rest else [rest[0]] + Insert(r, rest[1..])
  }

  function Newest(runs: seq<Run>, now: int): seq<Run> {
    if runs == [] then [] else Insert(Interrupted(runs[0], now), Newest(runs[1..], now))
  }

  function ReloadRuns(runs: seq<Run>, env: Env, now: int): seq<Run> {
    Trim(Newest(runs, now), env.maxHistory)
  }

  ghost function ReloadJob(job: Job, runs: seq<Run>, env: Env, now: int): Result<Job, StoreError> {
    var stored :- Stored(job.expression);
    var next :- NextRunIf(job.enabled && job.nextRunAt.None?, env, stored, now);
    Ok(Job(
      job.id, stored, job.enabled,
      if runs == [] then job.lastRunStatus else Some(runs[0].status),
      if job.lastScheduledAt.Some? then Some(FloorToMinute(job.lastScheduledAt.value)) else None,
      if job.enabled && job.nextRunAt.Some? then job.nextRunAt else next))
  }

  /** Reading back the store's own file; a job that cannot be read is skipped. */
  ghost function Reload(jobs: seq<Job>, runs: map<string, seq<Run>>, env: Env, now: int): State {
    if jobs == [] then State([], map[])
    else
      var last := jobs[|jobs| - 1];
      var before := Reload(jobs[..|jobs| - 1], runs, env, now);
      var log := ReloadRuns(Log(runs, last.id), env, now);
      WithJob(before, ReloadJob(last, log, env, now), log)
  }

  function WithJob(s: State, job: Result<Job, StoreError>, runs: seq<Run>): State {
    if job.Err? then s else State(s.jobs + [job.value], s.runs[job.value.id := runs])
  }
}
