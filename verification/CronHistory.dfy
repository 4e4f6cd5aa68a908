/**
 * Whole histories of the cron registry.  The registry is in order after any
 * calls at any clock readings; the slots claimed for a job strictly increase
 * when the clock does not go back and scheduled calls are made as the
 * scheduler's tick makes them.
 */
module CronHistory {
  import opened Common
  import opened CronParse
  import opened CronClaims
  import opened CronSafety

  datatype Event = Event(op: Op, now: int)

  /** The registry, the slots claimed so far for each present job, the last clock reading and the last tick's minute. */
  datatype World = World(s: State, claims: map<string, seq<int>>, now: int, minute: int)

  ghost predicate Proper(e: Event) {
    e.op.RecordOp? ==> e.op.record.status != Running
  }

  ghost predicate ScheduledCall(op: Op) {
    op.BeginOp? && op.trigger.Scheduled?
  }

  /** The slot a call claims for its job, if it claims one. */
  ghost function ClaimedSlot(s: State, env: Env, e: Event): Option<int> {
    if ScheduledCall(e.op)
      && var r := Begin(s, env, e.op.id, e.op.trigger, e.op.scheduledAt, e.op.nextFrom, e.now, e.op.drawn); r.Ok? && r.value.1.Some?
    then Some(FloorToMinute(if e.op.scheduledAt.Some? then e.op.scheduledAt.value else e.now))
    else None
  }

  ghost function ClaimsOf(claims: map<string, seq<int>>, id: string): seq<int> {
    if id in claims then claims[id] else []
  }

  ghost function Next(w: World, env: Env, e: Event): World
    requires Proper(e)
  {
    var slot := ClaimedSlot(w.s, env, e);
    World(
      After(w.s, env, e.op, e.now),
      if slot.Some? then w.claims[e.op.id := ClaimsOf(w.claims, e.op.id) + [slot.value]]
      else if e.op.RemoveOp? then w.claims - {e.op.id}
      else w.claims,
      e.now,
      if ScheduledCall(e.op) && e.op.scheduledAt.Some? then e.op.scheduledAt.value else w.minute)
  }

  ghost function Play(env: Env, start: int, events: seq<Event>): World
    requires forall i | 0 <= i < |events| :: Proper(events[i])
  {
    if events == [] then World(State([], map[]), map[], start, FloorToMinute(start))
    else Next(Play(env, start, events[..|events| - 1]), env, events[|events| - 1])
  }

  /** The clock does not go back, and a scheduled call names the minute of a tick as its slot and as the start of the next search. */
  ghost predicate Timely(w: World, e: Event) {
    && Proper(e) && w.now <= e.now
    && (ScheduledCall(e.op) ==>
          && e.op.scheduledAt.Some? && e.op.nextFrom == e.op.scheduledAt
          && FloorToMinute(e.op.scheduledAt.value) == e.op.scheduledAt.value
          && w.minute <= e.op.scheduledAt.value <= e.now)
  }

  ghost predicate AllTimely(env: Env, start: int, events: seq<Event>) {
    && (forall i | 0 <= i < |events| :: Proper(events[i]))
    && (forall i | 0 <= i < |events| :: Timely(Play(env, start, events[..i]), events[i]))
  }

  // ---------------------------------------------------------------- in order at any clock reading

  /** Whatever is called, and however the clock moves, every job has at most one running record. */
  lemma {:induction false} RegistryStaysGood(env: Env, start: int, events: seq<Event>)
    requires 1 <= env.maxHistory && forall i | 0 <= i < |events| :: Proper(events[i])
    ensures Good(Play(env, start, events).s, env)
  {
    if events == [] {
      assert Play(env, start, events).s == State([], map[]);
    } else {
      var n := |events| - 1;
      RegistryStaysGood(env, start, events[..n]);
      StepIsGood(Play(env, start, events[..n]).s, env, events[n].op, events[n].now);
    }
  }

  // ---------------------------------------------------------------- slots

  ghost predicate Ascends(slots: seq<int>) {
    forall i, j | 0 <= i < j < |slots| :: slots[i] < slots[j]
  }

  ghost predicate JobOrderly(job: Job, slots: seq<int>, minute: int) {
    && Ascends(slots)
    && job.lastScheduledAt == (if slots == [] then None else Some(slots[|slots| - 1]))
    && (forall i | 0 <= i < |slots| :: slots[i] <= minute)
    && (job.enabled && job.nextRunAt.Some? ==> forall i | 0 <= i < |slots| :: slots[i] < job.nextRunAt.value)
  }

  ghost predicate Orderly(w: World) {
    && w.minute <= w.now
    && w.claims.Keys <= JobIds(w.s.jobs)
    && forall job | job in w.s.jobs :: JobOrderly(job, ClaimsOf(w.claims, job.id), w.minute)
  }

  /** An operation that leaves the jobs' schedules alone leaves the order alone. */
  lemma SameSchedules(w: World, s: State, now: int, minute: int)
    requires Orderly(w) && w.minute <= minute <= now
    requires SameJobs(s.jobs, w.s.jobs)
    ensures Orderly(World(s, w.claims, now, minute))
  {
    forall id | id in w.claims ensures id in JobIds(s.jobs) {
      var i :| 0 <= i < |w.s.jobs| && w.s.jobs[i].id == id;
      JobIdAt(s.jobs, i);
    }
    forall job | job in s.jobs ensures JobOrderly(job, ClaimsOf(w.claims, job.id), minute) {
      var i :| 0 <= i < |s.jobs| && s.jobs[i] == job;
      assert SameJob(s.jobs[i], w.s.jobs[i]);
      assert w.s.jobs[i] in w.s.jobs;
    }
  }

  lemma CreateStaysOrderly(w: World, env: Env, e: Event)
    requires Good(w.s, env) && Orderly(w) && Timely(w, e) && e.op.CreateOp?
    ensures Orderly(Next(w, env, e))
  {
    hide ReadExpression;
    var r := Create(w.s, env, e.op.expression, e.op.enabled, e.now, e.op.drawn);
    if r.Ok? {
      var (t, job) := r.value;
      assert job.id !in w.claims;
      forall id | id in w.claims ensures id in JobIds(t.jobs) {
        var j :| j in w.s.jobs && j.id == id;
        assert j in t.jobs;
      }
    }
  }

  lemma OtherJobStays(jobs: seq<Job>, k: nat, job: Job, j: Job)
    requires DistinctJobs(jobs) && k < |jobs| && job.id == jobs[k].id && j in jobs[k := job]
    ensures j == job || (j in jobs && j.id != job.id)
  {
    var i :| 0 <= i < |jobs| && jobs[k := job][i] == j;
    if i < k { assert jobs[i].id != jobs[k].id; }
    if k < i { assert jobs[k].id != jobs[i].id; }
  }

  lemma ReplaceStaysOrderly(w: World, k: nat, job: Job, s: State, claims: map<string, seq<int>>, now: int, minute: int)
    requires DistinctJobs(w.s.jobs) && Orderly(w) && w.minute <= minute <= now
    requires k < |w.s.jobs| && job.id == w.s.jobs[k].id && s.jobs == w.s.jobs[k := job]
    requires claims.Keys <= w.claims.Keys + {job.id}
    requires forall id | id != job.id :: ClaimsOf(claims, id) == ClaimsOf(w.claims, id)
    requires JobOrderly(job, ClaimsOf(claims, job.id), minute)
    ensures Orderly(World(s, claims, now, minute))
  {
    SameJobIds(w.s.jobs, k, job);
    JobIdAt(w.s.jobs, k);
    forall j | j in s.jobs ensures JobOrderly(j, ClaimsOf(claims, j.id), minute) {
      OtherJobStays(w.s.jobs, k, job, j);
    }
  }

  lemma UpdateStaysOrderly(w: World, env: Env, e: Event)
    requires Advances(env) && Good(w.s, env) && Orderly(w) && Timely(w, e) && e.op.UpdateOp?
    ensures Orderly(Next(w, env, e))
  {
    hide ReadExpression;
    var r := Update(w.s, env, e.op.id, e.op.patch, e.op.enabled, e.now);
    if r.Ok? {
      var k := FindJob(w.s.jobs, e.op.id);
      var (t, job) := r.value;
      assert w.s.jobs[k] in w.s.jobs;
      if job.nextRunAt.Some? && job.nextRunAt != w.s.jobs[k].nextRunAt {
        assert FloorToMinute(e.now) < env.next(job.expression, e.now);
      }
      ReplaceStaysOrderly(w, k, job, t, w.claims, e.now, w.minute);
    } else {
      SameSchedules(w, w.s, e.now, w.minute);
    }
  }

  lemma RemovedJobs(w: World, k: nat)
    requires DistinctJobs(w.s.jobs) && Orderly(w) && k < |w.s.jobs|
    ensures var claims := w.claims - {w.s.jobs[k].id};
            && claims.Keys <= JobIds(Spliced(w.s.jobs, k))
            && forall job | job in Spliced(w.s.jobs, k) :: job in w.s.jobs && ClaimsOf(claims, job.id) == ClaimsOf(w.claims, job.id)
  {
    var id, less := w.s.jobs[k].id, Spliced(w.s.jobs, k);
    forall x | x in (w.claims - {id}) ensures x in JobIds(less) {
      SplicedIds(w.s.jobs, k, x);
    }
    forall job | job in less ensures job in w.s.jobs && job.id != id {
      var i :| 0 <= i < |less| && less[i] == job;
      JobIdAt(less, i);
      SplicedIds(w.s.jobs, k, job.id);
      assert less[i] == w.s.jobs[if i < k then i else i + 1];
    }
  }

  lemma RemoveStaysOrderly(w: World, env: Env, e: Event)
    requires Good(w.s, env) && Orderly(w) && Timely(w, e) && e.op.RemoveOp?
    ensures Orderly(Next(w, env, e))
  {
    hide JobOrderly, JobOk, Tidy;
    var k := FindJob(w.s.jobs, e.op.id);
    if k < |w.s.jobs| {
      RemovedJobs(w, k);
    } else {
      forall id | id in JobIds(w.s.jobs) ensures id != e.op.id {
        var i :| 0 <= i < |w.s.jobs| && w.s.jobs[i].id == id;
      }
      assert w.claims - {e.op.id} == w.claims;
    }
  }

  lemma ClaimedJobIsOrderly(env: Env, job: Job, slots: seq<int>, minute: int, slot: int)
    requires Advances(env) && JobOk(job) && JobOrderly(job, slots, minute)
    requires minute <= slot && job.lastScheduledAt != Some(slot) && Claimed(job, env, Scheduled, slot, slot).Ok?
    ensures JobOrderly(Claimed(job, env, Scheduled, slot, slot).value.(lastRunStatus := Some(Running)), slots + [slot], slot)
  {
    assert FloorToMinute(slot) < env.next(job.expression, slot);
    assert Ascends(slots + [slot]);
  }

  /** A claim goes to a slot later than every earlier one, and moves the next run past it. */
  lemma ClaimStaysOrderly(w: World, env: Env, e: Event)
    requires Advances(env) && Good(w.s, env) && Orderly(w) && Timely(w, e) && ClaimedSlot(w.s, env, e).Some?
    ensures Orderly(Next(w, env, e))
  {
    var id, slot := e.op.id, e.op.scheduledAt.value;
    BeginIs(w.s, env, id, e.op.trigger, e.op.scheduledAt, e.op.nextFrom, e.now, e.op.drawn);
    var (t, run) := Begin(w.s, env, id, e.op.trigger, e.op.scheduledAt, e.op.nextFrom, e.now, e.op.drawn).value;
    var k := FindJob(w.s.jobs, id);
    var before := w.s.jobs[k];
    assert before in w.s.jobs;
    var slots := ClaimsOf(w.claims, id);
    ClaimedJobIsOrderly(env, before, slots, w.minute, slot);
    var job := Claimed(before, env, Scheduled, slot, slot).value.(lastRunStatus := Some(Running));
    assert t.jobs == w.s.jobs[k := job];
    ReplaceStaysOrderly(w, k, job, t, w.claims[id := slots + [slot]], e.now, slot);
  }

  lemma BeginStaysOrderly(w: World, env: Env, e: Event)
    requires Advances(env) && Good(w.s, env) && Orderly(w) && Timely(w, e) && e.op.BeginOp?
    ensures Orderly(Next(w, env, e))
  {
    hide ReadExpression;
    var r := Begin(w.s, env, e.op.id, e.op.trigger, e.op.scheduledAt, e.op.nextFrom, e.now, e.op.drawn);
    if ClaimedSlot(w.s, env, e).Some? {
      ClaimStaysOrderly(w, env, e);
    } else {
      if r.Ok? { BeginIs(w.s, env, e.op.id, e.op.trigger, e.op.scheduledAt, e.op.nextFrom, e.now, e.op.drawn); }
      SameSchedules(w, After(w.s, env, e.op, e.now), e.now, Next(w, env, e).minute);
    }
  }

  lemma FinishStaysOrderly(w: World, env: Env, e: Event)
    requires Orderly(w) && Timely(w, e) && e.op.FinishOp?
    ensures Orderly(Next(w, env, e))
  {
    SameSchedules(w, After(w.s, env, e.op, e.now), e.now, w.minute);
  }

  lemma RecordStaysOrderly(w: World, env: Env, e: Event)
    requires Orderly(w) && Timely(w, e) && e.op.RecordOp?
    ensures Orderly(Next(w, env, e))
  {
    SameSchedules(w, After(w.s, env, e.op, e.now), e.now, w.minute);
  }

  lemma ReloadStaysOrderly(w: World, env: Env, e: Event)
    requires Good(w.s, env) && Orderly(w) && Timely(w, e) && e.op.ReloadOp?
    ensures Orderly(Next(w, env, e))
  {
    ReloadIsGood(w.s.jobs, w.s.runs, env, e.now);
    SameSchedules(w, After(w.s, env, e.op, e.now), e.now, w.minute);
  }

  lemma NextStaysOrderly(w: World, env: Env, e: Event)
    requires Advances(env) && Good(w.s, env) && Orderly(w) && Timely(w, e)
    ensures Orderly(Next(w, env, e))
  {
    hide Good, Orderly, Next, Advances;
    match e.op
    case CreateOp(_, _, _) => CreateStaysOrderly(w, env, e);
    case UpdateOp(_, _, _) => UpdateStaysOrderly(w, env, e);
    case RemoveOp(_) => RemoveStaysOrderly(w, env, e);
    case BeginOp(_, _, _, _, _) => BeginStaysOrderly(w, env, e);
    case FinishOp(_, _, _) => FinishStaysOrderly(w, env, e);
    case RecordOp(_, _, _) => RecordStaysOrderly(w, env, e);
    case ReloadOp => ReloadStaysOrderly(w, env, e);
  }

  /**
   * In every timely history the slots claimed for a job strictly increase, the
   * last of them is the one the job remembers, and the next run of an enabled
   * job lies after all of them.
   */
  lemma {:induction false} SlotsIncrease(env: Env, start: int, events: seq<Event>)
    requires Lawful(env) && AllTimely(env, start, events)
    ensures Good(Play(env, start, events).s, env) && Orderly(Play(env, start, events))
  {
    LawfulAdvances(env);
    RegistryStaysGood(env, start, events);
    if events == [] {
      assert Orderly(World(State([], map[]), map[], start, FloorToMinute(start)));
    } else {
      var n := |events| - 1;
      forall i | 0 <= i < n ensures Timely(Play(env, start, events[..n][..i]), events[..n][i]) {
        assert events[..n][..i] == events[..i];
        assert Timely(Play(env, start, events[..i]), events[i]);
      }
      SlotsIncrease(env, start, events[..n]);
      assert Timely(Play(env, start, events[..n]), events[n]);
      NextStaysOrderly(Play(env, start, events[..n]), env, events[n]);
    }
  }

  // ---------------------------------------------------------------- who may run

  ghost predicate Holds(s: State, id: string, runId: string) {
    exists i :: 0 <= i < |RunsOf(s, id)| && RunsOf(s, id)[i].id == runId && RunsOf(s, id)[i].status == Running
  }

  /** A claim is granted exactly to an existing job whose running records are all stale and, if scheduled, to an enabled job and a new slot. */
  lemma ClaimGrantedExactlyWhen(s: State, env: Env, id: string, trigger: Trigger, at: Option<int>, from: Option<int>, now: int, drawn: seq<string>)
    requires Good(s, env) && 1 <= env.maxHistory
    ensures var r := Begin(s, env, id, trigger, at, from, now, drawn);
            var k := FindJob(s.jobs, id);
            var slot := FloorToMinute(if at.Some? then at.value else now);
            (r.Ok? && r.value.1.Some?) <==>
              && k < |s.jobs|
              && (forall i | 0 <= i < |RunsOf(s, id)| :: RunsOf(s, id)[i].status == Running ==> now - RunsOf(s, id)[i].startedAt >= env.staleRunMs)
              && (trigger.Scheduled? ==> s.jobs[k].enabled && s.jobs[k].lastScheduledAt != Some(slot))
              && UniqueId(RunIds(RunsOf(s, id)), drawn, ID_ATTEMPTS).Some?
  {
    var runs := RunsOf(s, id);
    var k := FindJob(s.jobs, id);
    if k < |s.jobs| {
      JobIdAt(s.jobs, k);
      BreakStaleIsTidy(runs, env, now);
      var broken := BreakStale(runs, env, now);
      forall i | 0 <= i < |runs| ensures broken[i].status == Running <==> runs[i].status == Running && now - runs[i].startedAt < env.staleRunMs {
      }
      assert AnyRunning(broken) <==> exists i :: 0 <= i < |runs| && runs[i].status == Running && now - runs[i].startedAt < env.staleRunMs;
    }
  }

  /** The calls that end a running claim: a finish, a removal, a restart, a later claim once it is stale, and a record that pushes it off the log. */
  ghost predicate EndsClaim(s: State, env: Env, e: Event, id: string, runId: string)
    requires Proper(e) && Step(s, env, e.op, e.now).Ok? && Holds(s, id, runId)
  {
    var runs := RunsOf(s, id);
    match e.op
    case FinishOp(j, r, _) => j == id && r == runId
    case RemoveOp(j) => j == id
    case ReloadOp => true
    case BeginOp(j, _, _, _, _) => j == id && exists i :: 0 <= i < |runs| && runs[i].id == runId && Stale(runs[i], env, e.now)
    case RecordOp(j, _, _) => j == id && exists i :: 0 <= i < |runs| && runs[i].id == runId && i + 1 >= env.maxHistory
    case _ => false
  }

  /** The calls on one job's log leave the claim exactly where its record is still there and still running. */
  lemma HoldsAt(runs: seq<Run>, i: nat, runId: string)
    requires Tidy(runs) && i < |runs| && runs[i].id == runId
    ensures (exists j :: 0 <= j < |runs| && runs[j].id == runId && runs[j].status == Running) <==> runs[i].status == Running
  {
  }

  lemma LoggedClaim(runs: seq<Run>, i: nat, run: Run, runId: string, limit: nat)
    requires Tidy(runs) && i < |runs| && runs[i].id == runId && runs[i].status == Running && run.id !in RunIds(runs) && 1 <= limit
    requires |runs| <= limit
    ensures var logged := Trim([run] + runs, limit);
            (exists j :: 0 <= j < |logged| && logged[j].id == runId && logged[j].status == Running) <==> i + 1 < limit
  {
    var all, logged := [run] + runs, Trim([run] + runs, limit);
    assert runs[i] in runs;
    if i + 1 < limit {
      assert logged[i + 1] == runs[i];
    }
    forall j | 0 <= j < |logged| && logged[j].id == runId ensures j == i + 1 {
      if 0 < j { assert all[j] == runs[j - 1]; }
    }
  }

  lemma RemovedRuns(s: State, j: string, id: string)
    requires s.runs.Keys == JobIds(s.jobs) && id in s.runs
    ensures RunsOf(Remove(s, j).0, id) == if j == id then [] else RunsOf(s, id)
  {
    if j == id {
      var k :| 0 <= k < |s.jobs| && s.jobs[k].id == id;
    }
  }

  lemma GrantNeedsNoClaim(s: State, env: Env, e: Event, i: nat)
    requires Good(s, env) && e.op.BeginOp? && Step(s, env, e.op, e.now).Ok?
    requires var runs := RunsOf(s, e.op.id); i < |runs| && runs[i].status == Running
    requires !Stale(RunsOf(s, e.op.id)[i], env, e.now)
    ensures RunsOf(After(s, env, e.op, e.now), e.op.id) == BreakStale(RunsOf(s, e.op.id), env, e.now)
  {
    BeginIs(s, env, e.op.id, e.op.trigger, e.op.scheduledAt, e.op.nextFrom, e.now, e.op.drawn);
    assert BreakStale(RunsOf(s, e.op.id), env, e.now)[i].status == Running;
  }

  lemma BrokenStaysBroken(runs: seq<Run>, i: nat, run: Run, limit: nat)
    requires Tidy(runs) && i < |runs| && runs[i].status != Running && run.id !in RunIds(runs)
    ensures forall j | 0 <= j < |Trim([run] + runs, limit)| && Trim([run] + runs, limit)[j].id == runs[i].id ::
              Trim([run] + runs, limit)[j].status != Running
  {
    var all := [run] + runs;
    assert runs[i] in runs;
    forall j | 0 <= j < |all| && all[j].id == runs[i].id ensures all[j].status != Running {
      if 0 < j { assert all[j] == runs[j - 1]; }
    }
  }

  lemma BeginEnds(s: State, env: Env, e: Event, i: nat, runId: string)
    requires Good(s, env) && 1 <= env.maxHistory && e.op.BeginOp? && Step(s, env, e.op, e.now).Ok?
    requires var runs := RunsOf(s, e.op.id); i < |runs| && runs[i].id == runId && runs[i].status == Running
    ensures Holds(After(s, env, e.op, e.now), e.op.id, runId) <==> !Stale(RunsOf(s, e.op.id)[i], env, e.now)
  {
    var id := e.op.id;
    var runs := RunsOf(s, id);
    var broken := BreakStale(runs, env, e.now);
    BreakStaleIsTidy(runs, env, e.now);
    HoldsAt(broken, i, runId);
    if Stale(runs[i], env, e.now) {
      BeginIs(s, env, id, e.op.trigger, e.op.scheduledAt, e.op.nextFrom, e.now, e.op.drawn);
      var claimed := Begin(s, env, id, e.op.trigger, e.op.scheduledAt, e.op.nextFrom, e.now, e.op.drawn).value.1;
      if claimed.Some? { BrokenStaysBroken(broken, i, claimed.value, env.maxHistory); }
    } else {
      GrantNeedsNoClaim(s, env, e, i);
    }
  }

  lemma RecordEnds(s: State, env: Env, e: Event, i: nat, runId: string)
    requires Good(s, env) && 1 <= env.maxHistory && Proper(e) && e.op.RecordOp? && Step(s, env, e.op, e.now).Ok?
    requires var runs := RunsOf(s, e.op.id); i < |runs| && runs[i].id == runId && runs[i].status == Running
    ensures Holds(After(s, env, e.op, e.now), e.op.id, runId) <==> i + 1 < env.maxHistory
  {
    var runs := RunsOf(s, e.op.id);
    var run := RecordRun(s, env, e.op.id, e.op.record, e.now, e.op.drawn).value.1;
    RecordIs(s, env, e.op.id, e.op.record, e.now, e.op.drawn);
    JobAt(s, env, FindJob(s.jobs, e.op.id));
    hide RecordRun, Good, Trim, RunIds, Tidy, JobOk;
    LoggedClaim(runs, i, run, runId, env.maxHistory);
    assert RunsOf(After(s, env, e.op, e.now), e.op.id) == Trim([run] + runs, env.maxHistory);
  }

  lemma FinishEnds(s: State, env: Env, e: Event, i: nat, runId: string)
    requires Good(s, env) && e.op.FinishOp? && Step(s, env, e.op, e.now).Ok?
    requires var runs := RunsOf(s, e.op.id); i < |runs| && runs[i].id == runId && runs[i].status == Running
    ensures Holds(After(s, env, e.op, e.now), e.op.id, runId) <==> e.op.runId != runId
  {
    var runs := RunsOf(s, e.op.id);
    JobIdAt(s.jobs, FindJob(s.jobs, e.op.id));
    var k := FindRun(runs, e.op.runId);
    FinishIsTidy(runs, k, Finish(s, e.op.id, e.op.runId, e.op.status, e.now).value.1);
    HoldsAt(RunsOf(After(s, env, e.op, e.now), e.op.id), i, runId);
  }

  lemma OthersKeep(s: State, env: Env, e: Event, id: string)
    requires Good(s, env) && Proper(e) && Step(s, env, e.op, e.now).Ok? && id in s.runs
    requires (e.op.BeginOp? || e.op.FinishOp? || e.op.RecordOp?) ==> e.op.id != id
    requires !e.op.RemoveOp? && !e.op.ReloadOp?
    ensures RunsOf(After(s, env, e.op, e.now), id) == RunsOf(s, id)
  {
    hide ReadExpression;
    if e.op.BeginOp? {
      OthersKeepBegin(s, env, e.op.id, e.op.trigger, e.op.scheduledAt, e.op.nextFrom, e.now, e.op.drawn, id);
    } else if e.op.RecordOp? {
      OthersKeepRecord(s, env, e.op.id, e.op.record, e.now, e.op.drawn, id);
    } else if e.op.CreateOp? {
      OthersKeepCreate(s, env, e.op.expression, e.op.enabled, e.now, e.op.drawn, id);
    }
  }

  lemma OthersKeepCreate(s: State, env: Env, x: string, on: Option<bool>, now: int, drawn: seq<string>, id: string)
    requires Good(s, env) && Create(s, env, x, on, now, drawn).Ok? && id in s.runs
    ensures RunsOf(Create(s, env, x, on, now, drawn).value.0, id) == RunsOf(s, id)
  {
  }

  lemma OthersKeepRecord(s: State, env: Env, j: string, record: Record, now: int, drawn: seq<string>, id: string)
    requires record.status != Running && RecordRun(s, env, j, record, now, drawn).Ok? && id != j
    ensures RunsOf(RecordRun(s, env, j, record, now, drawn).value.0, id) == RunsOf(s, id)
  {
  }

  lemma OthersKeepBegin(s: State, env: Env, j: string, trigger: Trigger, at: Option<int>, from: Option<int>, now: int, drawn: seq<string>, id: string)
    requires Good(s, env) && Begin(s, env, j, trigger, at, from, now, drawn).Ok? && id != j
    ensures RunsOf(Begin(s, env, j, trigger, at, from, now, drawn).value.0, id) == RunsOf(s, id)
  {
    BeginIs(s, env, j, trigger, at, from, now, drawn);
  }

  lemma NothingRunsAfterReload(s: State, env: Env, now: int, id: string, runId: string)
    requires Good(s, env)
    ensures !Holds(Reload(s.jobs, s.runs, env, now), id, runId)
  {
    ReloadIsGood(s.jobs, s.runs, env, now);
  }

  /** A running claim survives a call exactly when the call is not one of those. */
  lemma ClaimEndsExactlyWhen(s: State, env: Env, e: Event, id: string, runId: string)
    requires Good(s, env) && 1 <= env.maxHistory && Proper(e)
    requires Step(s, env, e.op, e.now).Ok? && Holds(s, id, runId)
    ensures Holds(After(s, env, e.op, e.now), id, runId) <==> !EndsClaim(s, env, e, id, runId)
  {
    hide ReadExpression, Create, Update, Begin, RecordRun, Finish;
    var runs := RunsOf(s, id);
    var i :| 0 <= i < |runs| && runs[i].id == runId && runs[i].status == Running;
    if e.op.RemoveOp? {
      RemovedRuns(s, e.op.id, id);
    } else if e.op.ReloadOp? {
      NothingRunsAfterReload(s, env, e.now, id, runId);
    } else if e.op.BeginOp? && e.op.id == id {
      BeginEnds(s, env, e, i, runId);
    } else if e.op.RecordOp? && e.op.id == id {
      RecordEnds(s, env, e, i, runId);
    } else if e.op.FinishOp? && e.op.id == id {
      FinishEnds(s, env, e, i, runId);
    } else {
      OthersKeep(s, env, e, id);
    }
  }

  /**
   * With a history limit of one, recording an external run pushes a running
   * claim off the log, and the next claim is granted while the first run is
   * still going.
   */
  lemma RecordingEvictsTheClaim(s: State, env: Env, id: string, runId: string, record: Record, now: int, drawn: seq<string>, again: seq<string>)
    requires Good(s, env) && env.maxHistory == 1 && Holds(s, id, runId)
    requires record.status != Running && RecordRun(s, env, id, record, now, drawn).Ok?
    requires again != [] && again[0] != RecordRun(s, env, id, record, now, drawn).value.1.id
    ensures var t := RecordRun(s, env, id, record, now, drawn).value.0;
            && !Holds(t, id, runId)
            && var r := Begin(t, env, id, Manual, None, None, now, again); r.Ok? && r.value.1.Some?
  {
    RecordIsGood(s, env, id, record, now, drawn);
    var (t, run) := RecordRun(s, env, id, record, now, drawn).value;
    assert RunsOf(t, id) == [run];
    ClaimGrantedExactlyWhen(t, env, id, Manual, None, None, now, again);
  }

  // ---------------------------------------------------------------- the shown status

  ghost predicate SomeRuns(runs: seq<Run>) {
    exists i :: 0 <= i < |runs| && runs[i].status == Running
  }

  /** What a job's log says about it: running while some record is, and otherwise what the newest record says. */
  ghost function LogStatus(runs: seq<Run>): Option<Status> {
    if SomeRuns(runs) then Some(Running) else if runs == [] then None else Some(runs[0].status)
  }

  /** A report is on time when it is for the running record, or when nothing runs any more. */
  ghost predicate OnTime(runs: seq<Run>, r: nat)
    requires r < |runs|
  {
    runs[r].status == Running || !SomeRuns(runs)
  }

  /**
   * A report is taken for any record that is still in the log, also one that was
   * closed long ago.  The job then shows what its log says exactly when the
   * report is on time and is about the newest record or agrees with it.
   */
  lemma ShownAgreesExactlyWhen(s: State, env: Env, id: string, runId: string, status: FinalStatus, now: int)
    requires Good(s, env) && Finish(s, id, runId, status, now).Ok?
    ensures var t, runs, r := Finish(s, id, runId, status, now).value.0, RunsOf(s, id), FindRun(RunsOf(s, id), runId);
            && r < |runs| && FindJob(s.jobs, id) < |t.jobs|
            && (t.jobs[FindJob(s.jobs, id)].lastRunStatus == LogStatus(RunsOf(t, id)) <==>
                  OnTime(runs, r) && (r == 0 || runs[0].status == status))
  {
    var t, runs, r := Finish(s, id, runId, status, now).value.0, RunsOf(s, id), FindRun(RunsOf(s, id), runId);
    var after := RunsOf(t, id);
    assert after == runs[r := after[r]] && after[r].status == status;
    OthersRun(runs, after, r);
    if !SomeRuns(after) {
      assert r == 0 || after[0] == runs[0];
    }
  }

  /** After a report some record runs exactly when it was not on time. */
  lemma OthersRun(runs: seq<Run>, after: seq<Run>, r: nat)
    requires Tidy(runs) && r < |runs| && |after| == |runs| && after == runs[r := after[r]] && after[r].status != Running
    ensures SomeRuns(after) <==> !OnTime(runs, r)
  {
    if SomeRuns(runs) {
      var i :| 0 <= i < |runs| && runs[i].status == Running;
      assert i != r ==> after[i].status == Running;
    }
    if SomeRuns(after) {
      var i :| 0 <= i < |after| && after[i].status == Running;
      assert runs[i].status == Running;
    }
  }

  /** For example, a run that was broken as abandoned reports while another run is going. */
  lemma LateReportOverwrites(s: State, env: Env, id: string, late: string, running: string, status: FinalStatus, now: int)
    requires Good(s, env) && Holds(s, id, running) && late != running
    requires Finish(s, id, late, status, now).Ok?
    ensures var t := Finish(s, id, late, status, now).value.0;
            Holds(t, id, running) && t.jobs[FindJob(s.jobs, id)].lastRunStatus == Some(status)
  {
    var runs := RunsOf(s, id);
    var i :| 0 <= i < |runs| && runs[i].id == running && runs[i].status == Running;
    var t := Finish(s, id, late, status, now).value.0;
    assert RunsOf(t, id)[i] == runs[i];
  }
}
