/**
 * Matching a five-field schedule and searching its next run.  The search jumps
 * over whole months, days and hours; it is proved to find the same minute as a
 * search that looks at every minute, and never to run past its horizon.
 */
module CronSearch {
  import opened Common
  import opened Calendar

  /** A parsed expression: the values of each field, and whether the two day fields were a bare "*". */
  datatype Schedule = Schedule(
    minutes: seq<int>,
    hours: seq<int>,
    daysOfMonth: seq<int>,
    months: seq<int>,
    daysOfWeek: seq<int>,
    anyDayOfMonth: bool,
    anyDayOfWeek: bool)

  const SEARCH_YEARS := 8

  predicate DayMatches(c: Schedule, t: Moment)
    requires 1 <= t.month <= 12
  {
    var byMonth := t.day in c.daysOfMonth;
    var byWeek := Weekday(t.year, t.month, t.day) in c.daysOfWeek;
    if c.anyDayOfMonth && c.anyDayOfWeek then true
    else if c.anyDayOfMonth then byWeek
    else if c.anyDayOfWeek then byMonth
    else byMonth || byWeek
  }

  /** The traditional rule: month always, and either day field when both are restricted. */
  predicate Matches(c: Schedule, t: Moment)
    requires 1 <= t.month <= 12
  {
    t.minute in c.minutes && t.hour in c.hours && t.month in c.months && DayMatches(c, t)
  }

  ghost predicate NothingBetween(c: Schedule, from: Moment, to: int)
    requires Valid(from)
  {
    forall x | Valid(x) && Stamp(from) < Stamp(x) < to :: !Matches(c, x)
  }

  /** Every moment of the skipped stretch misses the schedule, so the stretch may be skipped. */
  lemma Skip(c: Schedule, from: Moment, t: Moment, to: int)
    requires Valid(from) && Valid(t) && NothingBetween(c, from, Stamp(t))
    requires forall x | Valid(x) && Stamp(t) <= Stamp(x) < to :: !Matches(c, x)
    ensures NothingBetween(c, from, to)
  {
  }

  lemma SkipMonth(c: Schedule, t: Moment)
    requires Valid(t) && t.month !in c.months
    ensures forall x | Valid(x) && Stamp(t) <= Stamp(x) < Stamp(NextMonth(t)) :: !Matches(c, x)
    ensures Stamp(t) < Stamp(NextMonth(t))
  {
    NextMonthStamp(t);
    StampParts(t);
    forall x | Valid(x) && Stamp(t) <= Stamp(x) < Stamp(NextMonth(t)) ensures !Matches(c, x) {
      WithinMonth(t, x);
    }
  }

  lemma SkipDay(c: Schedule, t: Moment)
    requires Valid(t) && !DayMatches(c, t)
    ensures forall x | Valid(x) && Stamp(t) <= Stamp(x) < Stamp(NextDay(t)) :: !Matches(c, x)
    ensures Stamp(t) < Stamp(NextDay(t))
  {
    NextDayStamp(t);
    StampParts(t);
    forall x | Valid(x) && Stamp(t) <= Stamp(x) < Stamp(NextDay(t)) ensures !Matches(c, x) {
      WithinDay(t, x);
    }
  }

  lemma SkipHour(c: Schedule, t: Moment)
    requires Valid(t) && t.hour !in c.hours
    ensures forall x | Valid(x) && Stamp(t) <= Stamp(x) < Stamp(NextHour(t)) :: !Matches(c, x)
    ensures Stamp(t) < Stamp(NextHour(t))
  {
    NextHourStamp(t);
    forall x | Valid(x) && Stamp(t) <= Stamp(x) < Stamp(NextHour(t)) ensures !Matches(c, x) {
      WithinHour(t, x);
    }
  }

  lemma SkipMinute(c: Schedule, t: Moment)
    requires Valid(t) && t.minute !in c.minutes
    ensures forall x | Valid(x) && Stamp(t) <= Stamp(x) < Stamp(NextMinute(t)) :: !Matches(c, x)
    ensures Stamp(t) < Stamp(NextMinute(t))
  {
    NextMinuteStamp(t);
    forall x | Valid(x) && Stamp(t) <= Stamp(x) < Stamp(NextMinute(t)) ensures !Matches(c, x) {
      SameStamp(x, t);
    }
  }

  /** What the naive minute-by-minute search would return within the horizon. */
  ghost predicate FirstMatch(c: Schedule, from: Moment, r: Moment)
    requires Valid(from)
  {
    Valid(r) && Matches(c, r) && Stamp(from) < Stamp(r) && NothingBetween(c, from, Stamp(r))
  }

  /**
   * The first matching minute strictly after `from`, where `from` is the minute
   * the start time falls in.  The search gives up only when no moment up to the
   * end of the eighth following year matches, which cannot happen for a
   * schedule that the parser accepts.
   */
  method NextCronRun(c: Schedule, from: Moment) returns (r: Option<Moment>)
    requires Valid(from)
    ensures r.Some? ==> FirstMatch(c, from, r.value) && r.value.year <= from.year + SEARCH_YEARS
    ensures r.None? ==> forall x | Valid(x) && Stamp(from) < Stamp(x) && x.year <= from.year + SEARCH_YEARS :: !Matches(c, x)
    ensures Acceptable(c) ==> r.Some?
  {
    var candidate := NextMinute(from);
    NextMinuteStamp(from);
    var lastYear := from.year + SEARCH_YEARS;
    ghost var end := Moment(lastYear + 1, 1, 1, 0, 0);
    while candidate.year <= lastYear
      invariant Valid(candidate) && Stamp(from) < Stamp(candidate)
      invariant NothingBetween(c, from, Stamp(candidate))
      decreases Stamp(end) - Stamp(candidate)
    {
      LaterYear(candidate, end);
      if candidate.month !in c.months {
        SkipMonth(c, candidate);
        NextMonthStamp(candidate);
        Skip(c, from, candidate, Stamp(NextMonth(candidate)));
        candidate := NextMonth(candidate);
        continue;
      }
      if !DayMatches(c, candidate) {
        SkipDay(c, candidate);
        NextDayStamp(candidate);
        Skip(c, from, candidate, Stamp(NextDay(candidate)));
        candidate := NextDay(candidate);
        continue;
      }
      if candidate.hour !in c.hours {
        SkipHour(c, candidate);
        NextHourStamp(candidate);
        Skip(c, from, candidate, Stamp(NextHour(candidate)));
        candidate := NextHour(candidate);
        continue;
      }
      if candidate.minute !in c.minutes {
        SkipMinute(c, candidate);
        NextMinuteStamp(candidate);
        Skip(c, from, candidate, Stamp(NextMinute(candidate)));
        candidate := NextMinute(candidate);
        continue;
      }
      return Some(candidate);
    }
    forall x | Valid(x) && Stamp(from) < Stamp(x) && x.year <= lastYear ensures !Matches(c, x) {
      LaterYear(x, candidate);
    }
    if Acceptable(c) {
      var x := MatchWithinHorizon(c, from);
    }
    return None;
  }

  /** The first minute after a start time given in milliseconds: strictly later also in milliseconds. */
  lemma StrictlyLaterInMilliseconds(from: Moment, ms: int, r: Moment)
    requires Valid(from) && Valid(r) && 0 <= ms < 60_000
    ensures Stamp(from) < Stamp(r) <==> Stamp(from) * 60_000 + ms < Stamp(r) * 60_000
  {
  }

  // ---------------------------------------------------------------- the horizon

  function LongestMonth(m: int): int {
    if m == 2 then 29 else if m == 4 || m == 6 || m == 9 || m == 11 then 30 else 31
  }

  /** Some listed day exists in some listed month of some year. */
  predicate CalendarPossible(c: Schedule) {
    exists i, j :: 0 <= i < |c.months| && 0 <= j < |c.daysOfMonth| && c.daysOfMonth[j] <= LongestMonth(c.months[i])
  }

  /** What the parser guarantees of the schedules it accepts. */
  predicate Acceptable(c: Schedule) {
    && c.minutes != [] && c.hours != [] && c.daysOfMonth != [] && c.months != [] && c.daysOfWeek != []
    && (forall v :: v in c.minutes ==> 0 <= v <= 59)
    && (forall v :: v in c.hours ==> 0 <= v <= 23)
    && (forall v :: v in c.daysOfMonth ==> 1 <= v <= 31)
    && (forall v :: v in c.months ==> 1 <= v <= 12)
    && (forall v :: v in c.daysOfWeek ==> 0 <= v <= 6)
    && (c.anyDayOfWeek && !c.anyDayOfMonth ==> CalendarPossible(c))
  }

  lemma AtTime(c: Schedule, from: Moment, y: int, m: int, d: int) returns (x: Moment)
    requires Valid(from) && Acceptable(c) && y > from.year
    requires m in c.months && 1 <= d <= DaysIn(y, m)
    requires DayMatches(c, Moment(y, m, d, 0, 0))
    ensures Valid(x) && x.year == y && Matches(c, x) && Stamp(from) < Stamp(x)
  {
    assert c.hours[0] in c.hours && c.minutes[0] in c.minutes;
    x := Moment(y, m, d, c.hours[0], c.minutes[0]);
    LaterYear(from, x);
  }

  /** Every accepted schedule has a match after any start, no later than eight years on. */
  lemma MatchWithinHorizon(c: Schedule, from: Moment) returns (x: Moment)
    requires Valid(from) && Acceptable(c)
    ensures Valid(x) && x.year <= from.year + SEARCH_YEARS && Stamp(from) < Stamp(x) && Matches(c, x)
  {
    assert c.months[0] in c.months && c.daysOfWeek[0] in c.daysOfWeek;
    if c.anyDayOfWeek && c.anyDayOfMonth {
      x := AtTime(c, from, from.year + 1, c.months[0], 1);
    } else if !c.anyDayOfWeek {
      var d := WeekdayWithinWeek(from.year + 1, c.months[0], c.daysOfWeek[0]);
      x := AtTime(c, from, from.year + 1, c.months[0], d);
    } else {
      var i, j :| 0 <= i < |c.months| && 0 <= j < |c.daysOfMonth| && c.daysOfMonth[j] <= LongestMonth(c.months[i]);
      var m, d := c.months[i], c.daysOfMonth[j];
      assert m in c.months && d in c.daysOfMonth;
      var y := LeapWithinEight(from.year);
      x := AtTime(c, from, y, m, d);
    }
  }

  /** The leap-day schedule at midnight. */
  const LEAP_DAY := Schedule([0], [0], [29], [2], [0, 1, 2, 3, 4, 5, 6], false, true)

  lemma LeapDayOnly(x: Moment)
    requires Valid(x) && Matches(LEAP_DAY, x)
    ensures x == Moment(x.year, 2, 29, 0, 0) && (x.year <= 1896 || 1904 <= x.year)
  {
  }

  /** Eight years are also needed: from 29 February 1896 nothing matches before 1904. */
  lemma HorizonIsTight()
    ensures Acceptable(LEAP_DAY)
    ensures var from := Moment(1896, 2, 29, 0, 0);
            && Valid(from)
            && FirstMatch(LEAP_DAY, from, Moment(1904, 2, 29, 0, 0))
            && forall x | Valid(x) && Stamp(from) < Stamp(x) && x.year < 1896 + SEARCH_YEARS :: !Matches(LEAP_DAY, x)
  {
    assert LEAP_DAY.months[0] == 2 && LEAP_DAY.daysOfMonth[0] == 29;
    var from, to := Moment(1896, 2, 29, 0, 0), Moment(1904, 2, 29, 0, 0);
    LaterYear(from, to);
    forall x | Valid(x) && Matches(LEAP_DAY, x) && Stamp(from) < Stamp(x) ensures 1904 <= x.year && Stamp(to) <= Stamp(x) {
      LeapDayOnly(x);
      if x.year < 1896 {
        LaterYear(x, from);
      } else if 1904 < x.year {
        LaterYear(to, x);
      }
    }
  }
}
