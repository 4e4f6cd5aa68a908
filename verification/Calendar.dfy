/**
 * The proleptic Gregorian calendar with minute resolution and no time-zone
 * changes.  Every moment has a minute number; the number orders moments and
 * determines their year, month, day, hour and minute.
 */
module Calendar {

  datatype Moment = Moment(year: int, month: int, day: int, hour: int, minute: int)

  predicate Leap(y: int) {
    y % 4 == 0 && (y % 100 != 0 || y % 400 == 0)
  }

  function DaysIn(y: int, m: int): int
    requires 1 <= m <= 12
  {
    if m == 2 then (if Leap(y) then 29 else 28)
    else if m == 4 || m == 6 || m == 9 || m == 11 then 30
    else 31
  }

  predicate Valid(t: Moment) {
    && 1 <= t.month <= 12
    && 1 <= t.day <= DaysIn(t.year, t.month)
    && 0 <= t.hour <= 23
    && 0 <= t.minute <= 59
  }

  // ---------------------------------------------------------------- day numbers

  /** Days before the first of January of a year. */
  function YearStart(y: int): int {
    365 * (y - 1) + (y - 1) / 4 - (y - 1) / 100 + (y - 1) / 400
  }

  function MonthStart(y: int, m: int): int
    requires 1 <= m <= 12
    decreases m
  {
    if m == 1 then 0 else MonthStart(y, m - 1) + DaysIn(y, m - 1)
  }

  function DayNumber(y: int, m: int, d: int): int
    requires 1 <= m <= 12
  {
    YearStart(y) + MonthStart(y, m) + d - 1
  }

  /** Sunday is 0; the first of January of year 1 was a Monday. */
  function Weekday(y: int, m: int, d: int): int
    requires 1 <= m <= 12
  {
    (DayNumber(y, m, d) + 1) % 7
  }

  function Stamp(t: Moment): int
    requires 1 <= t.month <= 12
  {
    (DayNumber(t.year, t.month, t.day) * 24 + t.hour) * 60 + t.minute
  }

  lemma QuotientBy4(y: int)
    ensures y / 4 == (y - 1) / 4 + if y % 4 == 0 then 1 else 0
  {
  }

  lemma QuotientBy100(y: int)
    ensures y / 100 == (y - 1) / 100 + if y % 100 == 0 then 1 else 0
  {
  }

  lemma QuotientBy400(y: int)
    ensures y / 400 == (y - 1) / 400 + if y % 400 == 0 then 1 else 0
  {
  }

  lemma CenturiesAreFourfold(y: int)
    ensures (y % 100 == 0 ==> y % 4 == 0) && (y % 400 == 0 ==> y % 100 == 0)
  {
  }

  lemma YearLength(y: int)
    ensures YearStart(y + 1) == YearStart(y) + if Leap(y) then 366 else 365
  {
    QuotientBy4(y);
    QuotientBy100(y);
    QuotientBy400(y);
    CenturiesAreFourfold(y);
  }

  lemma TwelveMonths(y: int)
    ensures MonthStart(y, 12) + DaysIn(y, 12) == if Leap(y) then 366 else 365
  {
    assert MonthStart(y, 2) == 31;
    assert MonthStart(y, 3) == 31 + DaysIn(y, 2);
    assert MonthStart(y, 5) == MonthStart(y, 3) + 61;
    assert MonthStart(y, 7) == MonthStart(y, 5) + 61;
    assert MonthStart(y, 9) == MonthStart(y, 7) + 62;
    assert MonthStart(y, 11) == MonthStart(y, 9) + 61;
    assert MonthStart(y, 12) == MonthStart(y, 11) + 30;
  }

  // ---------------------------------------------------------------- months in a row

  /** Months counted through, twelve a year. */
  function MonthIndex(y: int, m: int): int {
    12 * y + m - 1
  }

  function FirstDay(index: int): int {
    DayNumber(index / 12, index % 12 + 1, 1)
  }

  function MonthLength(index: int): int {
    DaysIn(index / 12, index % 12 + 1)
  }

  lemma MonthIndexInverse(y: int, m: int)
    requires 1 <= m <= 12
    ensures MonthIndex(y, m) / 12 == y && MonthIndex(y, m) % 12 + 1 == m
  {
  }

  lemma NextFirstDay(index: int)
    ensures FirstDay(index + 1) == FirstDay(index) + MonthLength(index)
  {
    var y, m := index / 12, index % 12 + 1;
    if m < 12 {
      assert (index + 1) / 12 == y && (index + 1) % 12 + 1 == m + 1;
    } else {
      assert (index + 1) / 12 == y + 1 && (index + 1) % 12 + 1 == 1;
      YearLength(y);
      TwelveMonths(y);
    }
  }

  lemma {:induction false} LaterMonth(a: int, b: int)
    requires a < b
    ensures FirstDay(a) + MonthLength(a) <= FirstDay(b)
    decreases b - a
  {
    NextFirstDay(a);
    if a + 1 < b { LaterMonth(a + 1, b); }
  }

  /** A day number inside a month belongs to that month. */
  lemma MonthOfDay(t: Moment, index: int)
    requires Valid(t)
    requires FirstDay(index) <= DayNumber(t.year, t.month, t.day) < FirstDay(index) + MonthLength(index)
    ensures t.year == index / 12 && t.month == index % 12 + 1
  {
    var own := MonthIndex(t.year, t.month);
    MonthIndexInverse(t.year, t.month);
    if own < index { LaterMonth(own, index); }
    if own > index { LaterMonth(index, own); }
  }

  // ---------------------------------------------------------------- the minute number determines the moment

  lemma StampParts(t: Moment)
    requires Valid(t)
    ensures Stamp(t) / 1440 == DayNumber(t.year, t.month, t.day)
    ensures Stamp(t) % 1440 == t.hour * 60 + t.minute
  {
  }

  lemma SameStamp(a: Moment, b: Moment)
    requires Valid(a) && Valid(b) && Stamp(a) == Stamp(b)
    ensures a == b
  {
    StampParts(a);
    StampParts(b);
    MonthIndexInverse(b.year, b.month);
    MonthOfDay(a, MonthIndex(b.year, b.month));
  }

  /** Later years have larger minute numbers. */
  lemma LaterYear(a: Moment, b: Moment)
    requires Valid(a) && Valid(b) && a.year < b.year
    ensures Stamp(a) < Stamp(b)
  {
    StampParts(a);
    StampParts(b);
    MonthIndexInverse(a.year, a.month);
    MonthIndexInverse(b.year, b.month);
    LaterMonth(MonthIndex(a.year, a.month), MonthIndex(b.year, b.month));
  }

  // ---------------------------------------------------------------- the four ways a search moves on

  function NextMinute(t: Moment): Moment
    requires Valid(t)
  {
    if t.minute < 59 then t.(minute := t.minute + 1) else NextHour(t)
  }

  function NextHour(t: Moment): Moment
    requires Valid(t)
  {
    if t.hour < 23 then t.(hour := t.hour + 1, minute := 0) else NextDay(t)
  }

  function NextDay(t: Moment): Moment
    requires Valid(t)
  {
    if t.day < DaysIn(t.year, t.month) then Moment(t.year, t.month, t.day + 1, 0, 0) else NextMonth(t)
  }

  function NextMonth(t: Moment): Moment
    requires Valid(t)
  {
    if t.month < 12 then Moment(t.year, t.month + 1, 1, 0, 0) else Moment(t.year + 1, 1, 1, 0, 0)
  }

  lemma NextMonthStamp(t: Moment)
    requires Valid(t)
    ensures Valid(NextMonth(t))
    ensures Stamp(NextMonth(t)) == (DayNumber(t.year, t.month, DaysIn(t.year, t.month)) + 1) * 1440
  {
    var index := MonthIndex(t.year, t.month);
    MonthIndexInverse(t.year, t.month);
    NextFirstDay(index);
    var n := NextMonth(t);
    MonthIndexInverse(n.year, n.month);
    assert MonthIndex(n.year, n.month) == index + 1;
  }

  lemma NextDayStamp(t: Moment)
    requires Valid(t)
    ensures Valid(NextDay(t))
    ensures Stamp(NextDay(t)) == (DayNumber(t.year, t.month, t.day) + 1) * 1440
  {
    if t.day == DaysIn(t.year, t.month) { NextMonthStamp(t); }
  }

  lemma NextHourStamp(t: Moment)
    requires Valid(t)
    ensures Valid(NextHour(t)) && Stamp(NextHour(t)) == Stamp(t) - t.minute + 60
  {
    if t.hour == 23 { NextDayStamp(t); }
  }

  lemma NextMinuteStamp(t: Moment)
    requires Valid(t)
    ensures Valid(NextMinute(t)) && Stamp(NextMinute(t)) == Stamp(t) + 1
  {
    if t.minute == 59 { NextHourStamp(t); }
  }

  /** A jump to the next month passes only moments of the present month. */
  lemma WithinMonth(t: Moment, x: Moment)
    requires Valid(t) && Valid(x) && Stamp(t) <= Stamp(x) < Stamp(NextMonth(t))
    ensures x.year == t.year && x.month == t.month
  {
    NextMonthStamp(t);
    StampParts(t);
    StampParts(x);
    MonthIndexInverse(t.year, t.month);
    MonthOfDay(x, MonthIndex(t.year, t.month));
  }

  /** A jump to the next day passes only moments of the present day. */
  lemma WithinDay(t: Moment, x: Moment)
    requires Valid(t) && Valid(x) && Stamp(t) <= Stamp(x) < Stamp(NextDay(t))
    ensures x.year == t.year && x.month == t.month && x.day == t.day
  {
    NextDayStamp(t);
    NextMonthStamp(t);
    StampParts(t);
    StampParts(x);
    assert DayNumber(x.year, x.month, x.day) == DayNumber(t.year, t.month, t.day);
    WithinMonth(t, x);
  }

  /** A jump to the next hour passes only moments of the present hour. */
  lemma WithinHour(t: Moment, x: Moment)
    requires Valid(t) && Valid(x) && Stamp(t) <= Stamp(x) < Stamp(NextHour(t))
    ensures x.year == t.year && x.month == t.month && x.day == t.day && x.hour == t.hour
  {
    NextHourStamp(t);
    NextDayStamp(t);
    StampParts(t);
    StampParts(x);
    WithinDay(t, x);
  }

  lemma WithinSeven(k: int, w: int) returns (d: int)
    requires 0 <= w <= 6
    ensures 1 <= d <= 7 && (k + d) % 7 == w
  {
    d := 1 + (w - (k + 1)) % 7;
  }

  /** Seven days in a row meet every weekday. */
  lemma WeekdayWithinWeek(y: int, m: int, w: int) returns (d: int)
    requires 1 <= m <= 12 && 0 <= w <= 6
    ensures 1 <= d <= 7 && Weekday(y, m, d) == w
  {
    d := WithinSeven(YearStart(y) + MonthStart(y, m), w);
  }

  /** Eight years in a row contain a leap year, even across a century that is not one. */
  lemma LeapWithinEight(y: int) returns (l: int)
    ensures y < l <= y + 8 && Leap(l)
  {
    var k := y + 4 - y % 4;
    l := if Leap(k) then k else k + 4;
  }

  // ---------------------------------------------------------------- every minute number is a moment

  lemma FarBack(n: int)
    requires n <= 0
    ensures Stamp(Moment(n + 1, 1, 1, 0, 0)) <= n
  {
    assert n / 4 <= n / 100;
    assert n / 400 <= 0;
  }

  lemma {:induction false} MomentAfter(t: Moment, minutes: nat) returns (r: Moment)
    requires Valid(t)
    ensures Valid(r) && Stamp(r) == Stamp(t) + minutes
    decreases minutes
  {
    if minutes == 0 {
      r := t;
    } else {
      NextMinuteStamp(t);
      r := MomentAfter(NextMinute(t), minutes - 1);
    }
  }

  lemma MomentAt(n: int) returns (r: Moment)
    ensures Valid(r) && Stamp(r) == n
  {
    var k := if n < 0 then n else 0;
    FarBack(k);
    var t := Moment(k + 1, 1, 1, 0, 0);
    r := MomentAfter(t, n - Stamp(t));
  }
}
