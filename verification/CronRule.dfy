/**
 * What an expression means, from its text to the days of the calendar: which
 * texts are accepted, and which minutes an accepted one names.
 */
module CronRule {
  import opened Common
  import opened Text
  import opened Calendar
  import opened CronSearch
  import opened CronParse

  // ---------------------------------------------------------------- the calendar

  /** Outside February the months alternate between 31 and 30 days, with July and August both long. */
  lemma MonthLengths(y: int, m: int)
    requires 1 <= m <= 12
    ensures m != 2 ==> DaysIn(y, m) == 30 + (m + m / 8) % 2
    ensures m == 2 ==> DaysIn(y, m) == 28 + if (y % 4 == 0 && y % 100 != 0) || y % 400 == 0 then 1 else 0
  {
  }

  /** Weekdays go round by seven from day to day, and the first of January 1970 was a Thursday. */
  lemma WeekdaysGoRound(t: Moment)
    requires Valid(t)
    ensures Valid(NextDay(t))
    ensures Weekday(NextDay(t).year, NextDay(t).month, NextDay(t).day) == (Weekday(t.year, t.month, t.day) + 1) % 7
    ensures Weekday(1970, 1, 1) == 4
  {
    NextDayNumber(t);
    Epoch();
    SevenGoesRound(DayNumber(t.year, t.month, t.day) + 1);
    hide DayNumber, NextDay;
  }

  lemma SevenGoesRound(x: int)
    ensures (x + 1) % 7 == (x % 7 + 1) % 7
  {
  }

  lemma NextDayNumber(t: Moment)
    requires Valid(t)
    ensures Valid(NextDay(t))
    ensures var n := NextDay(t); DayNumber(n.year, n.month, n.day) == DayNumber(t.year, t.month, t.day) + 1
  {
    NextDayStamp(t);
    var n := NextDay(t);
    assert n.hour == 0 && n.minute == 0;
    hide DayNumber, NextDay, DaysIn;
  }

  lemma Epoch()
    ensures Weekday(1970, 1, 1) == 4
  {
    assert MonthStart(1970, 1) == 0;
  }

  // ---------------------------------------------------------------- fields

  /** The word, read as the field at `k`, names the value. */
  ghost predicate Names(word: string, k: nat, v: int)
    requires k < 5
  {
    exists parts :: Written(word, parts, CRON_FIELDS[k]) && Named(parts, CRON_FIELDS[k], v)
  }

  ghost predicate Grammatical(word: string, k: nat)
    requires k < 5
  {
    exists parts :: Written(word, parts, CRON_FIELDS[k])
  }

  lemma FieldNames(word: string, k: nat, v: int)
    requires k < 5 && ReadField(word, CRON_FIELDS[k]).Ok?
    ensures v in ReadField(word, CRON_FIELDS[k]).value.values <==> Names(word, k, v)
    ensures ReadField(word, CRON_FIELDS[k]).value.wildcard <==> word == "*"
  {
    var parts := ReadFieldWasWritten(word, CRON_FIELDS[k]);
    WrittenFieldIsRead(word, parts, CRON_FIELDS[k]);
    hide Written, Named, ReadParts, Listing;
    if Names(word, k, v) {
      var others :| Written(word, others, CRON_FIELDS[k]) && Named(others, CRON_FIELDS[k], v);
      WrittenFieldIsRead(word, others, CRON_FIELDS[k]);
    }
  }

  lemma ReadFieldsExactlyWhen(raw: seq<string>, n: nat)
    requires n <= 5 && |raw| == 5
    ensures ReadFields(raw, n).Ok? <==> forall k :: 0 <= k < n ==> ReadField(raw[k], CRON_FIELDS[k]).Ok?
  {
    if n > 0 { ReadFieldsExactlyWhen(raw, n - 1); }
    hide ReadField;
  }

  // ---------------------------------------------------------------- whole expressions

  /** The words name some day that some year has. */
  ghost predicate SomeDayExists(raw: seq<string>)
    requires |raw| == 5
  {
    exists y, m, d :: 1 <= m <= 12 && Names(raw[3], 3, m) && Names(raw[2], 2, d) && d <= DaysIn(y, m)
  }

  /**
   * The expression names the minute: minute, hour and month as listed; and the
   * day by either day field, where a field that is a bare star does not count
   * unless both are.
   */
  ghost predicate NamesMoment(raw: seq<string>, t: Moment)
    requires |raw| == 5 && 1 <= t.month <= 12
  {
    && Names(raw[0], 0, t.minute) && Names(raw[1], 1, t.hour) && Names(raw[3], 3, t.month)
    && (|| (raw[2] == "*" && raw[4] == "*")
        || (raw[2] != "*" && Names(raw[2], 2, t.day))
        || (raw[4] != "*" && Names(raw[4], 4, Weekday(t.year, t.month, t.day))))
  }

  lemma FieldsOf(source: string, k: nat)
    requires ReadExpression(source).Ok? && k < 5
    ensures |Words(source)| == 5 && ReadField(Words(source)[k], CRON_FIELDS[k]).Ok?
    ensures var (c, f) := (ReadExpression(source).value.schedule, ReadField(Words(source)[k], CRON_FIELDS[k]).value);
            && (k == 0 ==> c.minutes == f.values) && (k == 1 ==> c.hours == f.values)
            && (k == 2 ==> c.daysOfMonth == f.values && c.anyDayOfMonth == f.wildcard) && (k == 3 ==> c.months == f.values)
            && (k == 4 ==> c.daysOfWeek == f.values && c.anyDayOfWeek == f.wildcard)
  {
    ReadFieldsEach(Words(source), 5);
    hide ReadField, Words;
  }

  /** An accepted expression is matched by exactly the minutes its text names. */
  lemma MatchesWhatIsWritten(source: string, t: Moment)
    requires ReadExpression(source).Ok? && Valid(t)
    ensures |Words(source)| == 5
    ensures Matches(ReadExpression(source).value.schedule, t) <==> NamesMoment(Words(source), t)
  {
    var raw := Words(source);
    forall k: nat | k < 5 ensures |raw| == 5 && ReadField(raw[k], CRON_FIELDS[k]).Ok? {
      FieldsOf(source, k);
    }
    FieldsOf(source, 0);
    FieldsOf(source, 1);
    FieldsOf(source, 2);
    FieldsOf(source, 3);
    FieldsOf(source, 4);
    FieldNames(raw[0], 0, t.minute);
    FieldNames(raw[1], 1, t.hour);
    FieldNames(raw[2], 2, t.day);
    FieldNames(raw[3], 3, t.month);
    FieldNames(raw[4], 4, Weekday(t.year, t.month, t.day));
    hide ReadExpression, ReadField, Names, Words, Weekday;
  }

  lemma PossibleMeans(c: Schedule, raw: seq<string>)
    requires |raw| == 5 && ReadField(raw[2], CRON_FIELDS[2]).Ok? && ReadField(raw[3], CRON_FIELDS[3]).Ok?
    requires c.daysOfMonth == ReadField(raw[2], CRON_FIELDS[2]).value.values && c.months == ReadField(raw[3], CRON_FIELDS[3]).value.values
    ensures CalendarPossible(c) <==> SomeDayExists(raw)
  {
    forall v ensures (v in c.daysOfMonth <==> Names(raw[2], 2, v)) && (v in c.months <==> Names(raw[3], 3, v)) {
      FieldNames(raw[2], 2, v);
      FieldNames(raw[3], 3, v);
    }
    MonthsAreMonths(raw[3]);
    hide ReadField, Names, CalendarPossible, SomeDayExists;
    PossibleAmong(c, raw);
  }

  lemma PossibleAmong(c: Schedule, raw: seq<string>)
    requires |raw| == 5
    requires forall v :: (v in c.daysOfMonth <==> Names(raw[2], 2, v)) && (v in c.months <==> Names(raw[3], 3, v))
    requires forall v :: v in c.months ==> 1 <= v <= 12
    ensures CalendarPossible(c) <==> SomeDayExists(raw)
  {
    hide Names;
    if CalendarPossible(c) {
      var i, j :| 0 <= i < |c.months| && 0 <= j < |c.daysOfMonth| && c.daysOfMonth[j] <= LongestMonth(c.months[i]);
      var m, d := c.months[i], c.daysOfMonth[j];
      assert m in c.months && d in c.daysOfMonth;
      assert Names(raw[3], 3, m) && Names(raw[2], 2, d);
      LongestIsReached(m);
      assert d <= DaysIn(2000, m);
      assert SomeDayExists(raw);
    }
    if SomeDayExists(raw) {
      var y, m, d :| 1 <= m <= 12 && Names(raw[3], 3, m) && Names(raw[2], 2, d) && d <= DaysIn(y, m);
      assert m in c.months && d in c.daysOfMonth;
      var i :| 0 <= i < |c.months| && c.months[i] == m;
      var j :| 0 <= j < |c.daysOfMonth| && c.daysOfMonth[j] == d;
      LongestIsLongest(y, m);
      assert c.daysOfMonth[j] <= LongestMonth(c.months[i]);
    }
  }

  lemma LongestIsReached(m: int)
    requires 1 <= m <= 12
    ensures DaysIn(2000, m) == LongestMonth(m)
  {
  }

  lemma LongestIsLongest(y: int, m: int)
    requires 1 <= m <= 12
    ensures DaysIn(y, m) <= LongestMonth(m)
  {
  }

  lemma MonthsAreMonths(word: string)
    requires ReadField(word, CRON_FIELDS[3]).Ok?
    ensures forall v :: v in ReadField(word, CRON_FIELDS[3]).value.values ==> 1 <= v <= 12
  {
    FieldIsSound(word, CRON_FIELDS[3]);
  }

  /**
   * An expression is accepted exactly when it is five words, each of its
   * field's grammar, and, where only the day of the month restricts the day,
   * some day it names exists.
   */
  lemma AcceptedExactlyWhen(source: string)
    ensures ReadExpression(source).Ok? <==>
              var raw := Words(source);
              && |raw| == 5 && (forall k: nat :: k < 5 ==> Grammatical(raw[k], k))
              && (raw[4] == "*" && raw[2] != "*" ==> SomeDayExists(raw))
  {
    var raw := Words(source);
    if |raw| == 5 {
      forall k: nat | k < 5 ensures ReadField(raw[k], CRON_FIELDS[k]).Ok? <==> Grammatical(raw[k], k) {
        FieldGrammar(raw[k], CRON_FIELDS[k]);
      }
      ReadFieldsExactlyWhen(raw, 5);
      if ReadFields(raw, 5).Ok? {
        ReadFieldsEach(raw, 5);
        var c := ScheduleOf(ReadFields(raw, 5).value);
        FieldNames(raw[2], 2, 0);
        FieldNames(raw[4], 4, 0);
        PossibleMeans(c, raw);
      }
      hide ReadField, ReadFields, Names, Words, Grammatical, SomeDayExists, CalendarPossible;
    }
  }
}
