/**
 The next run time of a cron expression in UTC (packages/shared/src/scheduling/cron-evaluator.ts):
 a field-by-field search over calendar fields, against a scan of one minute after the other.
 */
module CronEvaluator {
  import opened Types
  import opened Sequences
  import opened Calendar
  import opened CronExpressions
  import opened MinuteScan

  /** All five fields at once: day-of-month and day-of-week are both required. */
  predicate Matches(f: CronFields, c: Civil)
    requires 1 <= c.month <= 12
  {
    && c.month in f.months && c.day in f.daysOfMonth && DayOfWeek(c.year, c.month, c.day) in f.daysOfWeek
    && c.hour in f.hours && c.minute in f.minutes
  }

  /** Matching told from the minute itself: its minute, hour, day, month, and the day of the week counted from Thursday. */
  lemma MatchesTold(f: CronFields, n: nat)
    ensures var c := FromMinutes(n);
            && ToMinutes(c) == n && 0 <= c.minute < 60 && 0 <= c.hour < 24
            && (MatchesAt(f)(n) <==>
                  && n % 60 in f.minutes && n / 60 % 24 in f.hours && c.day in f.daysOfMonth && c.month in f.months
                  && (n / 1440 + 4) % 7 in f.daysOfWeek)
  {
    var c := FromMinutes(n);
    var d := DayNumber(c.year, c.month, c.day);
    assert n == 1440 * d + 60 * c.hour + c.minute;
    TimeOfDay(n, d, c.hour, c.minute);
  }

  lemma TimeOfDay(n: int, day: int, hour: int, minute: int)
    requires n == 1440 * day + 60 * hour + minute && 0 <= hour < 24 && 0 <= minute < 60
    ensures n / 1440 == day && n / 60 % 24 == hour && n % 60 == minute
  {
    assert n / 60 == 24 * day + hour;
  }

  // ----- The specification: try every minute -----

  function MatchesAt(f: CronFields): nat -> bool {
    (n: nat) => Matches(f, FromMinutes(n))
  }

  /** The first minute after the fourth year that follows the year of minute n. */
  function Horizon(n: nat): int {
    ToMinutes(Civil(FromMinutes(n).year + 5, 1, 1, 0, 0))
  }

  function NextRun(f: CronFields, reference: nat): Result<nat, CronError> {
    match NextTime(MatchesAt(f), Horizon, reference)
    case Some(t) => Ok(t)
    case None => Err(NoRunTime)
  }

  lemma HorizonIsYears(n: nat, m: nat)
    ensures m < Horizon(n) <==> FromMinutes(m).year <= FromMinutes(n).year + 4
  {
    var limit := Civil(FromMinutes(n).year + 5, 1, 1, 0, 0);
    CivilRoundTrip(limit);
    MinutesAreCivil(m, ToMinutes(limit));
  }

  // ----- The search -----

  /** No valid time from a up to, but excluding, b matches. */
  ghost predicate NoMatch(f: CronFields, a: Civil, b: Civil) {
    forall c: Civil :: c.Valid() && !Before(c, a) && Before(c, b) ==> !Matches(f, c)
  }

  /** A cursor of the search; the hour may be 24, after the last hour of a day. */
  predicate IsCursor(c: Civil) {
    && c.year >= 1970 && 1 <= c.month <= 12 && 1 <= c.day <= DaysInMonth(c.year, c.month)
    && 0 <= c.hour <= 24 && 0 <= c.minute < 60 && (c.hour == 24 ==> c.minute == 0)
  }

  /** The search has come from `start` to c without passing a match. */
  ghost predicate Reaches(f: CronFields, start: Civil, c: Civil) {
    IsCursor(c) && !Before(c, start) && NoMatch(f, start, c)
  }

  function NextMonth(c: Civil): Civil {
    if c.month == 12 then Civil(c.year + 1, 1, 1, 0, 0) else Civil(c.year, c.month + 1, 1, 0, 0)
  }

  function NextDay(c: Civil): Civil
    requires 1 <= c.month <= 12
  {
    if c.day < DaysInMonth(c.year, c.month) then Civil(c.year, c.month, c.day + 1, 0, 0) else NextMonth(c)
  }

  lemma Advance(f: CronFields, start: Civil, a: Civil, b: Civil)
    requires Reaches(f, start, a) && IsCursor(b) && Before(a, b) && NoMatch(f, a, b)
    ensures Reaches(f, start, b)
  {
  }

  lemma SkipYear(f: CronFields, start: Civil, a: Civil, first: int)
    requires Reaches(f, start, a) && 1 <= first <= 12
    requires forall m :: m in f.months ==> first <= m < a.month
    ensures Reaches(f, start, Civil(a.year + 1, first, 1, 0, 0))
  {
    Advance(f, start, a, Civil(a.year + 1, first, 1, 0, 0));
  }

  lemma SkipToMonth(f: CronFields, start: Civil, a: Civil, next: int)
    requires Reaches(f, start, a) && a.month < next <= 12
    requires forall m :: m in f.months ==> m < a.month || next <= m
    ensures Reaches(f, start, Civil(a.year, next, 1, 0, 0))
  {
    Advance(f, start, a, Civil(a.year, next, 1, 0, 0));
  }

  lemma SkipMonth(f: CronFields, start: Civil, a: Civil)
    requires Reaches(f, start, a)
    requires forall d :: d in f.daysOfMonth ==> d < a.day || d > DaysInMonth(a.year, a.month)
    ensures Reaches(f, start, NextMonth(a))
  {
    Advance(f, start, a, NextMonth(a));
  }

  lemma SkipToDay(f: CronFields, start: Civil, a: Civil, next: int)
    requires Reaches(f, start, a) && a.day < next <= DaysInMonth(a.year, a.month)
    requires forall d :: d in f.daysOfMonth && d <= DaysInMonth(a.year, a.month) ==> d < a.day || next <= d
    ensures Reaches(f, start, Civil(a.year, a.month, next, 0, 0))
  {
    Advance(f, start, a, Civil(a.year, a.month, next, 0, 0));
  }

  lemma SkipDay(f: CronFields, start: Civil, a: Civil)
    requires Reaches(f, start, a)
    requires DayOfWeek(a.year, a.month, a.day) !in f.daysOfWeek || forall h :: h in f.hours ==> h < a.hour
    ensures Reaches(f, start, NextDay(a))
  {
    Advance(f, start, a, NextDay(a));
  }

  lemma SkipToHour(f: CronFields, start: Civil, a: Civil, next: int)
    requires Reaches(f, start, a) && a.hour < next < 24
    requires forall h :: h in f.hours ==> h < a.hour || next <= h
    ensures Reaches(f, start, Civil(a.year, a.month, a.day, next, 0))
  {
    Advance(f, start, a, Civil(a.year, a.month, a.day, next, 0));
  }

  lemma SkipHour(f: CronFields, start: Civil, a: Civil)
    requires Reaches(f, start, a) && a.hour < 24
    requires forall m :: m in f.minutes ==> m < a.minute
    ensures Reaches(f, start, Civil(a.year, a.month, a.day, a.hour + 1, 0))
  {
    Advance(f, start, a, Civil(a.year, a.month, a.day, a.hour + 1, 0));
  }

  lemma SkipToMinute(f: CronFields, start: Civil, a: Civil, next: int)
    requires Reaches(f, start, a) && a.hour < 24 && a.minute <= next < 60
    requires forall m :: m in f.minutes ==> m < a.minute || next <= m
    ensures Reaches(f, start, Civil(a.year, a.month, a.day, a.hour, next))
  {
    if a.minute < next {
      Advance(f, start, a, Civil(a.year, a.month, a.day, a.hour, next));
    }
  }

  method FindNextOrEqual(allowed: seq<int>, current: int) returns (next: Option<int>)
    requires Increasing(allowed)
    ensures next.Some? ==>
              next.value in allowed && next.value >= current
              && forall v :: v in allowed ==> v < current || next.value <= v
    ensures next.None? ==> forall v :: v in allowed ==> v < current
  {
    for i := 0 to |allowed|
      invariant forall j :: 0 <= j < i ==> allowed[j] < current
    {
      if allowed[i] >= current {
        return Some(allowed[i]);
      }
    }
    return None;
  }

  lemma {:induction false} FilterStaysIncreasing(s: seq<int>, keep: int -> bool)
    requires Increasing(s)
    ensures Increasing(Filter(s, keep))
  {
    if s != [] {
      FilterStaysIncreasing(s[1..], keep);
      FilterHolds(s[1..], keep);
      var rest := Filter(s[1..], keep);
      assert forall i :: 0 <= i < |rest| ==> rest[i] in rest;
    }
  }

  /** The days of a field that a month has. */
  function DaysUpTo(days: seq<int>, last: int): (r: seq<int>)
    requires Increasing(days)
    ensures Increasing(r) && forall d :: d in r <==> d in days && d <= last
  {
    FilterStaysIncreasing(days, d => d <= last);
    FilterHolds(days, d => d <= last);
    Filter(days, d => d <= last)
  }

  lemma FoundIsNext(f: CronFields, n: nat, c: Civil)
    requires Reaches(f, FromMinutes(n), c) && c.Valid() && Matches(f, c) && c.year <= FromMinutes(n).year + 4
    ensures ToMinutes(c) >= n && Scan(MatchesAt(f), n, Horizon(n)) == Some(ToMinutes(c))
  {
    CivilRoundTrip(c);
    var m: nat := ToMinutes(c);
    MinutesAreCivil(m, n);
    HorizonIsYears(n, m);
    forall k: nat | n <= k < m ensures !MatchesAt(f)(k) {
      MinutesAreCivil(k, n);
      MinutesAreCivil(k, m);
    }
    ScanFinds(MatchesAt(f), n, m, Horizon(n));
  }

  lemma PassedMeansNone(f: CronFields, n: nat, c: Civil)
    requires Reaches(f, FromMinutes(n), c) && c.year == FromMinutes(n).year + 5
    ensures Scan(MatchesAt(f), n, Horizon(n)) == None
  {
    forall k: nat | n <= k < Horizon(n) ensures !MatchesAt(f)(k) {
      MinutesAreCivil(k, n);
      HorizonIsYears(n, k);
    }
    ScanFails(MatchesAt(f), n, Horizon(n));
  }

  /** How far one pass of the loop gets: the cursor moves on, or it stays with everything so far matching. */
  predicate MovesOn(from: Civil, to: Civil) {
    DateBefore(from, to) || (SameDate(from, to) && from.hour < to.hour)
  }

  predicate DateMatches(f: CronFields, c: Civil)
    requires 1 <= c.month <= 12
  {
    c.month in f.months && c.day in f.daysOfMonth && DayOfWeek(c.year, c.month, c.day) in f.daysOfWeek
  }

  /** The first part of a pass of the loop: the month. */
  method FindMonth(fields: CronFields, ghost start: Civil, from: Civil) returns (c: Civil, found: bool)
    requires Proper(fields) && Reaches(fields, start, from)
    ensures Reaches(fields, start, c) && c.year <= from.year + 1
    ensures found ==> c.year == from.year && c.month in fields.months && (c == from || DateBefore(from, c))
    ensures !found ==> DateBefore(from, c)
  {
    c := from;
    var nextMonth := FindNextOrEqual(fields.months, c.month);
    if nextMonth.None? {
      assert fields.months[0] in fields.months;
      SkipYear(fields, start, c, fields.months[0]);
      return Civil(c.year + 1, fields.months[0], 1, 0, 0), false;
    }
    if nextMonth.value > c.month {
      SkipToMonth(fields, start, c, nextMonth.value);
      c := Civil(c.year, nextMonth.value, 1, 0, 0);
    }
    return c, true;
  }

  /** The second part: day-of-month and day-of-week. */
  method FindDay(fields: CronFields, ghost start: Civil, from: Civil) returns (c: Civil, found: bool)
    requires Proper(fields) && Reaches(fields, start, from) && from.month in fields.months
    ensures Reaches(fields, start, c) && c.year <= from.year + 1
    ensures found ==> c.year == from.year && DateMatches(fields, c) && (c == from || DateBefore(from, c))
    ensures !found ==> DateBefore(from, c)
  {
    c := from;
    var maxDays := DaysInMonth(c.year, c.month);
    var validDays := DaysUpTo(fields.daysOfMonth, maxDays);
    if |validDays| == 0 {
      SkipMonth(fields, start, c);
      return NextMonth(c), false;
    }
    var nextDay := FindNextOrEqual(validDays, c.day);
    if nextDay.None? {
      SkipMonth(fields, start, c);
      return NextMonth(c), false;
    }
    if nextDay.value > c.day {
      SkipToDay(fields, start, c, nextDay.value);
      c := Civil(c.year, c.month, nextDay.value, 0, 0);
    }

    if DayOfWeek(c.year, c.month, c.day) !in fields.daysOfWeek {
      SkipDay(fields, start, c);
      return NextDay(c), false;
    }
    return c, true;
  }

  /** The last part: hour and minute. */
  method FindTime(fields: CronFields, ghost start: Civil, from: Civil) returns (c: Civil, found: bool)
    requires Proper(fields) && Reaches(fields, start, from) && DateMatches(fields, from)
    ensures Reaches(fields, start, c) && c.year <= from.year + 1
    ensures found ==> c.Valid() && Matches(fields, c) && SameDate(from, c)
    ensures !found ==> MovesOn(from, c)
  {
    c := from;
    var nextHour := FindNextOrEqual(fields.hours, c.hour);
    if nextHour.None? {
      SkipDay(fields, start, c);
      return NextDay(c), false;
    }
    if nextHour.value > c.hour {
      SkipToHour(fields, start, c, nextHour.value);
      c := c.(hour := nextHour.value, minute := 0);
    }

    var nextMinute := FindNextOrEqual(fields.minutes, c.minute);
    if nextMinute.None? {
      SkipHour(fields, start, c);
      return c.(hour := c.hour + 1, minute := 0), false;
    }
    SkipToMinute(fields, start, c, nextMinute.value);
    return c.(minute := nextMinute.value), true;
  }

  /**
   The search gives exactly what the scan of every minute gives. The final comparison with the
   reference never fails in UTC.
   */
  method SearchForward(fields: CronFields, referenceTimestamp: nat) returns (r: Result<nat, CronError>)
    requires Proper(fields)
    ensures r == NextRun(fields, referenceTimestamp)
  {
    var startMs := referenceTimestamp + 60000;
    var startMinute := (startMs - startMs % 60000) / 60000;
    assert startMinute == After(referenceTimestamp);
    var start := FromMinutes(startMinute);
    var cursor, maxYear := start, start.year + 4;

    while cursor.year <= maxYear
      invariant cursor.year <= maxYear + 1 && Reaches(fields, start, cursor)
      decreases maxYear + 1 - cursor.year, 12 - cursor.month, 31 - cursor.day, 24 - cursor.hour
    {
      var month, isMonth := FindMonth(fields, start, cursor);
      if !isMonth {
        cursor := month;
        continue;
      }
      var date, isDate := FindDay(fields, start, month);
      if !isDate {
        cursor := date;
        continue;
      }
      var time, isTime := FindTime(fields, start, date);
      if !isTime {
        cursor := time;
        continue;
      }
      FoundIsNext(fields, startMinute, time);
      var resultMs := ToMinutes(time) * 60000;
      if resultMs > referenceTimestamp {
        return Ok(resultMs);
      }
      assert false;
    }
    PassedMeansNone(fields, startMinute, cursor);
    return Err(NoRunTime);
  }

  method GetNextRunTime(cronExpr: string, referenceTimestamp: nat) returns (r: Result<nat, CronError>)
    ensures r == match CronOf(cronExpr)
                 case Ok(fields) => NextRun(fields, referenceTimestamp)
                 case Err(e) => Err(e)
  {
    var parsed := ParseCronExpression(cronExpr);
    if parsed.Err? { return Err(parsed.error); }
    r := SearchForward(parsed.value, referenceTimestamp);
  }

  // ----- What the result means -----

  /**
   The result is a whole minute, strictly later than the reference, that matches, and no matching
   minute lies between; and it fails exactly when no minute up to the end of the fourth year
   after the starting year matches.
   */
  lemma NextRunIsLeast(f: CronFields, reference: nat)
    ensures var lastYear := FromMinutes(After(reference)).year + 4;
            match NextRun(f, reference)
            case Ok(t) =>
              && t > reference && t % 60000 == 0
              && MatchesAt(f)(t / 60000) && FromMinutes(t / 60000).year <= lastYear
              && forall n: nat :: reference < n * 60000 < t ==> !MatchesAt(f)(n)
            case Err(e) =>
              forall n: nat :: reference < n * 60000 && FromMinutes(n).year <= lastYear ==> !MatchesAt(f)(n)
  {
    var p, first := MatchesAt(f), After(reference);
    NextTimeIsLeast(p, Horizon, reference);
    match NextRun(f, reference)
    case Ok(t) => HorizonIsYears(first, t / 60000);
    case Err(_) =>
      forall n: nat | reference < n * 60000 && FromMinutes(n).year <= FromMinutes(first).year + 4 ensures !p(n) {
        HorizonIsYears(first, n);
      }
  }

  /** The first k results of `NextRun`, each asked from the one before. */
  function Runs(f: CronFields, reference: nat, k: nat): seq<nat> {
    Times(MatchesAt(f), Horizon, reference, k)
  }

  /**
   Asking again and again enumerates the matching minutes in order, and none is skipped; the list
   is shorter than asked for only where asking once more fails.
   */
  lemma RunsEnumerate(f: CronFields, reference: nat, k: nat)
    ensures var runs := Runs(f, reference, k);
            && Enumerates(MatchesAt(f), reference, runs)
            && |runs| <= k && (|runs| < k ==> NextRun(f, if runs == [] then reference else runs[|runs| - 1]).Err?)
  {
    TimesEnumerate(MatchesAt(f), Horizon, reference, k);
    TimesEndWhereNoneIsLeft(MatchesAt(f), Horizon, reference, k);
  }

  /** The values that a field admits are exactly those that occur in some time. */
  lemma FieldsAdmitWhatOccurs(v: int)
    ensures MINUTE.min <= v <= MINUTE.max <==> exists c: Civil :: c.Valid() && c.minute == v
    ensures HOUR.min <= v <= HOUR.max <==> exists c: Civil :: c.Valid() && c.hour == v
    ensures DAY_OF_MONTH.min <= v <= DAY_OF_MONTH.max <==> exists c: Civil :: c.Valid() && c.day == v
    ensures MONTH.min <= v <= MONTH.max <==> exists c: Civil :: c.Valid() && c.month == v
    ensures DAY_OF_WEEK.min <= v <= DAY_OF_WEEK.max <==>
              exists c: Civil :: c.Valid() && DayOfWeek(c.year, c.month, c.day) == v
  {
    if 0 <= v < 60 { assert Civil(1970, 1, 1, 0, v).Valid(); }
    if 0 <= v < 24 { assert Civil(1970, 1, 1, v, 0).Valid(); }
    if 1 <= v <= 31 { assert Civil(1970, 1, v, 0, 0).Valid(); }
    if 1 <= v <= 12 { assert Civil(1970, v, 1, 0, 0).Valid(); }
    if 0 <= v <= 6 {
      var c := Civil(1970, 1, 4 + v, 0, 0);
      assert DayFromYear(1970) == 0;
      assert c.Valid() && DayOfWeek(c.year, c.month, c.day) == v;
    }
  }

  /** "* * * * *", with any white space between and around. */
  function EveryMinute(before: string, gaps: seq<string>, after: string): Expression {
    Expression([Every], [Every], [Every], [Every], [Every], before, gaps, after)
  }

  lemma EveryMinuteText()
    ensures EveryMinute("", [" ", " ", " ", " "], "").Valid()
    ensures ExpressionText(EveryMinute("", [" ", " ", " ", " "], "")) == "* * * * *"
  {
    var e := EveryMinute("", [" ", " ", " ", " "], "");
    assert Texts([Every]) == ["*"];
    assert FieldText([Every]) == "*";
  }

  lemma EveryMinuteIsAccepted(expr: string)
    requires expr == "* * * * *"
    ensures CronOf(expr).Ok? && forall n: nat :: MatchesAt(CronOf(expr).value)(n)
  {
    var e := EveryMinute("", [" ", " ", " ", " "], "");
    EveryMinuteText();
    ExpressionMeaning(e);
    forall n: nat ensures MatchesAt(CronOf(expr).value)(n) {
      EveryMinuteMatches(CronOf(expr).value, e, n);
    }
  }

  lemma NextMinuteRuns(f: CronFields, reference: nat)
    requires MatchesAt(f)(After(reference))
    ensures NextRun(f, reference) == Ok(reference / 60000 * 60000 + 60000)
  {
    var next := After(reference);
    HorizonIsYears(next, next);
    ScanFinds(MatchesAt(f), next, next, Horizon(next));
  }

  /** It is accepted, matches every minute, and runs at the next one. */
  lemma EveryMinuteRuns(expr: string, reference: nat)
    requires expr == "* * * * *"
    ensures var r := CronOf(expr);
            r.Ok? && (forall n: nat :: MatchesAt(r.value)(n))
            && NextRun(r.value, reference) == Ok(reference / 60000 * 60000 + 60000)
  {
    EveryMinuteIsAccepted(expr);
    NextMinuteRuns(CronOf(expr).value, reference);
  }

  lemma EveryMinuteMatches(f: CronFields, e: Expression, n: nat)
    requires e.minutes == e.hours == e.daysOfMonth == e.months == e.daysOfWeek == [Every]
    requires Represents(f.minutes, e.minutes, MINUTE) && Represents(f.hours, e.hours, HOUR)
    requires Represents(f.daysOfMonth, e.daysOfMonth, DAY_OF_MONTH) && Represents(f.months, e.months, MONTH)
    requires Represents(f.daysOfWeek, e.daysOfWeek, DAY_OF_WEEK)
    ensures MatchesAt(f)(n)
  {
    var c := FromMinutes(n);
    assert forall spec, x :: Denotes([Every][0], spec, x) ==> DenotedBy([Every], spec, x);
    WeekdayIsInRange(c.year, c.month, c.day);
    assert Denotes(Every, MINUTE, c.minute) && Denotes(Every, HOUR, c.hour) && Denotes(Every, DAY_OF_MONTH, c.day);
    assert Denotes(Every, MONTH, c.month) && Denotes(Every, DAY_OF_WEEK, DayOfWeek(c.year, c.month, c.day));
  }

  /** A date that every year has. */
  predicate IsYearly(month: int, day: int) {
    1 <= month <= 12 && 1 <= day && (day <= 28 || (month != 2 && day <= DaysInMonth(2001, month)))
  }

  lemma YearlyDatesExist(year: int, month: int, day: int)
    requires IsYearly(month, day)
    ensures day <= DaysInMonth(year, month)
  {
  }

  lemma WeekdayIsInRange(year: int, month: int, day: int)
    requires 1 <= month <= 12
    ensures 0 <= DayOfWeek(year, month, day) <= 6
  {
  }

  /** With all weekdays and some date that every year has, the search always succeeds. */
  lemma YearlyRunsAreFound(f: CronFields, reference: nat, month: int, day: int)
    requires Proper(f) && month in f.months && day in f.daysOfMonth && IsYearly(month, day)
    requires forall d :: 0 <= d <= 6 ==> d in f.daysOfWeek
    ensures NextRun(f, reference).Ok?
  {
    var start := FromMinutes(After(reference));
    assert f.hours[0] in f.hours && f.minutes[0] in f.minutes;
    var c := Civil(start.year + 1, month, day, f.hours[0], f.minutes[0]);
    YearlyDatesExist(c.year, month, day);
    WeekdayIsInRange(c.year, month, day);
    CivilRoundTrip(c);
    var n: nat := ToMinutes(c);
    MinutesAreCivil(After(reference), n);
    NextRunIsLeast(f, reference);
    assert MatchesAt(f)(n);
  }

  lemma NoLeapMonday(c: Civil)
    requires c.Valid() && 2017 <= c.year <= 2021
    ensures !(c.month == 2 && c.day == 29 && DayOfWeek(c.year, c.month, c.day) == 1)
  {
  }

  lemma LeapMondayIn2044()
    ensures Civil(2044, 2, 29, 0, 0).Valid() && DayOfWeek(2044, 2, 29) == 1
  {
  }

  /**
   The limit of four years is felt: from any reference in 2017 a search for a leap day that is a
   Monday fails, although one comes in 2044.
   */
  lemma LaterRunsAreMissed(f: CronFields, reference: nat)
    requires Proper(f) && f.months == [2] && f.daysOfMonth == [29] && f.daysOfWeek == [1]
    requires FromMinutes(After(reference)).year == 2017
    ensures NextRun(f, reference) == Err(NoRunTime)
    ensures exists c: Civil :: c.Valid() && Matches(f, c) && c.year == 2044
  {
    var first := After(reference);
    forall m: nat | first <= m < Horizon(first) ensures !MatchesAt(f)(m) {
      HorizonIsYears(first, m);
      MinutesAreCivil(m, first);
      NoLeapMonday(FromMinutes(m));
    }
    ScanFails(MatchesAt(f), first, Horizon(first));
    LeapMondayIn2044();
    assert f.hours[0] in f.hours && f.minutes[0] in f.minutes;
    assert Matches(f, Civil(2044, 2, 29, f.hours[0], f.minutes[0]));
  }
}
