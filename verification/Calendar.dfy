/**
 The calendar behind `Date.UTC` and the `getUTC*` methods: section 21.4.1 of ECMA-262, for years
 from 1970, with time counted in whole minutes.
 */
module Calendar {

  /** The month runs from 1 to 12, as the evaluator counts it. */
  datatype Civil = Civil(year: int, month: int, day: int, hour: int, minute: int) {
    predicate Valid() {
      year >= 1970 && 1 <= month <= 12 && 1 <= day <= DaysInMonth(year, month) && 0 <= hour < 24 && 0 <= minute < 60
    }
  }

  predicate IsLeap(year: int) {
    year % 4 == 0 && (year % 100 != 0 || year % 400 == 0)
  }

  function DaysInMonth(year: int, month: int): (n: int)
    requires 1 <= month <= 12
    ensures 28 <= n <= 31
  {
    if month == 2 then (if IsLeap(year) then 29 else 28)
    else if month == 4 || month == 6 || month == 9 || month == 11 then 30 else 31
  }

  /** The day number of the first day of a year; day 0 is the first of January 1970. */
  function DayFromYear(year: int): int {
    365 * (year - 1970) + (year - 1969) / 4 - (year - 1901) / 100 + (year - 1601) / 400
  }

  function DaysBefore(year: int, month: int): int
    requires 1 <= month <= 12
    decreases month
  {
    if month == 1 then 0 else DaysBefore(year, month - 1) + DaysInMonth(year, month - 1)
  }

  function DayNumber(year: int, month: int, day: int): int
    requires 1 <= month <= 12
  {
    DayFromYear(year) + DaysBefore(year, month) + day - 1
  }

  /** `getDay`: 0 is Sunday. */
  function DayOfWeek(year: int, month: int, day: int): int
    requires 1 <= month <= 12
  {
    (DayNumber(year, month, day) + 4) % 7
  }

  /** `Date.UTC`, in minutes. */
  function ToMinutes(c: Civil): int
    requires 1 <= c.month <= 12
  {
    (DayNumber(c.year, c.month, c.day) * 24 + c.hour) * 60 + c.minute
  }

  predicate DateBefore(a: Civil, b: Civil) {
    a.year < b.year || (a.year == b.year && (a.month < b.month || (a.month == b.month && a.day < b.day)))
  }

  predicate SameDate(a: Civil, b: Civil) {
    a.year == b.year && a.month == b.month && a.day == b.day
  }

  predicate Before(a: Civil, b: Civil) {
    DateBefore(a, b)
    || (SameDate(a, b) && (a.hour < b.hour || (a.hour == b.hour && a.minute < b.minute)))
  }

  // ----- Calendar order is the order of time -----

  lemma FourthYears(year: int)
    ensures (year - 1968) / 4 == (year - 1969) / 4 + (if year % 4 == 0 then 1 else 0)
  {
    var q, r := year / 4, year % 4;
    assert year - 1968 == 4 * (q - 492) + r;
  }

  lemma Centuries(year: int)
    ensures (year - 1900) / 100 == (year - 1901) / 100 + (if year % 100 == 0 then 1 else 0)
  {
    var q, r := year / 100, year % 100;
    assert year - 1900 == 100 * (q - 19) + r;
  }

  lemma GreatCycles(year: int)
    ensures (year - 1600) / 400 == (year - 1601) / 400 + (if year % 400 == 0 then 1 else 0)
  {
    var q, r := year / 400, year % 400;
    assert year - 1600 == 400 * (q - 4) + r;
  }

  lemma HundredsDivide(k: int)
    ensures (100 * k) % 4 == 0
  {
    assert 100 * k == 4 * (25 * k);
  }

  lemma FourHundredsDivide(k: int)
    ensures (400 * k) % 100 == 0
  {
    assert 400 * k == 100 * (4 * k);
  }

  lemma YearLength(year: int)
    ensures DayFromYear(year + 1) == DayFromYear(year) + (if IsLeap(year) then 366 else 365)
  {
    FourthYears(year);
    Centuries(year);
    GreatCycles(year);
    HundredsDivide(year / 100);
    FourHundredsDivide(year / 400);
  }

  lemma {:induction false} YearsGrow(y1: int, y2: int)
    requires y1 <= y2
    ensures DayFromYear(y1) <= DayFromYear(y2)
    decreases y2 - y1
  {
    if y1 < y2 {
      YearLength(y2 - 1);
      YearsGrow(y1, y2 - 1);
    }
  }

  lemma {:induction false} MonthsGrow(year: int, m1: int, m2: int)
    requires 1 <= m1 < m2 <= 12
    ensures DaysBefore(year, m1) + DaysInMonth(year, m1) <= DaysBefore(year, m2)
    decreases m2
  {
    if m1 + 1 < m2 {
      MonthsGrow(year, m1, m2 - 1);
    }
  }

  lemma MonthsFillTheYear(year: int)
    ensures DaysBefore(year, 12) + 31 == (if IsLeap(year) then 366 else 365)
  {
    assert DaysBefore(year, 4) == DaysBefore(year, 3) + 31;
    assert DaysBefore(year, 8) == DaysBefore(year, 6) + 61;
    assert DaysBefore(year, 12) == DaysBefore(year, 10) + 61;
    assert DaysBefore(year, 6) == DaysBefore(year, 4) + 61;
    assert DaysBefore(year, 10) == DaysBefore(year, 8) + 61;
  }

  /**
   The proleptic Gregorian calendar in closed form, for all years and months: 365 days a year and the leap days
   before it; then the days of the earlier months, as if February had 30, less those it lacks.
   */
  lemma DayNumberInClosedForm(year: int, month: int, day: int)
    requires 1 <= month <= 12
    ensures DayNumber(year, month, day) ==
              365 * (year - 1970) + (year - 1969) / 4 - (year - 1901) / 100 + (year - 1601) / 400
              + (367 * month - 362) / 12
              + (if month <= 2 then 0 else if year % 4 == 0 && (year % 100 != 0 || year % 400 == 0) then -1 else -2)
              + day - 1
  {
    if month > 1 {
      DayNumberInClosedForm(year, month - 1, day);
    }
  }

  lemma NextRemainder(n: int)
    ensures (n + 1) % 7 == if n % 7 == 6 then 0 else n % 7 + 1
  {
  }

  /** Day 0 is a Thursday, and every day is followed by the next day of the week. */
  lemma WeekdaysFollow(a: Civil, b: Civil)
    requires 1 <= a.month <= 12 && 1 <= b.month <= 12
    requires DayNumber(b.year, b.month, b.day) == DayNumber(a.year, a.month, a.day) + 1
    ensures DayOfWeek(1970, 1, 1) == 4 && DayNumber(1970, 1, 1) == 0
    ensures 0 <= DayOfWeek(a.year, a.month, a.day) <= 6
    ensures DayOfWeek(b.year, b.month, b.day) ==
            if DayOfWeek(a.year, a.month, a.day) == 6 then 0 else DayOfWeek(a.year, a.month, a.day) + 1
  {
    NextRemainder(DayNumber(a.year, a.month, a.day) + 4);
    assert DayFromYear(1970) == 0;
  }

  /** `Date.UTC` in minutes, in closed form; `FromMinutes` is its inverse. */
  lemma MinutesInClosedForm(c: Civil)
    requires 1 <= c.month <= 12
    ensures var y, m := c.year, c.month;
            var days := 365 * (y - 1970) + (y - 1969) / 4 - (y - 1901) / 100 + (y - 1601) / 400
                        + (367 * m - 362) / 12
                        + (if m <= 2 then 0 else if y % 4 == 0 && (y % 100 != 0 || y % 400 == 0) then -1 else -2)
                        + c.day - 1;
            ToMinutes(c) == 1440 * days + 60 * c.hour + c.minute && DayOfWeek(y, m, c.day) == (days + 4) % 7
  {
    DayNumberInClosedForm(c.year, c.month, c.day);
  }

  lemma DateIsInYear(year: int, month: int, day: int)
    requires 1 <= month <= 12 && 1 <= day <= DaysInMonth(year, month)
    ensures DayFromYear(year) <= DayNumber(year, month, day) < DayFromYear(year + 1)
  {
    YearLength(year);
    MonthsFillTheYear(year);
    if month > 1 { MonthsGrow(year, 1, month); }
    if month < 12 { MonthsGrow(year, month, 12); }
  }

  lemma DatesGrow(a: Civil, b: Civil)
    requires a.Valid() && b.Valid() && DateBefore(a, b)
    ensures DayNumber(a.year, a.month, a.day) < DayNumber(b.year, b.month, b.day)
  {
    if a.year < b.year {
      DateIsInYear(a.year, a.month, a.day);
      DateIsInYear(b.year, b.month, b.day);
      YearsGrow(a.year + 1, b.year);
      var endOfYear := DayFromYear(a.year + 1);
      assert DayNumber(a.year, a.month, a.day) < endOfYear <= DayNumber(b.year, b.month, b.day);
    } else if a.month < b.month {
      MonthsGrow(a.year, a.month, b.month);
    }
  }

  lemma TimeGrows(a: Civil, b: Civil)
    requires a.Valid() && b.Valid() && Before(a, b)
    ensures ToMinutes(a) < ToMinutes(b)
  {
    if DateBefore(a, b) {
      DatesGrow(a, b);
    }
  }

  // ----- Back from minutes -----

  function YearFrom(year: int, day: int): (y: int)
    requires DayFromYear(year) <= day
    ensures y >= year && DayFromYear(y) <= day < DayFromYear(y + 1)
    decreases day - DayFromYear(year)
  {
    YearLength(year);
    if day < DayFromYear(year + 1) then year else YearFrom(year + 1, day)
  }

  function MonthFrom(year: int, month: int, day: int): (m: int)
    requires 1 <= month <= 12 && DaysBefore(year, month) <= day < DaysBefore(year, 12) + 31
    ensures 1 <= m <= 12 && DaysBefore(year, m) <= day < DaysBefore(year, m) + DaysInMonth(year, m)
    decreases 12 - month
  {
    if month == 12 || day < DaysBefore(year, month + 1) then month else MonthFrom(year, month + 1, day)
  }

  /** The `getUTC*` fields of a time. */
  function FromMinutes(n: nat): (c: Civil)
    ensures c.Valid() && ToMinutes(c) == n
  {
    var day := n / 1440;
    var year := YearFrom(1970, day);
    YearLength(year);
    MonthsFillTheYear(year);
    var month := MonthFrom(year, 1, day - DayFromYear(year));
    assert n == 1440 * day + 60 * (n / 60 % 24) + n % 60;
    Civil(year, month, day - DayFromYear(year) - DaysBefore(year, month) + 1, n / 60 % 24, n % 60)
  }

  lemma CivilRoundTrip(c: Civil)
    requires c.Valid()
    ensures ToMinutes(c) >= 0 && FromMinutes(ToMinutes(c)) == c
  {
    DateIsInYear(c.year, c.month, c.day);
    YearsGrow(1970, c.year);
    var back := FromMinutes(ToMinutes(c));
    if Before(back, c) {
      TimeGrows(back, c);
    } else if Before(c, back) {
      TimeGrows(c, back);
    }
  }

  /** Minutes and valid civil times are in one-to-one correspondence, in the same order. */
  lemma MinutesAreCivil(m: nat, n: nat)
    ensures m < n <==> Before(FromMinutes(m), FromMinutes(n))
  {
    var a, b := FromMinutes(m), FromMinutes(n);
    if Before(a, b) {
      TimeGrows(a, b);
    } else if Before(b, a) {
      TimeGrows(b, a);
    }
  }

  lemma NextMonthBegins(year: int, month: int)
    requires 1 <= month <= 12
    ensures (if month == 12 then DayNumber(year + 1, 1, 1) else DayNumber(year, month + 1, 1))
            == DayNumber(year, month, DaysInMonth(year, month)) + 1
  {
    YearLength(year);
    MonthsFillTheYear(year);
  }

  /** `new Date(year, month, 0)`, by which the evaluator finds the days of a month: the day before the next month begins. */
  lemma DayZeroIsTheLastDay(year: int, month: int, c: Civil)
    requires year >= 1970 && 1 <= month <= 12 && c.Valid()
    requires DayNumber(c.year, c.month, c.day) + 1
             == (if month == 12 then DayNumber(year + 1, 1, 1) else DayNumber(year, month + 1, 1))
    ensures c.year == year && c.month == month && c.day == DaysInMonth(year, month)
  {
    NextMonthBegins(year, month);
    var last := Civil(year, month, DaysInMonth(year, month), 0, 0);
    if DateBefore(c, last) {
      DatesGrow(c, last);
    } else if DateBefore(last, c) {
      DatesGrow(last, c);
    }
  }
}
