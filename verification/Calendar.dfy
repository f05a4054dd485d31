/** The Gregorian calendar as cron/parser.go sees it through the time package: days are counted
    from 1 January of year 1, which was a Monday, and the calendar is extended to all integers. */
module Calendar {

  predicate IsLeap(y: int) { y % 4 == 0 && (y % 100 != 0 || y % 400 == 0) }

  /** Days from the start of year 1 to the start of year y. */
  function YearStart(y: int): int {
    365 * (y - 1) + (y - 1) / 4 - (y - 1) / 100 + (y - 1) / 400
  }

  function YearDays(y: int): int { if IsLeap(y) then 366 else 365 }

  lemma {:induction false} FourthStep(y: int)
    ensures y / 4 == (y - 1) / 4 + if y % 4 == 0 then 1 else 0
  {
    assert y == 4 * (y / 4) + y % 4;
  }

  lemma {:induction false} CenturyStep(y: int)
    ensures y / 100 == (y - 1) / 100 + if y % 100 == 0 then 1 else 0
  {
    assert y == 100 * (y / 100) + y % 100;
  }

  lemma {:induction false} EraStep(y: int)
    ensures y / 400 == (y - 1) / 400 + if y % 400 == 0 then 1 else 0
  {
    assert y == 400 * (y / 400) + y % 400;
  }

  lemma {:induction false} CenturyIsFourth(y: int)
    ensures y % 100 == 0 ==> y % 4 == 0
  {
    if y % 100 == 0 { assert y == 4 * (25 * (y / 100)); }
  }

  lemma {:induction false} EraIsCentury(y: int)
    ensures y % 400 == 0 ==> y % 100 == 0
  {
    if y % 400 == 0 { assert y == 100 * (4 * (y / 400)); }
  }

  lemma {:induction false} YearStep(y: int)
    ensures YearStart(y + 1) == YearStart(y) + YearDays(y)
  {
    FourthStep(y);
    CenturyStep(y);
    EraStep(y);
    CenturyIsFourth(y);
    EraIsCentury(y);
  }

  function YearFrom(y: int, d: int): (r: int)
    requires YearStart(y) <= d
    ensures y <= r && YearStart(r) <= d < YearStart(r + 1)
    decreases d - YearStart(y)
  {
    YearStep(y);
    if d < YearStart(y + 1) then y else YearFrom(y + 1, d)
  }

  /** The year day d falls in. */
  function YearOf(d: int): (y: int)
    ensures YearStart(y) <= d < YearStart(y + 1)
  {
    var k := d / 146097;
    assert (400 * k) / 4 == 100 * k && (400 * k) / 100 == 4 * k && (400 * k) / 400 == k;
    assert YearStart(400 * k + 1) == 146097 * k;
    YearFrom(400 * k + 1, d)
  }

  function MonthDays(leap: bool, m: int): int {
    if m == 2 then (if leap then 29 else 28)
    else if m == 4 || m == 6 || m == 9 || m == 11 then 30
    else 31
  }

  /** Days of the year in front of month m. */
  function MonthStart(leap: bool, m: int): (s: int)
    requires 1 <= m <= 13
    ensures 28 * (m - 1) <= s <= 31 * (m - 1)
  {
    if m == 1 then 0 else MonthStart(leap, m - 1) + MonthDays(leap, m - 1)
  }

  lemma {:induction false} TwelveMonths(leap: bool)
    ensures MonthStart(leap, 13) == if leap then 366 else 365
    ensures MonthStart(leap, 2) == 31
  {
    assert MonthStart(leap, 2) == 31;
    assert MonthStart(leap, 3) == if leap then 60 else 59;
    assert MonthStart(leap, 5) == MonthStart(leap, 3) + 61;
    assert MonthStart(leap, 7) == MonthStart(leap, 5) + 61;
    assert MonthStart(leap, 9) == MonthStart(leap, 7) + 62;
    assert MonthStart(leap, 11) == MonthStart(leap, 9) + 61;
    assert MonthStart(leap, 13) == MonthStart(leap, 11) + 61;
  }

  function MonthFrom(leap: bool, m: int, day: int): (r: int)
    requires 1 <= m <= 12 && MonthStart(leap, m) <= day < MonthStart(leap, 13)
    ensures m <= r <= 12 && MonthStart(leap, r) <= day < MonthStart(leap, r + 1)
    decreases 12 - m
  {
    if day < MonthStart(leap, m + 1) then m else MonthFrom(leap, m + 1, day)
  }

  datatype Date = Date(year: int, month: int, day: int)

  predicate IsDate(t: Date) {
    1 <= t.month <= 12 && 1 <= t.day <= MonthDays(IsLeap(t.year), t.month)
  }

  /** The number of a date, and the date of a day: the two directions of the calendar. */
  function DayOf(t: Date): int
    requires IsDate(t)
  {
    YearStart(t.year) + MonthStart(IsLeap(t.year), t.month) + t.day - 1
  }

  function DateOf(d: int): (t: Date)
    ensures IsDate(t)
  {
    var y := YearOf(d);
    YearStep(y);
    TwelveMonths(IsLeap(y));
    var m := MonthFrom(IsLeap(y), 1, d - YearStart(y));
    Date(y, m, d - YearStart(y) - MonthStart(IsLeap(y), m) + 1)
  }

  /** 0 is Sunday. */
  function Weekday(d: int): (w: int)
    ensures 0 <= w < 7
  {
    (d + 1) % 7
  }

  lemma {:induction false} YearsApart(y: int, n: nat)
    ensures 365 * n <= YearStart(y + n) - YearStart(y) <= 366 * n
  {
    if n > 0 {
      YearsApart(y, n - 1);
      YearStep(y + n - 1);
    }
  }

  lemma {:induction false} YearsOrdered(y: int, z: int)
    ensures y <= z ==> YearStart(y) <= YearStart(z)
  {
    if y <= z { YearsApart(y, z - y); }
  }

  lemma {:induction false} MonthsApart(leap: bool, m: int, n: int)
    requires 1 <= m < n <= 13
    ensures MonthStart(leap, m) + MonthDays(leap, m) <= MonthStart(leap, n)
  {
    if m + 1 < n { MonthsApart(leap, m, n - 1); }
  }

  lemma {:induction false} YearIsUnique(d: int, y: int)
    requires YearStart(y) <= d < YearStart(y + 1)
    ensures YearOf(d) == y
  {
    var y' := YearOf(d);
    YearsOrdered(y' + 1, y);
    YearsOrdered(y + 1, y');
  }

  lemma {:induction false} MonthIsUnique(leap: bool, m: int, day: int)
    requires 1 <= m <= 12 && 0 <= day - MonthStart(leap, m) < MonthDays(leap, m) && day < MonthStart(leap, 13)
    ensures MonthStart(leap, 1) <= day && MonthFrom(leap, 1, day) == m
  {
    var m' := MonthFrom(leap, 1, day);
    assert MonthStart(leap, m' + 1) == MonthStart(leap, m') + MonthDays(leap, m');
    if m' < m { MonthsApart(leap, m', m); }
    if m < m' { MonthsApart(leap, m, m'); }
  }

  lemma {:induction false} InsideYear(leap: bool, m: int, day: int)
    requires 1 <= m <= 12 && 0 <= day < MonthDays(leap, m)
    ensures MonthStart(leap, m) + day < MonthStart(leap, 13)
  {
    MonthsApart(leap, m, 13);
  }

  /** Every date has its day, and no other date has it. */
  lemma {:induction false} DateOfDay(t: Date)
    requires IsDate(t)
    ensures DateOf(DayOf(t)) == t
    ensures YearStart(t.year) <= DayOf(t) < YearStart(t.year + 1)
  {
    var leap := IsLeap(t.year);
    YearStep(t.year);
    TwelveMonths(leap);
    InsideYear(leap, t.month, t.day - 1);
    YearIsUnique(DayOf(t), t.year);
    MonthIsUnique(leap, t.month, MonthStart(leap, t.month) + t.day - 1);
  }

  lemma {:induction false} DayOfDate(d: int)
    ensures DayOf(DateOf(d)) == d
  {
  }

  // ---- the calendar by its rules ------------------------------------------------------------------

  /** How long the months are. */
  lemma {:induction false} MonthLengths(t: Date)
    ensures IsDate(t) <==>
              && 1 <= t.month <= 12 && 1 <= t.day <= 31
              && (t.day == 31 ==> t.month in {1, 3, 5, 7, 8, 10, 12})
              && (t.month == 2 ==> t.day <= 29)
              && (t.month == 2 && t.day == 29 ==> t.year % 4 == 0 && (t.year % 100 == 0 ==> t.year % 400 == 0))
  {
  }

  /** The day behind a date is the next of its month, the first of the next month or New Year's Day. */
  lemma {:induction false} NextDay(t: Date)
    requires IsDate(t)
    ensures var same, next := Date(t.year, t.month, t.day + 1), Date(t.year, t.month + 1, 1);
            var year := Date(t.year + 1, 1, 1);
            var after := if IsDate(same) then same else if IsDate(next) then next else year;
            DateOf(DayOf(t) + 1) == after && DayOf(after) == DayOf(t) + 1
  {
    hide DateOf;
    var leap := IsLeap(t.year);
    TwelveMonths(leap);
    YearStep(t.year);
    var same, next, year := Date(t.year, t.month, t.day + 1), Date(t.year, t.month + 1, 1), Date(t.year + 1, 1, 1);
    var after := if IsDate(same) then same else if IsDate(next) then next else year;
    assert t.month < 12 ==> MonthStart(leap, t.month + 1) == MonthStart(leap, t.month) + MonthDays(leap, t.month);
    assert DayOf(after) == DayOf(t) + 1;
    DateOfDay(after);
  }

  /** 1 January 1970 was a Thursday, and the weekdays follow one another. */
  lemma {:induction false} WeekdaySteps(d: int)
    ensures DayOf(Date(1970, 1, 1)) == 719162 && Weekday(719162) == 4
    ensures Weekday(d + 1) == (if Weekday(d) == 6 then 0 else Weekday(d) + 1)
  {
    assert YearStart(1970) == 719162;
  }

  /** The weekday of a date by Sakamoto's congruence, 0 is Sunday. */
  function CivilWeekday(t: Date): int
    requires 1 <= t.month <= 12
  {
    var y := if t.month < 3 then t.year - 1 else t.year;
    (y + y / 4 - y / 100 + y / 400 + [0, 3, 2, 5, 0, 3, 5, 1, 4, 6, 2, 4][t.month - 1] + t.day) % 7
  }

  lemma {:induction false} WeekdayIsCivil(t: Date)
    requires IsDate(t)
    ensures Weekday(DayOf(t)) == CivilWeekday(t)
  {
    var weeks := CivilWeeks(t);
    var y := if t.month < 3 then t.year - 1 else t.year;
    var n := y + y / 4 - y / 100 + y / 400 + [0, 3, 2, 5, 0, 3, 5, 1, 4, 6, 2, 4][t.month - 1] + t.day;
    hide DayOf;
    WholeWeeks(n, weeks);
    assert Weekday(DayOf(t)) == (n + 7 * weeks) % 7;
  }

  lemma {:induction false} WholeWeeks(n: int, weeks: int)
    ensures (n + 7 * weeks) % 7 == n % 7
  {
  }

  /** The day number and the congruence differ by whole weeks. */
  lemma {:induction false} CivilWeeks(t: Date) returns (weeks: int)
    requires IsDate(t)
    ensures var y := if t.month < 3 then t.year - 1 else t.year;
            DayOf(t) + 1 == y + y / 4 - y / 100 + y / 400 + [0, 3, 2, 5, 0, 3, 5, 1, 4, 6, 2, 4][t.month - 1] +
                            t.day + 7 * weeks
  {
    var leap := IsLeap(t.year);
    YearStep(t.year);
    MonthShift(leap, t.month);
    hide IsLeap, MonthStart;
    var shift := [0, 31, 59, 90, 120, 151, 181, 212, 243, 273, 304, 334][t.month - 1] -
                 [0, 3, 2, 5, 0, 3, 5, 1, 4, 6, 2, 4][t.month - 1];
    assert shift == 7 * [0, 4, 8, 12, 17, 21, 25, 30, 34, 38, 43, 47][t.month - 1] + (if t.month < 3 then 0 else 1);
    weeks := 52 * (t.year - 1) + [0, 4, 8, 12, 17, 21, 25, 30, 34, 38, 43, 47][t.month - 1];
  }

  /** The days in front of a month, modulo the week. */
  lemma {:induction false} MonthShift(leap: bool, m: int)
    requires 1 <= m <= 12
    ensures MonthStart(leap, m) == [0, 31, 59, 90, 120, 151, 181, 212, 243, 273, 304, 334][m - 1] +
                                   (if leap && m > 2 then 1 else 0)
  {
    if m > 1 { MonthShift(leap, m - 1); }
  }

  // ---- how long one waits for a date --------------------------------------------------------------

  /** The longest wait: from 29 February of a leap year to the next one when a century year without
      leap day lies between, eight years or 2921 days. */
  const WAIT := 2921

  predicate Occurs(month: int, day: int) {
    1 <= month <= 12 && 1 <= day <= MonthDays(true, month)
  }

  lemma {:induction false} NextLeapYear(y: int) returns (l: int)
    ensures IsLeap(l) && y < l <= y + 8 && (!IsLeap(y) ==> l <= y + 7)
    ensures forall k | y < k < l :: !IsLeap(k)
  {
    hide IsLeap;
    var q := y / 4;
    l := 4 * (q + 1);
    forall k | y < k < l ensures !IsLeap(k) {
      NotFourth(q, k);
    }
    CenturyIsAlone(q + 1);
    CenturyIsAlone(q);
    if !IsLeap(l) {
      forall k | l < k < l + 4 ensures !IsLeap(k) {
        NotFourth(q + 1, k);
      }
      l := l + 4;
    }
  }

  lemma {:induction false} NotFourth(q: int, k: int)
    ensures 4 * q < k < 4 * q + 4 ==> !IsLeap(k)
  {
  }

  /** Of two years divisible by four in a row one is a leap year. */
  lemma {:induction false} CenturyIsAlone(q: int)
    ensures IsLeap(4 * q) || IsLeap(4 * q + 4)
  {
    assert (4 * q) % 4 == 0 && (4 * q + 4) % 4 == 0;
    if (4 * q) % 100 == 0 { assert (4 * q + 4) % 100 == 4; }
  }

  lemma {:induction false} FewLeapDays(y: int, l: int)
    requires y < l && forall k | y < k < l :: !IsLeap(k)
    ensures YearStart(l) - YearStart(y + 1) == 365 * (l - y - 1)
    decreases l - y
  {
    if y + 1 < l {
      FewLeapDays(y, l - 1);
      YearStep(l - 1);
    }
  }

  /** Every month and day that occur at all occur in any WAIT consecutive days. */
  lemma {:induction false} WindowHasDate(start: int, month: int, day: int) returns (d: int)
    requires Occurs(month, day)
    ensures start <= d < start + WAIT
    ensures DateOf(d).month == month && DateOf(d).day == day
  {
    var y := YearOf(start);
    YearStep(y);
    if month == 2 && day == 29 {
      d := LeapDay(start);
    } else {
      YearStep(y + 1);
      d := DayOf(Date(y + 1, month, day));
      DateOfDay(Date(y + 1, month, day));
    }
  }

  lemma {:induction false} LeapDay(start: int) returns (d: int)
    ensures start <= d < start + WAIT && DateOf(d).month == 2 && DateOf(d).day == 29
  {
    var y := YearOf(start);
    YearStep(y);
    TwelveMonths(IsLeap(y));
    var l := y;
    if !IsLeap(y) || DayOf(Date(y, 2, 29)) < start {
      l := NextLeapYear(y);
      FewLeapDays(y, l);
    }
    TwelveMonths(IsLeap(l));
    d := DayOf(Date(l, 2, 29));
    DateOfDay(Date(l, 2, 29));
  }

  /** So does every weekday in every month, much sooner. */
  lemma {:induction false} WindowHasWeekday(start: int, month: int, weekday: int) returns (d: int)
    requires 1 <= month <= 12 && 0 <= weekday < 7
    ensures start <= d < start + WAIT
    ensures DateOf(d).month == month && Weekday(d) == weekday
  {
    var y := YearOf(start);
    YearStep(y);
    YearStep(y + 1);
    hide YearOf, DateOf, Weekday, IsLeap;
    var first := DayOf(Date(y + 1, month, 1));
    var k := WeekdayWithin(first, weekday);
    d := DayOf(Date(y + 1, month, 1 + k));
    DateOfDay(Date(y + 1, month, 1 + k));
  }

  lemma {:induction false} WeekdayWithin(first: int, weekday: int) returns (k: int)
    requires 0 <= weekday < 7
    ensures 0 <= k < 7 && Weekday(first + k) == weekday
  {
    k := (weekday - Weekday(first)) % 7;
  }

  /** One day less would not do: after 29 February 2096 there is none for WAIT - 1 days. */
  lemma {:induction false} LongestWait(d: int)
    requires DayOf(Date(2096, 2, 29)) < d < DayOf(Date(2096, 2, 29)) + WAIT
    ensures !(DateOf(d).month == 2 && DateOf(d).day == 29)
  {
    var t := DateOf(d);
    DayOfDate(d);
    if t.month == 2 && t.day == 29 { LeapDaysAfter2096(t); }
  }

  lemma {:induction false} LeapDaysAfter2096(t: Date)
    requires IsDate(t) && t.month == 2 && t.day == 29
    ensures DayOf(t) <= DayOf(Date(2096, 2, 29)) || DayOf(Date(2096, 2, 29)) + WAIT <= DayOf(t)
  {
    YearsOrdered(t.year, 2096);
    YearsOrdered(2104, t.year);
    TwelveMonths(true);
    assert t.year <= 2096 || t.year >= 2104;
    assert YearStart(2096) == 765183 && YearStart(2104) == 768104;
  }
}
