/**
  Civil (proleptic Gregorian) calendar arithmetic over instants, as Foundation's
  `Calendar` performs it for one fixed time zone without daylight-saving shifts.
  An instant is a whole number of seconds; a day number counts days from
  1970-01-01.
 */
module Civil {

  /** An instant: whole seconds since 1970-01-01T00:00 in the configured time zone. */
  type Date = int

  const SecondsPerDay: int := 86400

  /** Days from 0001-01-01 to 1970-01-01 in the proleptic Gregorian calendar. */
  const EpochDay: int := 719162

  function Min(a: int, b: int): int { if a <= b then a else b }

  /** The day (counted from 1970-01-01) that contains instant `t`. */
  function DayNumber(t: Date): int { t / SecondsPerDay }

  /** Seconds elapsed since the start of `t`'s day. */
  function TimeOfDay(t: Date): int { t % SecondsPerDay }

  /** The first instant of day number `n`. */
  function Midnight(n: int): (r: Date)
    ensures DayNumber(r) == n && TimeOfDay(r) == 0
  {
    n * SecondsPerDay
  }

  /** The instant `s` seconds into day number `n`. */
  function At(n: int, s: int): (r: Date)
    requires 0 <= s < SecondsPerDay
    ensures DayNumber(r) == n && TimeOfDay(r) == s
  {
    n * SecondsPerDay + s
  }

  /** `calendar.startOfDay(for:)`. */
  function StartOfDay(t: Date): (r: Date)
    ensures r <= t < r + SecondsPerDay
    ensures DayNumber(r) == DayNumber(t) && TimeOfDay(r) == 0
  {
    Midnight(DayNumber(t))
  }

  /** `calendar.date(byAdding: .day, value: n, to: t)`. */
  function AddDays(t: Date, n: int): (r: Date)
    ensures DayNumber(r) == DayNumber(t) + n
    ensures TimeOfDay(r) == TimeOfDay(t)
  {
    t + n * SecondsPerDay
  }

  /** Adding days to a midnight gives the midnight that many days later. */
  lemma AddDaysToMidnight(n: int, k: int)
    ensures AddDays(Midnight(n), k) == Midnight(n + k)
  {
  }

  /** Two instants are `isDate(_:inSameDayAs:)` exactly when their day numbers agree. */
  predicate SameDay(a: Date, b: Date) { DayNumber(a) == DayNumber(b) }

  /** Day-granularity order agrees with start-of-day order. */
  lemma StartOfDayOrder(a: Date, b: Date)
    ensures StartOfDay(a) < StartOfDay(b) <==> DayNumber(a) < DayNumber(b)
    ensures StartOfDay(a) == StartOfDay(b) <==> DayNumber(a) == DayNumber(b)
  {
  }

  // ---------------------------------------------------------------------------
  // Years and months

  predicate IsLeapYear(y: int) { y % 4 == 0 && (y % 100 != 0 || y % 400 == 0) }

  function DaysInYear(y: int): int { if IsLeapYear(y) then 366 else 365 }

  function DaysInMonth(y: int, m: int): (r: int)
    requires 1 <= m <= 12
    ensures 28 <= r <= 31
  {
    if m == 2 then (if IsLeapYear(y) then 29 else 28)
    else if m == 4 || m == 6 || m == 9 || m == 11 then 30
    else 31
  }

  /** Days from 0001-01-01 to the first day of year `y`. */
  function DaysBeforeYear(y: int): int {
    365 * (y - 1) + (y - 1) / 4 - (y - 1) / 100 + (y - 1) / 400
  }

  /** Days from the first of January of year `y` to the first day of month `m`. */
  function DaysBeforeMonth(y: int, m: int): (r: int)
    requires 1 <= m <= 12
  {
    (if m == 1 then 0 else if m == 2 then 31 else if m == 3 then 59
     else if m == 4 then 90 else if m == 5 then 120 else if m == 6 then 151
     else if m == 7 then 181 else if m == 8 then 212 else if m == 9 then 243
     else if m == 10 then 273 else if m == 11 then 304 else 334)
    + (if m > 2 && IsLeapYear(y) then 1 else 0)
  }

  lemma DivStep4(y: int)
    ensures y / 4 - (y - 1) / 4 == if y % 4 == 0 then 1 else 0
  {
  }

  lemma DivStep100(y: int)
    ensures y / 100 - (y - 1) / 100 == if y % 100 == 0 then 1 else 0
  {
  }

  lemma DivStep400(y: int)
    ensures y / 400 - (y - 1) / 400 == if y % 400 == 0 then 1 else 0
  {
  }

  /** Consecutive year starts are one year length apart. */
  lemma DaysBeforeNextYear(y: int)
    ensures DaysBeforeYear(y + 1) == DaysBeforeYear(y) + DaysInYear(y)
  {
    DivStep4(y);
    DivStep100(y);
    DivStep400(y);
  }

  lemma {:induction false} DaysBeforeYearMonotone(a: int, b: int)
    requires a <= b
    ensures DaysBeforeYear(a) + 365 * (b - a) <= DaysBeforeYear(b)
    decreases b - a
  {
    if a < b {
      DaysBeforeYearMonotone(a, b - 1);
      DaysBeforeNextYear(b - 1);
    }
  }

  /** Month starts are one month length apart, and December ends the year. */
  lemma DaysBeforeMonthStep(y: int, m: int)
    requires 1 <= m <= 12
    ensures m < 12 ==> DaysBeforeMonth(y, m + 1) == DaysBeforeMonth(y, m) + DaysInMonth(y, m)
    ensures DaysBeforeMonth(y, m) + DaysInMonth(y, m) <= DaysInYear(y)
    ensures m == 12 ==> DaysBeforeMonth(y, m) + DaysInMonth(y, m) == DaysInYear(y)
  {
  }

  // ---------------------------------------------------------------------------
  // Civil dates and day numbers

  datatype CivilDate = CivilDate(year: int, month: int, day: int)

  predicate ValidCivil(c: CivilDate) {
    1 <= c.month <= 12 && 1 <= c.day <= DaysInMonth(c.year, c.month)
  }

  /** The day number of a civil date (day 0 is 1970-01-01). */
  function DaysFromCivil(c: CivilDate): int
    requires 1 <= c.month <= 12
  {
    DaysBeforeYear(c.year) + DaysBeforeMonth(c.year, c.month) + c.day - 1 - EpochDay
  }

  /** Lexicographic order on (year, month, day). */
  predicate CivilBefore(a: CivilDate, b: CivilDate) {
    a.year < b.year
    || (a.year == b.year && a.month < b.month)
    || (a.year == b.year && a.month == b.month && a.day < b.day)
  }

  /** Day numbers follow the calendar order of valid civil dates. */
  lemma {:induction false} DaysFromCivilMonotone(a: CivilDate, b: CivilDate)
    requires ValidCivil(a) && ValidCivil(b) && CivilBefore(a, b)
    ensures DaysFromCivil(a) < DaysFromCivil(b)
  {
    DaysBeforeMonthStep(a.year, a.month);
    if a.year < b.year {
      DaysBeforeNextYear(a.year);
      DaysBeforeYearMonotone(a.year + 1, b.year);
    } else if a.month < b.month {
      DaysBeforeMonthMonotone(a.year, a.month + 1, b.month);
    }
  }

  lemma {:induction false} DaysBeforeMonthMonotone(y: int, m1: int, m2: int)
    requires 1 <= m1 <= m2 <= 12
    ensures DaysBeforeMonth(y, m1) <= DaysBeforeMonth(y, m2)
    decreases m2 - m1
  {
    if m1 < m2 {
      DaysBeforeMonthStep(y, m1);
      DaysBeforeMonthMonotone(y, m1 + 1, m2);
    }
  }

  /** Distinct valid civil dates have distinct day numbers. */
  lemma DaysFromCivilInjective(a: CivilDate, b: CivilDate)
    requires ValidCivil(a) && ValidCivil(b) && DaysFromCivil(a) == DaysFromCivil(b)
    ensures a == b
  {
    if CivilBefore(a, b) {
      DaysFromCivilMonotone(a, b);
    } else if CivilBefore(b, a) {
      DaysFromCivilMonotone(b, a);
    }
  }

  /** The year whose first day is at or before `r` and whose successor's is after it, searching upward. */
  function YearUp(r: int, y: int): (z: int)
    requires DaysBeforeYear(y) <= r
    ensures DaysBeforeYear(z) <= r < DaysBeforeYear(z + 1)
    decreases r - DaysBeforeYear(y)
  {
    DaysBeforeNextYear(y);
    if r < DaysBeforeYear(y + 1) then y else YearUp(r, y + 1)
  }

  /** As YearUp, searching downward. */
  function YearDown(r: int, y: int): (z: int)
    requires r < DaysBeforeYear(y + 1)
    ensures DaysBeforeYear(z) <= r < DaysBeforeYear(z + 1)
    decreases DaysBeforeYear(y + 1) - r
  {
    DaysBeforeNextYear(y);
    if DaysBeforeYear(y) <= r then y else YearDown(r, y - 1)
  }

  /** The month of year `y` that contains day-of-year `doy` (0-based), searching from month `m`. */
  function MonthFrom(y: int, doy: int, m: int): (z: int)
    requires 1 <= m <= 12 && DaysBeforeMonth(y, m) <= doy < DaysInYear(y)
    ensures 1 <= z <= 12 && DaysBeforeMonth(y, z) <= doy < DaysBeforeMonth(y, z) + DaysInMonth(y, z)
    decreases 12 - m
  {
    DaysBeforeMonthStep(y, m);
    if m == 12 || doy < DaysBeforeMonth(y, m) + DaysInMonth(y, m) then m
    else MonthFrom(y, doy, m + 1)
  }

  /** The civil date of day number `n`: the inverse of DaysFromCivil. */
  function CivilFromDays(n: int): (c: CivilDate)
    ensures ValidCivil(c) && DaysFromCivil(c) == n
  {
    var r := n + EpochDay;
    var y := if 0 <= r then YearUp(r, 1) else YearDown(r, 0);
    DaysBeforeNextYear(y);
    var doy := r - DaysBeforeYear(y);
    var m := MonthFrom(y, doy, 1);
    CivilDate(y, m, doy - DaysBeforeMonth(y, m) + 1)
  }

  /** Converting a valid civil date to a day number and back gives it back. */
  lemma CivilRoundTrip(c: CivilDate)
    requires ValidCivil(c)
    ensures CivilFromDays(DaysFromCivil(c)) == c
  {
    DaysFromCivilInjective(CivilFromDays(DaysFromCivil(c)), c);
  }

  /** `calendar.dateComponents([.year, .month, .day], from: t)`. */
  function CivilOf(t: Date): (c: CivilDate)
    ensures ValidCivil(c) && DaysFromCivil(c) == DayNumber(t)
  {
    CivilFromDays(DayNumber(t))
  }

  /** Foundation's weekday of a day number: 1 = Sunday, ..., 7 = Saturday (1970-01-01 was a Thursday). */
  function Weekday(n: int): (w: int)
    ensures 1 <= w <= 7
  {
    (n + 4) % 7 + 1
  }

  /** The weekday advances by one each day, wrapping from Saturday to Sunday. */
  lemma WeekdayNext(n: int)
    ensures Weekday(n + 1) == if Weekday(n) == 7 then 1 else Weekday(n) + 1
  {
  }

  // ---------------------------------------------------------------------------
  // Calendar addition of months and years

  /** Months counted from January of year 0. */
  function MonthIndex(c: CivilDate): int { c.year * 12 + c.month - 1 }

  /**
    `calendar.date(byAdding: .month, value: k, to: t)`: the same day of the month `k` months
    later, clamped to the last day of a shorter month; the time of day is kept.
   */
  function AddMonths(t: Date, k: int): (r: Date)
    ensures MonthIndex(CivilOf(r)) == MonthIndex(CivilOf(t)) + k
    ensures CivilOf(r).day == Min(CivilOf(t).day, DaysInMonth(CivilOf(r).year, CivilOf(r).month))
    ensures TimeOfDay(r) == TimeOfDay(t)
  {
    var c := CivilOf(t);
    var index := MonthIndex(c) + k;
    var target := CivilDate(index / 12, index % 12 + 1, 1);
    var d := Min(c.day, DaysInMonth(target.year, target.month));
    var result := target.(day := d);
    CivilRoundTrip(result);
    At(DaysFromCivil(result), TimeOfDay(t))
  }

  /**
    `calendar.date(byAdding: .year, value: k, to: t)`: the same month and day `k` years later,
    with 29 February clamped to 28 February in a common year; the time of day is kept.
   */
  function AddYears(t: Date, k: int): (r: Date)
    ensures CivilOf(r).year == CivilOf(t).year + k && CivilOf(r).month == CivilOf(t).month
    ensures CivilOf(r).day == Min(CivilOf(t).day, DaysInMonth(CivilOf(r).year, CivilOf(r).month))
    ensures TimeOfDay(r) == TimeOfDay(t)
  {
    var c := CivilOf(t);
    var result := CivilDate(c.year + k, c.month, Min(c.day, DaysInMonth(c.year + k, c.month)));
    CivilRoundTrip(result);
    At(DaysFromCivil(result), TimeOfDay(t))
  }

  /** Adding `k` years is adding `12 * k` months. */
  lemma AddYearsIsTwelveMonths(t: Date, k: int)
    ensures AddYears(t, k) == AddMonths(t, 12 * k)
  {
    var a, b := AddYears(t, k), AddMonths(t, 12 * k);
    var ca, cb := CivilOf(a), CivilOf(b);
    assert MonthIndex(cb) == MonthIndex(CivilOf(t)) + 12 * k;
    assert ca.year == cb.year && ca.month == cb.month by {
      assert MonthIndex(ca) == MonthIndex(cb);
    }
    DaysFromCivilInjective(ca, cb);
  }

  /** Adding a positive number of months moves to a strictly later day. */
  lemma AddMonthsLater(t: Date, k: int)
    requires k >= 1
    ensures DayNumber(AddMonths(t, k)) > DayNumber(t)
  {
    var c, d := CivilOf(t), CivilOf(AddMonths(t, k));
    assert CivilBefore(c, d);
    DaysFromCivilMonotone(c, d);
  }

  /** Adding a positive number of years moves to a strictly later day. */
  lemma AddYearsLater(t: Date, k: int)
    requires k >= 1
    ensures DayNumber(AddYears(t, k)) > DayNumber(t)
  {
    AddYearsIsTwelveMonths(t, k);
    AddMonthsLater(t, 12 * k);
  }
}
