/** The proleptic Gregorian calendar, as the dates of the scheduler follow it. */
module Calendar {
  datatype Date = Date(year: int, month: int, day: int)

  /** A UTC date and time; `micros` counts the microseconds of the day. */
  datatype DateTime = DateTime(date: Date, micros: int)

  const DAY_MICROS := 86_400_000_000

  predicate IsLeap(year: int) {
    year % 4 == 0 && (year % 100 != 0 || year % 400 == 0)
  }

  function DaysInMonth(year: int, month: int): int {
    match month
    case 2 => if IsLeap(year) then 29 else 28
    case 4 => 30
    case 6 => 30
    case 9 => 30
    case 11 => 30
    case _ => 31
  }

  predicate ValidDate(d: Date) {
    1 <= d.year && 1 <= d.month <= 12 && 1 <= d.day <= DaysInMonth(d.year, d.month)
  }

  predicate Valid(t: DateTime) {
    ValidDate(t.date) && 0 <= t.micros < DAY_MICROS
  }

  function NextDay(d: Date): Date {
    if d.day < DaysInMonth(d.year, d.month) then d.(day := d.day + 1)
    else if d.month < 12 then Date(d.year, d.month + 1, 1)
    else Date(d.year + 1, 1, 1)
  }

  /** `d + timedelta(days=n)`. */
  function AddDays(d: Date, n: nat): Date
    decreases n
  {
    if n == 0 then d else AddDays(NextDay(d), n - 1)
  }

  // ---- Day numbers ----

  function DaysBeforeYear(year: int): int {
    (year - 1) * 365 + (year - 1) / 4 - (year - 1) / 100 + (year - 1) / 400
  }

  function DaysBeforeMonth(year: int, month: int): int {
    if month <= 1 then 0 else DaysBeforeMonth(year, month - 1) + DaysInMonth(year, month - 1)
  }

  /** `date.toordinal()`: 1 January of year 1 is day 1. */
  function Ordinal(d: Date): int {
    DaysBeforeYear(d.year) + DaysBeforeMonth(d.year, d.month) + d.day
  }

  /** `date.weekday()`: Monday is 0. */
  function Weekday(d: Date): int {
    (Ordinal(d) + 6) % 7
  }

  /** Microseconds since the start of the calendar; datetimes compare by it. */
  function Instant(t: DateTime): int {
    Ordinal(t.date) * DAY_MICROS + t.micros
  }

  lemma Quotients(y: int)
    ensures y / 4 == (y - 1) / 4 + if y % 4 == 0 then 1 else 0
    ensures y / 100 == (y - 1) / 100 + if y % 100 == 0 then 1 else 0
    ensures y / 400 == (y - 1) / 400 + if y % 400 == 0 then 1 else 0
  {
  }

  lemma LeapDays(y: int)
    ensures DaysBeforeYear(y + 1) - DaysBeforeYear(y) == if IsLeap(y) then 366 else 365
  {
    Quotients(y);
  }

  /** A year is as long as its months. */
  lemma YearLength(y: int)
    ensures DaysBeforeYear(y + 1) == DaysBeforeYear(y) + DaysBeforeMonth(y, 12) + DaysInMonth(y, 12)
  {
    LeapDays(y);
    MonthsBefore(y);
  }

  lemma MonthsBefore(y: int)
    ensures DaysBeforeMonth(y, 12) == 306 + DaysInMonth(y, 2)
  {
    assert DaysBeforeMonth(y, 2) == 31;
    assert DaysBeforeMonth(y, 4) == 62 + DaysInMonth(y, 2);
    assert DaysBeforeMonth(y, 6) == DaysBeforeMonth(y, 4) + 61;
    assert DaysBeforeMonth(y, 8) == DaysBeforeMonth(y, 6) + 61;
    assert DaysBeforeMonth(y, 10) == DaysBeforeMonth(y, 8) + 61;
    assert DaysBeforeMonth(y, 12) == DaysBeforeMonth(y, 10) + 61;
  }

  /** The day after a valid date is valid and numbered one higher. */
  lemma NextDayCounts(d: Date)
    requires ValidDate(d)
    ensures ValidDate(NextDay(d)) && Ordinal(NextDay(d)) == Ordinal(d) + 1
  {
    if d.day == DaysInMonth(d.year, d.month) && d.month == 12 {
      YearLength(d.year);
    }
  }

  /** Adding days to a date adds them to its number. */
  lemma {:induction false} AddDaysCounts(d: Date, n: nat)
    requires ValidDate(d)
    ensures ValidDate(AddDays(d, n)) && Ordinal(AddDays(d, n)) == Ordinal(d) + n
    decreases n
  {
    if n > 0 {
      NextDayCounts(d);
      AddDaysCounts(NextDay(d), n - 1);
    }
  }

  lemma {:induction false} MonthsIncrease(y: int, m: int, n: int)
    requires 1 <= m < n
    ensures DaysBeforeMonth(y, m) + DaysInMonth(y, m) <= DaysBeforeMonth(y, n)
    decreases n
  {
    if m < n - 1 {
      MonthsIncrease(y, m, n - 1);
    }
  }

  lemma {:induction false} YearsIncrease(y: int, z: int)
    requires y < z
    ensures DaysBeforeYear(y) + DaysBeforeMonth(y, 12) + DaysInMonth(y, 12) <= DaysBeforeYear(z)
    decreases z - y
  {
    YearLength(y);
    if y + 1 < z {
      YearsIncrease(y + 1, z);
      MonthsBefore(y + 1);
    }
  }

  predicate Before(a: Date, b: Date) {
    a.year < b.year || (a.year == b.year && (a.month < b.month || (a.month == b.month && a.day < b.day)))
  }

  /** Day numbers follow the order of year, month and day. */
  lemma LaterIsHigher(a: Date, b: Date)
    requires ValidDate(a) && ValidDate(b) && Before(a, b)
    ensures Ordinal(a) < Ordinal(b)
  {
    if a.year < b.year {
      YearsIncrease(a.year, b.year);
      if a.month < 12 {
        MonthsIncrease(a.year, a.month, 12);
      }
      if b.month > 1 {
        MonthsIncrease(b.year, 1, b.month);
      }
    } else if a.month < b.month {
      MonthsIncrease(a.year, a.month, b.month);
    }
  }

  /** Day numbers tell valid dates apart, so adding days has only one possible result. */
  lemma OrdinalInjective(a: Date, b: Date)
    requires ValidDate(a) && ValidDate(b) && Ordinal(a) == Ordinal(b)
    ensures a == b
  {
    if Before(a, b) {
      LaterIsHigher(a, b);
    } else if Before(b, a) {
      LaterIsHigher(b, a);
    }
  }

  /** The days up to the end of a year, in closed form. */
  function DaysThrough(year: int): int {
    365 * year + year / 4 - year / 100 + year / 400
  }

  lemma DaysThroughYear(y: int)
    ensures DaysBeforeYear(y) == DaysThrough(y - 1)
    ensures DaysBeforeYear(y) == DaysThrough(y) - 365 - if IsLeap(y) then 1 else 0
  {
    LeapDays(y);
  }

  /** The day number in closed form, with the years counted from March so that the leap day comes last. */
  lemma OrdinalClosedForm(d: Date)
    requires ValidDate(d)
    ensures var year, month := if d.month <= 2 then d.year - 1 else d.year, (d.month + 9) % 12;
      Ordinal(d) == DaysThrough(year) + (153 * month + 2) / 5 + d.day - 306
  {
    DaysThroughYear(d.year);
    MonthsClosedForm(d.year, d.month);
    assert (d.month + 9) % 12 == if d.month <= 2 then d.month + 9 else d.month - 3;
  }

  lemma MonthsClosedForm(y: int, m: int)
    requires 1 <= m <= 12
    ensures DaysBeforeMonth(y, m) == if m <= 2 then (153 * (m + 9) + 2) / 5 - 306
                                     else (153 * (m - 3) + 2) / 5 + 31 + DaysInMonth(y, 2)
  {
    assert DaysBeforeMonth(y, 2) == 31;
    assert DaysBeforeMonth(y, 3) == 31 + DaysInMonth(y, 2);
    assert DaysBeforeMonth(y, 4) == DaysBeforeMonth(y, 3) + 31;
    assert DaysBeforeMonth(y, 6) == DaysBeforeMonth(y, 4) + 61;
    assert DaysBeforeMonth(y, 8) == DaysBeforeMonth(y, 6) + 61;
    assert DaysBeforeMonth(y, 10) == DaysBeforeMonth(y, 8) + 61;
    assert DaysBeforeMonth(y, 12) == DaysBeforeMonth(y, 10) + 61;
  }

  lemma {:induction false} CountsFrom(first: Date, d: Date, n: nat)
    requires ValidDate(first) && ValidDate(d)
    ensures AddDays(first, n) == d <==> Ordinal(d) == Ordinal(first) + n
  {
    AddDaysCounts(first, n);
    if Ordinal(d) == Ordinal(first) + n {
      OrdinalInjective(AddDays(first, n), d);
    }
  }

  /** No valid date comes before it. */
  ghost predicate IsFirst(d: Date) {
    ValidDate(d) && forall e :: ValidDate(e) ==> !Before(e, d)
  }

  predicate IsOne(d: Date) {
    d.year == 1 && d.month == 1 && d.day == 1
  }

  lemma EarlierDate(d: Date) returns (e: Date)
    requires ValidDate(d) && !IsOne(d)
    ensures ValidDate(e) && Before(e, d)
  {
    e := if d.day > 1 then d.(day := d.day - 1)
         else if d.month > 1 then Date(d.year, d.month - 1, 1)
         else Date(d.year - 1, 1, 1);
  }

  /** The calendar begins on 1 January of year 1, which is day 1. */
  lemma FirstIsOne(d: Date)
    ensures IsFirst(d) <==> IsOne(d)
    ensures IsOne(d) ==> Ordinal(d) == 1
  {
    if IsOne(d) {
      assert DaysBeforeMonth(d.year, d.month) == 0;
    } else if IsFirst(d) {
      var e := EarlierDate(d);
    }
  }

  lemma FirstNumber(first: Date)
    requires IsFirst(first)
    ensures Ordinal(first) == 1
  {
    FirstIsOne(first);
  }

  /** A date has day number n + 1 if and only if it falls n days after that. */
  lemma {:induction false} OrdinalCounts(first: Date, d: Date, n: nat)
    requires IsFirst(first) && ValidDate(d)
    ensures Ordinal(d) == n + 1 <==> AddDays(first, n) == d
  {
    FirstNumber(first);
    CountsFrom(first, d, n);
  }

  lemma WeekdayOfNumber(d: Date, n: nat)
    requires Ordinal(d) == n + 1
    ensures Weekday(d) == n % 7
  {
    assert (n + 1 + 6) % 7 == n % 7;
  }

  /** The calendar begins on a Monday, and weekdays follow one another from there. */
  lemma {:induction false} WeekdayCycles(first: Date, n: nat)
    requires IsFirst(first)
    ensures Weekday(AddDays(first, n)) == n % 7
  {
    FirstNumber(first);
    AddDaysCounts(first, n);
    WeekdayOfNumber(AddDays(first, n), n);
  }
}
