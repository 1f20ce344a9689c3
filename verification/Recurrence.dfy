/** `advance_weekly` and `advance_monthly`. */
module Recurrence {
  import opened Wrappers
  import opened Calendar

  // ---- Weekly ----

  /** The day found by looking at up to `n` days after `d` for one of `weekdays`. */
  function SearchWeekday(d: Date, weekdays: seq<int>, n: nat): Date
    decreases n
  {
    if n == 0 then d
    else if Weekday(NextDay(d)) in weekdays then NextDay(d)
    else SearchWeekday(NextDay(d), weekdays, n - 1)
  }

  function AdvanceWeekly(t: DateTime, interval: nat, weekdays: Option<seq<int>>): DateTime {
    if weekdays.None? || weekdays.value == [] then t.(date := AddDays(t.date, 7 * interval))
    else t.(date := SearchWeekday(t.date, weekdays.value, 7 * interval + 1))
  }

  method ComputeAdvanceWeekly(start: DateTime, interval: nat, weekdays: Option<seq<int>>) returns (next: DateTime)
    ensures next == AdvanceWeekly(start, interval, weekdays)
  {
    if weekdays.None? || weekdays.value == [] {
      return start.(date := AddDays(start.date, 7 * interval));
    }
    next := start;
    for i := 0 to 7 * interval + 1
      invariant next.micros == start.micros
      invariant SearchWeekday(next.date, weekdays.value, 7 * interval + 1 - i)
             == SearchWeekday(start.date, weekdays.value, 7 * interval + 1)
    {
      next := next.(date := NextDay(next.date));
      if Weekday(next.date) in weekdays.value {
        break;
      }
    }
  }

  /** The date `r` is the first one after `d` that falls on one of `weekdays`. */
  ghost predicate EarliestMatch(d: Date, weekdays: seq<int>, r: Date) {
    && ValidDate(r) && Weekday(r) in weekdays && Ordinal(d) < Ordinal(r)
    && forall e :: ValidDate(e) && Ordinal(d) < Ordinal(e) < Ordinal(r) ==> Weekday(e) !in weekdays
  }

  lemma {:induction false} SearchFinds(d: Date, weekdays: seq<int>, n: nat, ahead: nat)
    requires ValidDate(d) && 1 <= ahead <= n && (Ordinal(d) + ahead + 6) % 7 in weekdays
    ensures EarliestMatch(d, weekdays, SearchWeekday(d, weekdays, n))
    ensures Ordinal(SearchWeekday(d, weekdays, n)) <= Ordinal(d) + ahead
    decreases n
  {
    NextDayCounts(d);
    var next := NextDay(d);
    if Weekday(next) !in weekdays {
      SearchFinds(next, weekdays, n - 1, ahead - 1);
      var r := SearchWeekday(next, weekdays, n - 1);
      forall e | ValidDate(e) && Ordinal(d) < Ordinal(e) < Ordinal(r) ensures Weekday(e) !in weekdays {
        if Ordinal(e) == Ordinal(next) {
          OrdinalInjective(e, next);
        }
      }
    }
  }

  /** With a weekday inside 0..6 the next date is the earliest later matching day, at most seven
      days ahead and at the same time of day, whatever the interval. */
  lemma WeeklyIsEarliestMatch(t: DateTime, interval: nat, weekdays: seq<int>, w: int)
    requires Valid(t) && interval >= 1 && w in weekdays && 0 <= w <= 6
    ensures var r := AdvanceWeekly(t, interval, Some(weekdays));
      && EarliestMatch(t.date, weekdays, r.date) && Ordinal(r.date) <= Ordinal(t.date) + 7 && r.micros == t.micros
      && r == AdvanceWeekly(t, 1, Some(weekdays))
  {
    var ahead := DaysAhead(Ordinal(t.date), w);
    SearchFinds(t.date, weekdays, 7 * interval + 1, ahead);
    SearchFinds(t.date, weekdays, 7 * 1 + 1, ahead);
    SameEarliest(t.date, weekdays, SearchWeekday(t.date, weekdays, 7 * interval + 1),
      SearchWeekday(t.date, weekdays, 7 * 1 + 1));
  }

  /** Some day in the next seven falls on weekday `w`. */
  lemma DaysAhead(ordinal: int, w: int) returns (ahead: nat)
    requires 0 <= w <= 6
    ensures 1 <= ahead <= 7 && (ordinal + ahead + 6) % 7 == w
  {
    var q, x := (w - ordinal) / 7, (w - ordinal) % 7;
    assert w - ordinal == 7 * q + x;
    ahead := 1 + x;
    assert ordinal + ahead + 6 == w + 7 * (1 - q);
  }

  lemma SameEarliest(d: Date, weekdays: seq<int>, a: Date, b: Date)
    requires EarliestMatch(d, weekdays, a) && EarliestMatch(d, weekdays, b)
    ensures a == b
  {
    if Ordinal(a) == Ordinal(b) {
      OrdinalInjective(a, b);
    }
  }

  /** So a weekly task for Mondays that is due on Monday, 6 January 2025 moves to 13 January. */
  lemma MondayWitness(t: DateTime, interval: nat, weekdays: seq<int>)
    requires Valid(t) && t.date == Date(2025, 1, 6) && weekdays == [0] && interval >= 1
    ensures AdvanceWeekly(t, interval, Some(weekdays)) == t.(date := Date(2025, 1, 13))
  {
    WeeklyIsEarliestMatch(t, interval, weekdays, 0);
    var r, next := AdvanceWeekly(t, interval, Some(weekdays)), Date(2025, 1, 13);
    assert Ordinal(t.date) == 739257 && Ordinal(next) == 739264;
    OrdinalInjective(r.date, next);
  }

  lemma {:induction false} SearchMisses(d: Date, weekdays: seq<int>, n: nat)
    requires forall w :: w in weekdays ==> w < 0 || w > 6
    ensures SearchWeekday(d, weekdays, n) == AddDays(d, n)
    decreases n
  {
    if n > 0 {
      SearchMisses(NextDay(d), weekdays, n - 1);
    }
  }

  /** Without one, the date moves one day past the interval. */
  lemma WeeklyWithoutMatch(t: DateTime, interval: nat, weekdays: seq<int>)
    requires weekdays != [] && forall w :: w in weekdays ==> w < 0 || w > 6
    ensures AdvanceWeekly(t, interval, Some(weekdays)) == t.(date := AddDays(t.date, 7 * interval + 1))
  {
    SearchMisses(t.date, weekdays, 7 * interval + 1);
  }

  // ---- Monthly ----

  /** Months since year 0. */
  function MonthIndex(d: Date): int {
    d.year * 12 + d.month - 1
  }

  function MonthLength(index: int): int {
    DaysInMonth(index / 12, index % 12 + 1)
  }

  function Min(a: int, b: int): int {
    if a < b then a else b
  }

  /** The date `interval` months on, on the same day or the last day of a shorter month. */
  function JumpMonths(d: Date, interval: nat): Date {
    var index := MonthIndex(d) + interval;
    Date(index / 12, index % 12 + 1, Min(d.day, MonthLength(index)))
  }

  function AdvanceMonthly(t: DateTime, interval: nat): DateTime {
    t.(date := JumpMonths(t.date, interval))
  }

  method ComputeAdvanceMonthly(start: DateTime, interval: nat) returns (next: DateTime)
    requires Valid(start)
    ensures next == AdvanceMonthly(start, interval)
  {
    var year := start.date.year;
    var month := start.date.month + interval;
    while month > 12
      invariant month >= 1 && year * 12 + month - 1 == MonthIndex(start.date) + interval
      decreases month
    {
      month := month - 12;
      year := year + 1;
    }
    var day := Min(start.date.day, DaysInMonth(year, month));
    next := start.(date := Date(year, month, day));
  }

  /** A month step gives a valid date, exactly `interval` months on and strictly later. */
  lemma MonthlyStep(d: Date, interval: nat)
    requires ValidDate(d) && interval >= 1
    ensures var r := JumpMonths(d, interval);
      && ValidDate(r) && MonthIndex(r) == MonthIndex(d) + interval
      && r.day <= d.day && Ordinal(d) < Ordinal(r)
  {
    var r := JumpMonths(d, interval);
    assert MonthIndex(r) == MonthIndex(d) + interval;
    LaterIsHigher(d, r);
  }

  function MonthlySteps(d: Date, interval: nat, n: nat): Date {
    if n == 0 then d else JumpMonths(MonthlySteps(d, interval, n - 1), interval)
  }

  /** The length of the `i`-th month visited. */
  function VisitedLength(d: Date, interval: nat, i: nat): int {
    MonthLength(MonthIndex(d) + i * interval)
  }

  /** The smallest of the start day and the lengths of the first `n` months visited. */
  function SmallestDay(d: Date, interval: nat, n: nat): int {
    if n == 0 then d.day else Min(SmallestDay(d, interval, n - 1), VisitedLength(d, interval, n))
  }

  lemma Product(n: nat, interval: nat)
    requires n > 0
    ensures (n - 1) * interval + interval == n * interval >= 0
  {
  }

  lemma {:induction false} MonthlyIndex(d: Date, interval: nat, n: nat)
    requires ValidDate(d) && interval >= 1
    ensures ValidDate(MonthlySteps(d, interval, n))
    ensures MonthIndex(MonthlySteps(d, interval, n)) == MonthIndex(d) + n * interval
  {
    if n > 0 {
      MonthlyIndex(d, interval, n - 1);
      Product(n, interval);
      MonthlyStep(MonthlySteps(d, interval, n - 1), interval);
    }
  }

  lemma {:induction false} MonthlyDay(d: Date, interval: nat, n: nat)
    requires ValidDate(d) && interval >= 1
    ensures MonthlySteps(d, interval, n).day == SmallestDay(d, interval, n) <= d.day
  {
    if n > 0 {
      MonthlyDay(d, interval, n - 1);
      MonthlyIndex(d, interval, n - 1);
      Product(n, interval);
    }
  }

  /** Clamping drifts and never recovers: after `n` steps the day is the smallest of the start day
      and all months visited, and never later in the month than one jump of `n` steps. */
  lemma {:induction false} MonthlyDrift(d: Date, interval: nat, n: nat)
    requires ValidDate(d) && interval >= 1
    ensures var r, direct := MonthlySteps(d, interval, n), JumpMonths(d, n * interval);
      && ValidDate(r) && MonthIndex(r) == MonthIndex(direct) == MonthIndex(d) + n * interval
      && r.day == SmallestDay(d, interval, n) && r.day <= direct.day
  {
    MonthlyIndex(d, interval, n);
    MonthlyDay(d, interval, n);
    if n == 0 {
      assert JumpMonths(d, 0) == d;
    }
  }

  lemma {:induction false} SmallestDayAtLeastIff(d: Date, interval: nat, n: nat, day: int)
    requires day <= d.day
    ensures SmallestDay(d, interval, n) >= day <==> forall i :: 1 <= i <= n ==> VisitedLength(d, interval, i) >= day
  {
    if n > 0 {
      SmallestDayAtLeastIff(d, interval, n - 1, day);
    }
  }

  /** Stepping month by month comes to the date of the direct jump if and only if no month on the way is
      shorter than the day of that date. */
  lemma NoDriftIff(d: Date, interval: nat, n: nat)
    requires ValidDate(d) && interval >= 1
    ensures var direct := JumpMonths(d, n * interval);
      MonthlySteps(d, interval, n) == direct <==>
        forall i :: 1 <= i <= n ==> VisitedLength(d, interval, i) >= direct.day
  {
    var r, direct := MonthlySteps(d, interval, n), JumpMonths(d, n * interval);
    MonthlyDrift(d, interval, n);
    SmallestDayAtLeastIff(d, interval, n, direct.day);
  }

  /** The last day of January is followed by 28 February and then by 28 March. */
  lemma DriftWitness()
    ensures MonthlySteps(Date(2025, 1, 31), 1, 1) == Date(2025, 2, 28)
    ensures MonthlySteps(Date(2025, 1, 31), 1, 2) == Date(2025, 3, 28)
    ensures JumpMonths(Date(2025, 1, 31), 2) == Date(2025, 3, 31)
  {
  }
}
