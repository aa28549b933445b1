/** Reset periods (period_bounds and cycle_day_index in backend/energy_api/day_allocation.py and
  * pi_firmware/energy/day_based.py, reset_period_for in pi_firmware/energy/energy_ledger.py).
  *
  * Dates are those of Python's datetime.date: proleptic Gregorian, years 1 to 9999. A difference of
  * dates in days is the difference of their ordinals.
  */
module Calendar {
  import opened Vocabulary

  datatype Date = Date(year: int, month: int, day: int)

  datatype Error = ResetDayOutOfRange | YearOutOfRange

  const MIN_YEAR: int := 1
  const MAX_YEAR: int := 9999

  predicate Leap(y: int) {
    y % 4 == 0 && (y % 100 != 0 || y % 400 == 0)
  }

  function DaysInMonth(y: int, m: int): (n: int)
    ensures 28 <= n <= 31
  {
    if m == 2 then (if Leap(y) then 29 else 28)
    else if m in {4, 6, 9, 11} then 30 else 31
  }

  predicate Valid(d: Date) {
    MIN_YEAR <= d.year <= MAX_YEAR && 1 <= d.month <= 12 && 1 <= d.day <= DaysInMonth(d.year, d.month)
  }

  function DaysBeforeYear(y: int): int {
    (y - 1) * 365 + (y - 1) / 4 - (y - 1) / 100 + (y - 1) / 400
  }

  function DaysBeforeMonth(y: int, m: int): int
    requires 1 <= m
    decreases m
  {
    if m == 1 then 0 else DaysBeforeMonth(y, m - 1) + DaysInMonth(y, m - 1)
  }

  function Ordinal(d: Date): int
    requires 1 <= d.month
  {
    DaysBeforeYear(d.year) + DaysBeforeMonth(d.year, d.month) + d.day
  }

  /** The month after this one, possibly of the next year. */
  function NextMonth(y: int, m: int): (int, int) {
    if m == 12 then (y + 1, 1) else (y, m + 1)
  }

  function PreviousMonth(y: int, m: int): (int, int) {
    if m == 1 then (y - 1, 12) else (y, m - 1)
  }

  function Construct(y: int, m: int, day: int): Result<Date, Error> {
    if MIN_YEAR <= y <= MAX_YEAR then Ok(Date(y, m, day)) else Err(YearOutOfRange)
  }

  // ------------------------------------------------------------ the functions of the source

  /** period_bounds: [start, end) of the reset period that contains the date. */
  function PeriodBounds(d: Date, resetDay: int): Result<(Date, Date), Error> {
    if !(1 <= resetDay <= 28) then Err(ResetDayOutOfRange)
    else
      var first := if d.day >= resetDay then (d.year, d.month) else PreviousMonth(d.year, d.month);
      var last := if d.day >= resetDay then NextMonth(d.year, d.month) else (d.year, d.month);
      match Construct(first.0, first.1, resetDay)
      case Err(e) => Err(e)
      case Ok(start) =>
        match Construct(last.0, last.1, resetDay)
        case Err(e) => Err(e)
        case Ok(end) => Ok((start, end))
  }

  function CycleLength(d: Date, resetDay: int): Result<int, Error>
    requires Valid(d)
  {
    match PeriodBounds(d, resetDay)
    case Err(e) => Err(e)
    case Ok((start, end)) => Ok(Ordinal(end) - Ordinal(start))
  }

  function CycleDayIndex(d: Date, resetDay: int): Result<int, Error>
    requires Valid(d)
  {
    match PeriodBounds(d, resetDay)
    case Err(e) => Err(e)
    case Ok((start, _)) => Ok(Ordinal(d) - Ordinal(start) + 1)
  }

  function Clamp(resetDay: int): int {
    if resetDay < 1 then 1 else if resetDay > 28 then 28 else resetDay
  }

  /** reset_period_for: the year and month that name the period. */
  function ResetPeriodFor(d: Date, resetDay: int): (int, int) {
    if d.day >= Clamp(resetDay) then (d.year, d.month) else PreviousMonth(d.year, d.month)
  }

  // ------------------------------------------------------------ ordinals

  lemma Fourths(y: int)
    ensures y / 4 - (y - 1) / 4 == if y % 4 == 0 then 1 else 0
  {
  }

  lemma Hundredths(y: int)
    ensures y / 100 - (y - 1) / 100 == if y % 100 == 0 then 1 else 0
  {
  }

  lemma FourHundredths(y: int)
    ensures y / 400 - (y - 1) / 400 == if y % 400 == 0 then 1 else 0
  {
  }

  lemma YearLength(y: int)
    ensures DaysBeforeYear(y + 1) == DaysBeforeYear(y) + (if Leap(y) then 366 else 365)
  {
    Fourths(y);
    Hundredths(y);
    FourHundredths(y);
  }

  lemma YearOfMonths(y: int)
    ensures DaysBeforeMonth(y, 12) + 31 == if Leap(y) then 366 else 365
  {
    assert DaysBeforeMonth(y, 4) == (if Leap(y) then 91 else 90);
    assert DaysBeforeMonth(y, 8) == DaysBeforeMonth(y, 4) + 122;
    assert DaysBeforeMonth(y, 12) == DaysBeforeMonth(y, 8) + 122;
  }

  /** The same day one month later is as many days later as the month is long. */
  lemma MonthLater(y: int, m: int, day: int)
    requires 1 <= m <= 12
    ensures var next := NextMonth(y, m);
      Ordinal(Date(next.0, next.1, day)) == Ordinal(Date(y, m, day)) + DaysInMonth(y, m)
  {
    if m == 12 {
      YearLength(y);
      YearOfMonths(y);
    }
  }

  /** Counting months from year 0, so that the next month is the next number. */
  function MonthNumber(d: Date): int {
    d.year * 12 + d.month
  }

  lemma {:induction false} MonthsApart(a: Date, b: Date)
    requires 1 <= a.month <= 12 && 1 <= b.month <= 12 && MonthNumber(a) < MonthNumber(b)
    ensures Ordinal(a.(day := 1)) + DaysInMonth(a.year, a.month) <= Ordinal(b.(day := 1))
    decreases MonthNumber(b) - MonthNumber(a)
  {
    var next := NextMonth(a.year, a.month);
    MonthLater(a.year, a.month, 1);
    var c := Date(next.0, next.1, 1);
    if MonthNumber(c) < MonthNumber(b) {
      MonthsApart(c, b);
    } else {
      assert c.year == b.year && c.month == b.month;
    }
  }

  predicate Before(a: Date, b: Date) {
    MonthNumber(a) < MonthNumber(b) || (MonthNumber(a) == MonthNumber(b) && a.day < b.day)
  }

  /** Ordinals order dates as year, month and day do. */
  lemma OrdinalsOrder(a: Date, b: Date)
    requires Valid(a) && Valid(b)
    ensures Before(a, b) <==> Ordinal(a) < Ordinal(b)
    ensures a == b <==> Ordinal(a) == Ordinal(b)
  {
    if MonthNumber(a) < MonthNumber(b) {
      MonthsApart(a, b);
    } else if MonthNumber(b) < MonthNumber(a) {
      MonthsApart(b, a);
    } else {
      assert a.year == b.year && a.month == b.month;
    }
  }

  /** The calendar is the Gregorian one: the lengths of months and years. */
  lemma Gregorian(y: int, m: int)
    requires 1 <= m <= 12
    ensures DaysInMonth(y, m) ==
      if m in {1, 3, 5, 7, 8, 10, 12} then 31
      else if m != 2 then 30
      else if y % 400 == 0 || (y % 4 == 0 && y % 100 != 0) then 29
      else 28
  {
  }

  /** And it starts where it should: 1 January of year 1 is day 1, and 1 March 2000 is day 730180. */
  lemma Epoch()
    ensures Ordinal(Date(1, 1, 1)) == 1 && Ordinal(Date(2000, 3, 1)) == 730_180
  {
    assert DaysBeforeMonth(2000, 2) == 31;
    assert DaysBeforeMonth(2000, 3) == 60;
    assert DaysBeforeYear(2000) == 730_119;
  }

  // ------------------------------------------------------------ the periods

  /** A reset day of 1..28 fails for exactly two stretches: the first days of year 1 and the last ones
    * of year 9999, whose period would leave the calendar. */
  lemma BoundsFail(d: Date, resetDay: int)
    requires Valid(d)
    ensures PeriodBounds(d, resetDay).Err? <==>
      || !(1 <= resetDay <= 28)
      || (d.year == MIN_YEAR && d.month == 1 && d.day < resetDay)
      || (d.year == MAX_YEAR && d.month == 12 && d.day >= resetDay)
  {
  }

  /** The period contains the date, is as long as the month it starts in, and the index counts its
    * days from 1. */
  lemma PeriodContains(d: Date, resetDay: int)
    requires Valid(d) && PeriodBounds(d, resetDay).Ok?
    ensures var (start, end) := PeriodBounds(d, resetDay).value;
      && Valid(start) && Valid(end) && start.day == end.day == resetDay
      && Ordinal(start) <= Ordinal(d) < Ordinal(end)
      && CycleLength(d, resetDay) == Ok(DaysInMonth(start.year, start.month))
      && CycleDayIndex(d, resetDay).Ok?
      && 1 <= CycleDayIndex(d, resetDay).value <= CycleLength(d, resetDay).value
  {
    var (start, end) := PeriodBounds(d, resetDay).value;
    MonthLater(start.year, start.month, resetDay);
    OrdinalsOrder(start, d);
    OrdinalsOrder(d, end);
    OrdinalsOrder(start, end);
  }

  lemma BetweenBounds(d: Date, other: Date, resetDay: int)
    requires Valid(d) && Valid(other) && PeriodBounds(d, resetDay).Ok?
    ensures var (start, end) := PeriodBounds(d, resetDay).value;
      !Before(other, start) && Before(other, end) <==> PeriodBounds(other, resetDay) == Ok((start, end))
  {
    var (start, end) := PeriodBounds(d, resetDay).value;
    assert MonthNumber(end) == MonthNumber(start) + 1;
    if MonthNumber(other) == MonthNumber(start) {
      assert other.year == start.year && other.month == start.month;
    }
    if MonthNumber(other) == MonthNumber(end) {
      assert other.year == end.year && other.month == end.month;
    }
  }

  /** The periods partition the calendar: exactly the dates between the bounds have these same bounds,
    * and the period that contains `end` starts there. */
  lemma PeriodsPartition(d: Date, other: Date, resetDay: int)
    requires Valid(d) && Valid(other) && PeriodBounds(d, resetDay).Ok?
    ensures var (start, end) := PeriodBounds(d, resetDay).value;
      && (Ordinal(start) <= Ordinal(other) < Ordinal(end) <==> PeriodBounds(other, resetDay) == Ok((start, end)))
      && (PeriodBounds(end, resetDay).Ok? ==> PeriodBounds(end, resetDay).value.0 == end)
  {
    var bounds := PeriodBounds(d, resetDay).value;
    OrdinalsOrder(other, bounds.0);
    OrdinalsOrder(other, bounds.1);
    BetweenBounds(d, other, resetDay);
  }

  lemma IndexWithin(d: Date, other: Date, resetDay: int)
    requires Valid(d) && Valid(other) && PeriodBounds(d, resetDay).Ok?
    requires PeriodBounds(other, resetDay) == PeriodBounds(d, resetDay)
    ensures CycleDayIndex(other, resetDay).Ok? && CycleDayIndex(d, resetDay).Ok?
    ensures CycleDayIndex(other, resetDay).value - CycleDayIndex(d, resetDay).value == Ordinal(other) - Ordinal(d)
  {
  }

  lemma IndexAtStart(d: Date, resetDay: int)
    requires Valid(d) && PeriodBounds(d, resetDay).Ok? && PeriodBounds(d, resetDay).value.0 == d
    ensures CycleDayIndex(d, resetDay) == Ok(1)
  {
  }

  /** From one day to the next the cycle index steps by one, or the next day starts a period at 1. */
  lemma IndexSteps(d: Date, next: Date, resetDay: int)
    requires Valid(d) && Valid(next) && Ordinal(next) == Ordinal(d) + 1
    requires PeriodBounds(d, resetDay).Ok? && PeriodBounds(next, resetDay).Ok?
    ensures CycleDayIndex(d, resetDay).Ok?
    ensures var end := PeriodBounds(d, resetDay).value.1;
      && (next != end ==> CycleDayIndex(next, resetDay) == Ok(CycleDayIndex(d, resetDay).value + 1))
      && (next == end ==> CycleDayIndex(next, resetDay) == Ok(1) && CycleDayIndex(d, resetDay) == CycleLength(d, resetDay))
  {
    PeriodContains(d, resetDay);
    PeriodsPartition(d, next, resetDay);
    if next == PeriodBounds(d, resetDay).value.1 {
      IndexAtStart(next, resetDay);
    } else {
      OrdinalsOrder(next, PeriodBounds(d, resetDay).value.1);
      IndexWithin(d, next, resetDay);
    }
  }

  /** The ledger names a period by the month its start lies in, after clamping the reset day that
    * period_bounds would refuse. */
  lemma PeriodIsNamedByItsStart(d: Date, resetDay: int)
    requires Valid(d)
    ensures PeriodBounds(d, Clamp(resetDay)).Ok? ==>
      var start := PeriodBounds(d, Clamp(resetDay)).value.0; ResetPeriodFor(d, resetDay) == (start.year, start.month)
    ensures PeriodBounds(d, resetDay).Ok? ==> Clamp(resetDay) == resetDay
  {
  }

  /** A reset day out of range counts as the nearest one in range: below it a period is a calendar month, above it
    * the period begins on the 28th. */
  lemma NamedByTheNearest(d: Date, resetDay: int)
    requires Valid(d)
    ensures resetDay < 1 ==> ResetPeriodFor(d, resetDay) == (d.year, d.month)
    ensures resetDay > 28 ==> ResetPeriodFor(d, resetDay) == ResetPeriodFor(d, 28)
    ensures d.day >= 28 ==> ResetPeriodFor(d, resetDay) == (d.year, d.month)
  {
  }

  /** Two dates have the same name exactly when they lie in the same period. */
  lemma SameNameSamePeriod(d: Date, other: Date, resetDay: int)
    requires Valid(d) && Valid(other) && PeriodBounds(d, resetDay).Ok? && PeriodBounds(other, resetDay).Ok?
    ensures ResetPeriodFor(d, resetDay) == ResetPeriodFor(other, resetDay) <==> PeriodBounds(d, resetDay) == PeriodBounds(other, resetDay)
  {
    BetweenBounds(d, other, resetDay);
  }
}
