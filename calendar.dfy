/**
 * Calendar arithmetic on proleptic Gregorian dates, as Python's `datetime.date`
 * does it: `replace(day=1)`, subtraction of a `timedelta` of whole days, and
 * the day ordinal (`toordinal`, 0001-01-01 is day 1) used as the reference
 * meaning of a date. Also the two rules for the month of a dashboard bucket:
 * the thirty-day steps of app.py:109 as written, and whole calendar months.
 */
module Calendar {
  import opened Wrappers

  /** `datetime.MINYEAR` and `datetime.MAXYEAR`. */
  const MinYear: int := 1
  const MaxYear: int := 9999

  datatype Date = Date(year: int, month: int, day: int)

  predicate IsLeapYear(y: int) {
    y % 4 == 0 && (y % 100 != 0 || y % 400 == 0)
  }

  function DaysInMonth(y: int, m: int): (n: int)
    requires 1 <= m <= 12
    ensures 28 <= n <= 31
    ensures n < 30 <==> m == 2
  {
    if m == 2 then (if IsLeapYear(y) then 29 else 28)
    else if m == 4 || m == 6 || m == 9 || m == 11 then 30
    else 31
  }

  function DaysInYear(y: int): int {
    if IsLeapYear(y) then 366 else 365
  }

  /** A date that `datetime.date` can represent. */
  predicate ValidDate(d: Date) {
    && MinYear <= d.year <= MaxYear
    && 1 <= d.month <= 12
    && 1 <= d.day <= DaysInMonth(d.year, d.month)
  }

  type CalDate = d: Date | ValidDate(d) witness Date(1970, 1, 1)

  /** Days in the months of year `y` that come before month `m`. */
  function DaysBeforeMonth(y: int, m: int): int
    requires 1 <= m <= 12
  {
    var cumulative := [0, 31, 59, 90, 120, 151, 181, 212, 243, 273, 304, 334];
    cumulative[m - 1] + (if m > 2 && IsLeapYear(y) then 1 else 0)
  }

  /** Days in the years 1 .. y-1. */
  function DaysBeforeYear(y: int): (n: int)
    requires y >= 1
    ensures n >= 365 * (y - 1)
  {
    if y == 1 then 0 else DaysBeforeYear(y - 1) + DaysInYear(y - 1)
  }

  /** The day number of a date, 0001-01-01 being day 1 (Python's `date.toordinal`). */
  function Ordinal(d: Date): int
    requires d.year >= 1 && 1 <= d.month <= 12
  {
    DaysBeforeYear(d.year) + DaysBeforeMonth(d.year, d.month) + d.day
  }

  /** `d.replace(day=1)`. */
  function FirstOfMonth(d: CalDate): (r: CalDate)
    ensures Ordinal(r) == Ordinal(d) - d.day + 1
    ensures MonthIndex(r) == MonthIndex(d)
  {
    d.(day := 1)
  }

  /** The last day of the month before that of `d`; there is none before January of year 1. */
  function LastOfPreviousMonth(d: CalDate): (r: CalDate)
    requires !(d.year == MinYear && d.month == 1)
    ensures Ordinal(r) == Ordinal(d) - d.day
  {
    if d.month == 1 then
      assert DaysBeforeYear(d.year) == DaysBeforeYear(d.year - 1) + DaysInYear(d.year - 1);
      Date(d.year - 1, 12, 31)
    else
      Date(d.year, d.month - 1, DaysInMonth(d.year, d.month - 1))
  }

  /**
   * `d - timedelta(days=n)`: the date `n` days before `d`, or None where
   * Python raises OverflowError because the result would precede 0001-01-01.
   */
  function SubtractDays(d: CalDate, n: nat): (r: Option<CalDate>)
    ensures r.Some? <==> Ordinal(d) - n >= 1
    ensures r.Some? ==> Ordinal(r.value) == Ordinal(d) - n
    decreases n
  {
    if n < d.day then Some(d.(day := d.day - n))
    else if d.year == MinYear && d.month == 1 then None
    else SubtractDays(LastOfPreviousMonth(d), n - d.day)
  }

  /** Months counted from January of year 0: the month a date falls in, as one number. */
  function MonthIndex(d: Date): int {
    d.year * 12 + d.month - 1
  }

  /** The first day of the month with index `q`. */
  function MonthStart(q: int): (r: Date)
    requires q >= 12
    ensures r.year >= 1 && 1 <= r.month <= 12 && r.day == 1
    ensures MonthIndex(r) == q
  {
    Date(q / 12, q % 12 + 1, 1)
  }

  /** The month index of a year and month leads back to that year and month. */
  lemma MonthStartOf(y: int, m: int)
    requires y >= 1 && 1 <= m <= 12
    ensures MonthStart(y * 12 + m - 1) == Date(y, m, 1)
  {
    var r := MonthStart(y * 12 + m - 1);
    assert MonthIndex(r) == MonthIndex(Date(y, m, 1));
  }

  /** The first day of a month, on the proleptic calendar (a year past MaxYear is allowed). */
  predicate IsMonthStart(d: Date) {
    d.year >= 1 && 1 <= d.month <= 12 && d.day == 1
  }

  /** The first day of the month after that of `d`. */
  function NextMonth(d: Date): (r: Date)
    requires d.year >= 1 && 1 <= d.month <= 12
    ensures IsMonthStart(r) && MonthIndex(r) == MonthIndex(d) + 1
  {
    if d.month == 12 then Date(d.year + 1, 1, 1) else Date(d.year, d.month + 1, 1)
  }

  /** A month starts where the one before it ends. */
  lemma NextMonthStep(d: Date)
    requires IsMonthStart(d)
    ensures Ordinal(NextMonth(d)) == Ordinal(d) + DaysInMonth(d.year, d.month)
  {
    if d.month == 12 {
      assert DaysBeforeYear(d.year + 1) == DaysBeforeYear(d.year) + DaysInYear(d.year);
    }
  }

  /** Between the starts of two months lie 28 to 31 days per month. */
  lemma {:induction false} MonthStartSpan(a: Date, b: Date)
    requires IsMonthStart(a) && IsMonthStart(b) && MonthIndex(a) <= MonthIndex(b)
    ensures 28 * (MonthIndex(b) - MonthIndex(a)) <= Ordinal(b) - Ordinal(a) <= 31 * (MonthIndex(b) - MonthIndex(a))
    decreases MonthIndex(b) - MonthIndex(a)
  {
    if MonthIndex(a) < MonthIndex(b) {
      MonthStartSpan(NextMonth(a), b);
      NextMonthStep(a);
    } else {
      assert a == b;
    }
  }

  /** A valid date lies in its month: on or after its first day, before the next month's. */
  lemma DateInMonth(d: CalDate)
    ensures Ordinal(FirstOfMonth(d)) <= Ordinal(d) < Ordinal(NextMonth(d))
  {
    NextMonthStep(FirstOfMonth(d));
  }

  /** Earlier-or-equal by day number is never in a later month. */
  lemma {:induction false} MonthIndexMonotone(a: CalDate, b: CalDate)
    requires Ordinal(a) <= Ordinal(b)
    ensures MonthIndex(a) <= MonthIndex(b)
  {
    if MonthIndex(a) > MonthIndex(b) {
      DateInMonth(a);
      DateInMonth(b);
      MonthStartSpan(NextMonth(b), FirstOfMonth(a));
      assert false;
    }
  }

  /** The day number identifies a valid date (so SubtractDays's contract determines its result). */
  lemma OrdinalInjective(a: CalDate, b: CalDate)
    requires Ordinal(a) == Ordinal(b)
    ensures a == b
  {
    MonthIndexMonotone(a, b);
    MonthIndexMonotone(b, a);
    assert a.year == b.year && a.month == b.month;
  }

  /** How the month of a dashboard bucket is found. */
  datatype BucketRule =
    | ThirtyDaySteps   // app.py:109 as written
    | CalendarMonths   // whole calendar months, the evidently intended rule

  /**
   * app.py:109 as written: `(today.replace(day=1) - timedelta(days=i*30)).replace(day=1)`.
   * None where the subtraction overflows.
   */
  function ThirtyDayBucket(today: CalDate, i: nat): (r: Option<CalDate>)
    ensures r.Some? <==> Ordinal(FirstOfMonth(today)) - 30 * i >= 1
    ensures r.Some? ==> r.value.day == 1
    ensures r.Some? ==> Ordinal(r.value) <= Ordinal(FirstOfMonth(today)) - 30 * i < Ordinal(NextMonth(r.value))
  {
    match SubtractDays(FirstOfMonth(today), 30 * i)
    case None => None
    case Some(d) => DateInMonth(d); Some(FirstOfMonth(d))
  }

  /** The first day of the month exactly `i` calendar months before that of `today`. */
  function CalendarBucket(today: CalDate, i: nat): (r: Option<CalDate>)
    ensures r.Some? <==> MonthIndex(today) - i >= 12
    ensures r.Some? ==> r.value.day == 1 && MonthIndex(r.value) == MonthIndex(today) - i
  {
    var q := MonthIndex(today) - i;
    if q < 12 then None else Some(MonthStart(q))
  }

  function BucketMonth(rule: BucketRule, today: CalDate, i: nat): Option<CalDate> {
    match rule
    case ThirtyDaySteps => ThirtyDayBucket(today, i)
    case CalendarMonths => CalendarBucket(today, i)
  }

  /** Under either rule the newest bucket (i = 0) is the current month. */
  lemma NewestBucketIsCurrentMonth(rule: BucketRule, today: CalDate)
    ensures BucketMonth(rule, today, 0) == Some(FirstOfMonth(today))
  {
    MonthStartOf(today.year, today.month);
  }

  /** Thirty-day buckets never go forward in time as i decreases (oldest to newest). */
  lemma ThirtyDayBucketsNonDecreasing(today: CalDate, i: nat, j: nat)
    requires j <= i
    requires ThirtyDayBucket(today, i).Some?
    ensures ThirtyDayBucket(today, j).Some?
    ensures MonthIndex(ThirtyDayBucket(today, i).value) <= MonthIndex(ThirtyDayBucket(today, j).value)
  {
    var first := FirstOfMonth(today);
    var di := SubtractDays(first, 30 * i).value;
    var dj := SubtractDays(first, 30 * j).value;
    MonthIndexMonotone(di, dj);
  }

  /** k months of at most 31 days cover 30 * i days only if k >= i, for i up to 30. */
  lemma MonthsFromDays(i: int, k: int)
    requires 0 <= i <= 30
    requires 30 * i <= 31 * k
    ensures k >= i
  {
  }

  /** A day 30 * i days before the first of a month lies at least i months back, for i up to 30. */
  lemma ThirtyDayStepsAtLeast(first: CalDate, d: CalDate, i: nat)
    requires i <= 30 && first.day == 1
    requires Ordinal(d) == Ordinal(first) - 30 * i
    ensures MonthIndex(d) <= MonthIndex(first) - i
  {
    MonthIndexMonotone(d, first);
    DateInMonth(d);
    MonthStartSpan(FirstOfMonth(d), first);
    MonthsFromDays(i, MonthIndex(first) - MonthIndex(d));
  }

  /** A day 30 * i days before the first of a month lies at most i+1 months back, for i up to 14. */
  lemma ThirtyDayStepsAtMost(first: CalDate, d: CalDate, i: nat)
    requires i <= 14 && first.day == 1
    requires Ordinal(d) == Ordinal(first) - 30 * i
    ensures MonthIndex(first) - i - 1 <= MonthIndex(d)
  {
    if MonthIndex(d) + 1 < MonthIndex(first) - i {
      DateInMonth(d);
      MonthStartSpan(NextMonth(d), first);
    }
  }

  /**
   * What app.py:109 does guarantee: for i up to 14 (the source uses 0..5) the
   * bucket lies i or i+1 calendar months before the current month, never fewer.
   */
  lemma ThirtyDayBucketDrift(today: CalDate, i: nat)
    requires i <= 14
    requires ThirtyDayBucket(today, i).Some?
    ensures MonthIndex(today) - i - 1 <= MonthIndex(ThirtyDayBucket(today, i).value) <= MonthIndex(today) - i
  {
    var first := FirstOfMonth(today);
    var d := SubtractDays(first, 30 * i).value;
    ThirtyDayStepsAtLeast(first, d, i);
    ThirtyDayStepsAtMost(first, d, i);
  }

  /** The date with day number `Ordinal(d) - n` is the one `n` days before `d`. */
  lemma SubtractDaysAt(d: CalDate, n: nat, t: CalDate)
    requires Ordinal(t) == Ordinal(d) - n
    ensures SubtractDays(d, n) == Some(t)
  {
    assert Ordinal(t) >= 1;
    OrdinalInjective(SubtractDays(d, n).value, t);
  }

  /** The thirty-day bucket is the month of the date whose day number is 30 * i less. */
  lemma ThirtyDayBucketAt(today: CalDate, i: nat, t: CalDate)
    requires Ordinal(t) == Ordinal(FirstOfMonth(today)) - 30 * i
    ensures ThirtyDayBucket(today, i) == Some(FirstOfMonth(t))
  {
    SubtractDaysAt(FirstOfMonth(today), 30 * i, t);
  }

  /** When the previous month is February, the bucket one step back is January: February is skipped. */
  lemma ThirtyDayBucketSkipsFebruary(today: CalDate)
    requires today.month == 3
    ensures ThirtyDayBucket(today, 1) == Some(Date(today.year, 1, 1))
    ensures ThirtyDayBucket(today, 0) == Some(Date(today.year, 3, 1))
  {
    var y := today.year;
    ThirtyDayBucketAt(today, 1, Date(y, 1, if IsLeapYear(y) then 31 else 30));
  }

  /** The series for 2024-03-15 under the rule as written: Oct, Nov, Dec, Jan, Jan, Mar. */
  lemma ThirtyDaySeriesForMarch2024(today: CalDate)
    requires today == Date(2024, 3, 15)
    ensures ThirtyDayBucket(today, 5) == Some(Date(2023, 10, 1))
    ensures ThirtyDayBucket(today, 4) == Some(Date(2023, 11, 1))
    ensures ThirtyDayBucket(today, 3) == Some(Date(2023, 12, 1))
    ensures ThirtyDayBucket(today, 2) == Some(Date(2024, 1, 1))
    ensures ThirtyDayBucket(today, 1) == Some(Date(2024, 1, 1))
    ensures ThirtyDayBucket(today, 0) == Some(Date(2024, 3, 1))
  {
    assert DaysBeforeYear(2024) == DaysBeforeYear(2023) + 365;
    ThirtyDayBucketAt(today, 5, Date(2023, 10, 3));
    ThirtyDayBucketAt(today, 4, Date(2023, 11, 2));
    ThirtyDayBucketAt(today, 3, Date(2023, 12, 2));
    ThirtyDayBucketAt(today, 2, Date(2024, 1, 1));
    ThirtyDayBucketAt(today, 1, Date(2024, 1, 31));
  }

  /** The series for 2024-03-15 by calendar months: Oct 2023 through Mar 2024, one each. */
  lemma CalendarSeriesForMarch2024()
    ensures CalendarBucket(Date(2024, 3, 15), 5) == Some(Date(2023, 10, 1))
    ensures CalendarBucket(Date(2024, 3, 15), 4) == Some(Date(2023, 11, 1))
    ensures CalendarBucket(Date(2024, 3, 15), 3) == Some(Date(2023, 12, 1))
    ensures CalendarBucket(Date(2024, 3, 15), 2) == Some(Date(2024, 1, 1))
    ensures CalendarBucket(Date(2024, 3, 15), 1) == Some(Date(2024, 2, 1))
    ensures CalendarBucket(Date(2024, 3, 15), 0) == Some(Date(2024, 3, 1))
  {
    MonthStartOf(2023, 10);
    MonthStartOf(2023, 11);
    MonthStartOf(2023, 12);
    MonthStartOf(2024, 1);
    MonthStartOf(2024, 2);
    MonthStartOf(2024, 3);
  }

  /** Calendar-month buckets are consecutive months: each is exactly one month after the one before it. */
  lemma CalendarBucketsConsecutive(today: CalDate, i: nat)
    requires i >= 1 && CalendarBucket(today, i).Some?
    ensures CalendarBucket(today, i - 1).Some?
    ensures MonthIndex(CalendarBucket(today, i - 1).value) == MonthIndex(CalendarBucket(today, i).value) + 1
  {
  }

  /** Under either rule the bucket months never go back in time from the oldest bucket to the newest. */
  lemma BucketMonthsNonDecreasing(rule: BucketRule, today: CalDate, i: nat, j: nat)
    requires j <= i && BucketMonth(rule, today, i).Some?
    ensures BucketMonth(rule, today, j).Some?
    ensures MonthIndex(BucketMonth(rule, today, i).value) <= MonthIndex(BucketMonth(rule, today, j).value)
  {
    if rule == ThirtyDaySteps {
      ThirtyDayBucketsNonDecreasing(today, i, j);
    }
  }
}
