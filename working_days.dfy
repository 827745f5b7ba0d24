/** `calculate_total_working_days`: the number of days from `start_date` to
    `end_date`, both included, that fall on Monday to Friday and are not in
    the fixed list of 2025 public holidays. Dates are proleptic Gregorian
    ordinals, as `date.toordinal()` numbers them (0001-01-01 is day 1). */
module WorkingDays {
  import opened Outcomes
  import opened Strings

  /** `date.max.toordinal()`, the ordinal of 9999-12-31. */
  const MaxOrdinal := 3652059

  /** A day `datetime.date` can represent. */
  type Ordinal = o: int | 1 <= o <= MaxOrdinal witness 1

  /** A calendar date, `date(year, month, day)`. */
  datatype Date = Date(year: int, month: int, day: int)

  predicate IsLeap(y: int) {
    y % 4 == 0 && (y % 100 != 0 || y % 400 == 0)
  }

  function DaysInMonth(y: int, m: int): int
    requires 1 <= m <= 12
  {
    if m == 2 then (if IsLeap(y) then 29 else 28)
    else if m == 4 || m == 6 || m == 9 || m == 11 then 30
    else 31
  }

  /** The dates `datetime.date` accepts. */
  predicate ValidDate(d: Date) {
    1 <= d.year <= 9999 && 1 <= d.month <= 12 && 1 <= d.day <= DaysInMonth(d.year, d.month)
  }

  /** Days in the months of year `y` before month `m`. */
  function DaysBeforeMonth(y: int, m: int): (r: int)
    requires 1 <= m <= 12
    ensures 0 <= r <= 335
    ensures m == 12 && !IsLeap(y) ==> r == 334
  {
    var table := [0, 31, 59, 90, 120, 151, 181, 212, 243, 273, 304, 334];
    table[m - 1] + (if m > 2 && IsLeap(y) then 1 else 0)
  }

  /** Days in the years before year `y`. */
  function DaysBeforeYear(y: int): int
    requires 1 <= y
  {
    var y1 := y - 1;
    y1 * 365 + y1 / 4 - y1 / 100 + y1 / 400
  }

  /** `date.toordinal()`: every valid date has an ordinal `date` can
      represent; the first and the last valid dates are days 1 and
      `MaxOrdinal`. */
  function ToOrdinal(d: Date): (o: int)
    requires ValidDate(d)
    ensures 1 <= o <= MaxOrdinal
    ensures d == Date(1, 1, 1) ==> o == 1
    ensures d == Date(9999, 12, 31) ==> o == MaxOrdinal
  {
    DaysBeforeYearBound(d.year);
    DaysBeforeYear(d.year) + DaysBeforeMonth(d.year, d.month) + d.day
  }

  lemma DaysBeforeYearBound(y: int)
    requires 1 <= y <= 9999
    ensures 0 <= DaysBeforeYear(y) <= DaysBeforeYear(9999) == 3651694
  {
    var y1 := y - 1;
    assert y1 / 400 <= y1 / 100;
    assert y1 / 4 - y1 / 100 <= (9998 - y1) / 4 + y1 / 4 - y1 / 100;
  }

  /** `date.weekday()`: Monday is 0 and Sunday 6. */
  function Weekday(o: int): (w: int)
    ensures 0 <= w < 7
  {
    (o + 6) % 7
  }

  /** The `public_holidays` list: 1 January, 29-31 March, 23 April, 1 and
      19 May, 5-9 June, 15 July, 30 August, 28-29 September and
      31 December 2025. */
  const PublicHolidays: seq<int> := [
    739252, 739339, 739340, 739341, 739364, 739372, 739390, 739407, 739408,
    739409, 739410, 739411, 739447, 739493, 739522, 739523, 739616]

  /** The holiday list is the ordinals of those 2025 dates. */
  lemma PublicHolidayDates()
    ensures PublicHolidays == [
      ToOrdinal(Date(2025, 1, 1)), ToOrdinal(Date(2025, 3, 29)), ToOrdinal(Date(2025, 3, 30)),
      ToOrdinal(Date(2025, 3, 31)), ToOrdinal(Date(2025, 4, 23)), ToOrdinal(Date(2025, 5, 1)),
      ToOrdinal(Date(2025, 5, 19)), ToOrdinal(Date(2025, 6, 5)), ToOrdinal(Date(2025, 6, 6)),
      ToOrdinal(Date(2025, 6, 7)), ToOrdinal(Date(2025, 6, 8)), ToOrdinal(Date(2025, 6, 9)),
      ToOrdinal(Date(2025, 7, 15)), ToOrdinal(Date(2025, 8, 30)), ToOrdinal(Date(2025, 9, 28)),
      ToOrdinal(Date(2025, 9, 29)), ToOrdinal(Date(2025, 12, 31))]
  {
  }

  /** A day the loop counts. */
  predicate IsWorkingDay(o: int) {
    Weekday(o) < 5 && o !in PublicHolidays
  }

  /** The working days from `a` to `b`, both included. */
  function WorkingDays(a: int, b: int): (n: nat)
    ensures a > b ==> n == 0
    ensures a <= b ==> n <= b - a + 1
    decreases b - a
  {
    if a > b then 0 else WorkingDays(a, b - 1) + (if IsWorkingDay(b) then 1 else 0)
  }

  /** `str(OverflowError)` when `current_date += timedelta(days=1)` steps
      past `date.max`. */
  const OutOfRange := "date value out of range"

  /** What the function returns, or the error it raises: the loop counts
      every day up to `end_date` and then steps one day further, which
      overflows when `end_date` is `date.max`. */
  function TotalWorkingDays(start: Ordinal, end: Ordinal): (r: Outcome<nat>)
    ensures r.Raised? <==> start <= end && end == MaxOrdinal
    ensures r.Raised? ==> r.message == OutOfRange
    ensures r.Ok? ==> r.value == |WorkingDaySet(start, end)|
  {
    WorkingDaysCountsSet(start, end);
    if start <= end && end == MaxOrdinal then Raised(OutOfRange) else Ok(WorkingDays(start, end))
  }

  method CalculateTotalWorkingDays(start: Ordinal, end: Ordinal) returns (r: Outcome<nat>)
    ensures r == TotalWorkingDays(start, end)
  {
    var count: nat := 0;
    var current: int := start;
    while current <= end
      invariant start <= current <= end + 1 || current == start
      invariant current <= MaxOrdinal
      invariant count == WorkingDays(start, current - 1)
      decreases end - current
    {
      if Weekday(current) < 5 && current !in PublicHolidays {
        count := count + 1;
      }
      if current == MaxOrdinal {
        return Raised(OutOfRange);
      }
      current := current + 1;
    }
    return Ok(count);
  }

  /** Counting from `a` to `c` is counting from `a` to `b` and then from
      the day after `b` to `c`. */
  lemma {:induction false} WorkingDaysSplit(a: int, b: int, c: int)
    requires a - 1 <= b <= c
    ensures WorkingDays(a, c) == WorkingDays(a, b) + WorkingDays(b + 1, c)
    decreases c - b
  {
    if b < c {
      WorkingDaysSplit(a, b, c - 1);
    }
  }

  /** Moving `end_date` later never lowers the count. */
  lemma WorkingDaysMonotone(a: int, b: int, c: int)
    requires b <= c
    ensures WorkingDays(a, b) <= WorkingDays(a, c)
  {
    if a <= b {
      WorkingDaysSplit(a, b, c);
    }
  }

  /** A one-day range counts 1 exactly for a weekday that is not a
      holiday. */
  lemma SingleDay(d: int)
    ensures WorkingDays(d, d) == (if Weekday(d) < 5 && d !in PublicHolidays then 1 else 0)
  {
  }

  /** A Saturday, a Sunday or a holiday inside the range adds nothing: the
      count is that of the days before it plus the days after it. */
  lemma NonWorkingDayNotCounted(a: int, d: int, b: int)
    requires a <= d <= b
    requires Weekday(d) >= 5 || d in PublicHolidays
    ensures WorkingDays(a, b) == WorkingDays(a, d - 1) + WorkingDays(d + 1, b)
  {
    WorkingDaysSplit(a, d, b);
    WorkingDaysSplit(a, d - 1, d);
  }

  /** The working days from `a` to `b`, as a set. */
  function WorkingDaySet(a: int, b: int): set<int> {
    set d | a <= d <= b && IsWorkingDay(d)
  }

  lemma WorkingDaySetStep(a: int, b: int)
    requires a <= b
    ensures WorkingDaySet(a, b) == WorkingDaySet(a, b - 1) + (if IsWorkingDay(b) then {b} else {})
    ensures b !in WorkingDaySet(a, b - 1)
  {
  }

  lemma WorkingDaySetEmpty(a: int, b: int)
    requires a > b
    ensures WorkingDaySet(a, b) == {}
  {
    forall d | d in WorkingDaySet(a, b) ensures false { }
  }

  /** The count is the number of working days in the range. */
  lemma {:induction false} WorkingDaysCountsSet(a: int, b: int)
    ensures WorkingDays(a, b) == |WorkingDaySet(a, b)|
    decreases b - a
  {
    if a <= b {
      WorkingDaysCountsSet(a, b - 1);
      WorkingDaySetStep(a, b);
    } else {
      WorkingDaySetEmpty(a, b);
    }
  }

  /** `date.__str__`, the ISO form `YYYY-MM-DD`. */
  function IsoFormat(d: Date): (s: string)
    requires ValidDate(d)
    ensures |s| == 10 && s[4] == '-' && s[7] == '-'
    ensures forall i :: 0 <= i < 10 && i != 4 && i != 7 ==> '0' <= s[i] <= '9'
    ensures DigitsValue(s[..4]) == d.year && DigitsValue(s[5..7]) == d.month && DigitsValue(s[8..]) == d.day
  {
    assert Pow10(4) == 10000 && Pow10(2) == 100;
    DashJoin(ZeroPad(d.year, 4), ZeroPad(d.month, 2), ZeroPad(d.day, 2))
  }

  /** `y-m-d` for fields of widths 4, 2 and 2: each field sits at its fixed
      place, between the dashes. */
  function DashJoin(y: string, m: string, dd: string): (s: string)
    requires |y| == 4 && |m| == 2 && |dd| == 2
    ensures |s| == 10 && s[4] == '-' && s[7] == '-'
    ensures s[..4] == y && s[5..7] == m && s[8..] == dd
  {
    var s := y + "-" + m + "-" + dd;
    assert s[..4] == y && s[5..7] == m && s[8..] == dd;
    s
  }

}
