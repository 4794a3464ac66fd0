/** The proleptic Gregorian calendar of Python's `datetime.date`: years 1 to 9999, day
    numbers ("ordinals") counted from 0001-01-01 = 1, and the one-day steps that
    `date + timedelta(days = k)` is made of. */
module Calendar {
  import opened Errors

  const MinYear := 1
  const MaxYear := 9999
  /** Ordinal of 9999-12-31, the last date `datetime.date` can hold. */
  const MaxOrdinal := 3652059

  datatype Date = Date(year: int, month: int, day: int)

  predicate IsLeap(y: int) {
    y % 4 == 0 && (y % 100 != 0 || y % 400 == 0)
  }

  function DaysInYear(y: int): int {
    if IsLeap(y) then 366 else 365
  }

  function DaysInMonth(y: int, m: int): int
    requires 1 <= m <= 12
  {
    if m == 2 then (if IsLeap(y) then 29 else 28)
    else if m == 4 || m == 6 || m == 9 || m == 11 then 30
    else 31
  }

  predicate Valid(d: Date) {
    MinYear <= d.year <= MaxYear && 1 <= d.month <= 12 && 1 <= d.day <= DaysInMonth(d.year, d.month)
  }

  /** Days in the years before `y` (closed form, as in CPython's `_days_before_year`). */
  function DaysBeforeYear(y: int): int
    requires y >= 1
  {
    var p := y - 1;
    p * 365 + p / 4 - p / 100 + p / 400
  }

  /** Days in the months of year `y` before month `m`. */
  function DaysBeforeMonth(y: int, m: int): int
    requires 1 <= m <= 12
  {
    var table := [0, 31, 59, 90, 120, 151, 181, 212, 243, 273, 304, 334];
    table[m - 1] + (if m > 2 && IsLeap(y) then 1 else 0)
  }

  /** The day number of `d`, as `date.toordinal()`: between 1 and the day number of
      9999-12-31. */
  function Ordinal(d: Date): (r: int)
    requires Valid(d)
    ensures 1 <= r <= MaxOrdinal
  {
    YearBlock(d);
    DaysBeforeYearMonotone(d.year + 1, MaxYear + 1);
    assert DaysBeforeYear(MaxYear + 1) == MaxOrdinal;
    DaysBeforeYear(d.year) + DaysBeforeMonth(d.year, d.month) + d.day
  }

  /** A valid date lies inside its year's block of day numbers. */
  lemma YearBlock(d: Date)
    requires Valid(d)
    ensures DaysBeforeYear(d.year) < DaysBeforeYear(d.year) + DaysBeforeMonth(d.year, d.month) + d.day
                                  <= DaysBeforeYear(d.year + 1)
  {
    MonthsFitInYear(d.year, d.month);
    DaysBeforeYearStep(d.year);
  }

  /** How a quotient by a positive constant grows when the dividend grows by one. */
  lemma QuotientStep4(y: int)
    requires y >= 1
    ensures y / 4 == (y - 1) / 4 + (if y % 4 == 0 then 1 else 0)
  {
  }

  lemma QuotientStep100(y: int)
    requires y >= 1
    ensures y / 100 == (y - 1) / 100 + (if y % 100 == 0 then 1 else 0)
  {
  }

  lemma QuotientStep400(y: int)
    requires y >= 1
    ensures y / 400 == (y - 1) / 400 + (if y % 400 == 0 then 1 else 0)
  {
  }

  lemma DaysBeforeYearStep(y: int)
    requires y >= 1
    ensures DaysBeforeYear(y + 1) == DaysBeforeYear(y) + DaysInYear(y)
  {
    assert DaysBeforeYear(y + 1) == y * 365 + y / 4 - y / 100 + y / 400;
    assert DaysBeforeYear(y) == (y - 1) * 365 + (y - 1) / 4 - (y - 1) / 100 + (y - 1) / 400;
    QuotientStep4(y);
    QuotientStep100(y);
    QuotientStep400(y);
  }

  lemma {:induction false} DaysBeforeYearMonotone(a: int, b: int)
    requires 1 <= a <= b
    ensures DaysBeforeYear(a) + 365 * (b - a) <= DaysBeforeYear(b)
    decreases b - a
  {
    if a < b {
      DaysBeforeYearMonotone(a, b - 1);
      DaysBeforeYearStep(b - 1);
    }
  }

  lemma MonthStep(y: int, m: int)
    requires 1 <= m <= 12
    ensures m < 12 ==> DaysBeforeMonth(y, m + 1) == DaysBeforeMonth(y, m) + DaysInMonth(y, m)
    ensures m == 12 ==> DaysBeforeMonth(y, m) + DaysInMonth(y, m) == DaysInYear(y)
  {
  }

  lemma {:induction false} DaysBeforeMonthMonotone(y: int, a: int, b: int)
    requires 1 <= a < b <= 12
    ensures DaysBeforeMonth(y, a) + DaysInMonth(y, a) <= DaysBeforeMonth(y, b)
    decreases b - a
  {
    MonthStep(y, a);
    if a + 1 < b {
      DaysBeforeMonthMonotone(y, a + 1, b);
    }
  }

  /** The bound of `Ordinal`, stated at one date: naming it keeps the proofs below small. */
  lemma OrdinalBounds(d: Date)
    requires Valid(d)
    ensures 1 <= Ordinal(d) <= MaxOrdinal
  {
  }

  /** The months up to and including `m` fit in the year. */
  lemma MonthsFitInYear(y: int, m: int)
    requires 1 <= m <= 12
    ensures DaysBeforeMonth(y, m) + DaysInMonth(y, m) <= DaysInYear(y)
  {
    MonthStep(y, m);
    if m < 12 {
      DaysBeforeMonthMonotone(y, m, 12);
      MonthStep(y, 12);
    }
  }

  /** Day numbers grow strictly with the calendar order of dates. */
  lemma OrdinalMonotone(a: Date, b: Date)
    requires Valid(a) && Valid(b)
    requires a.year < b.year
          || (a.year == b.year && a.month < b.month)
          || (a.year == b.year && a.month == b.month && a.day < b.day)
    ensures Ordinal(a) < Ordinal(b)
  {
    if a.year < b.year {
      YearBlock(a);
      YearBlock(b);
      DaysBeforeYearMonotone(a.year + 1, b.year);
    } else if a.month < b.month {
      DaysBeforeMonthMonotone(a.year, a.month, b.month);
    }
  }

  /** Distinct valid dates have distinct day numbers. */
  lemma OrdinalInjective(a: Date, b: Date)
    requires Valid(a) && Valid(b)
    requires Ordinal(a) == Ordinal(b)
    ensures a == b
  {
    if a.year < b.year || (a.year == b.year && a.month < b.month)
       || (a.year == b.year && a.month == b.month && a.day < b.day) {
      OrdinalMonotone(a, b);
    } else if b.year < a.year || (a.year == b.year && b.month < a.month)
       || (a.year == b.year && a.month == b.month && b.day < a.day) {
      OrdinalMonotone(b, a);
    }
  }

  /** The next calendar day; fails past 9999-12-31. */
  function Succ(d: Date): (r: Result<Date>)
    requires Valid(d)
    ensures r.Ok? <==> Ordinal(d) < MaxOrdinal
    ensures r.Err? ==> r.error == DateOutOfRange
    ensures r.Ok? ==> Valid(r.value) && Ordinal(r.value) == Ordinal(d) + 1
  {
    if d.day < DaysInMonth(d.year, d.month) then
      var e := Date(d.year, d.month, d.day + 1);
      OrdinalBounds(e);
      Ok(e)
    else if d.month < 12 then
      var e := Date(d.year, d.month + 1, 1);
      MonthStep(d.year, d.month);
      OrdinalBounds(e);
      Ok(e)
    else if d.year < MaxYear then
      var e := Date(d.year + 1, 1, 1);
      MonthStep(d.year, 12);
      DaysBeforeYearStep(d.year);
      OrdinalBounds(e);
      Ok(e)
    else
      assert d == Date(MaxYear, 12, 31);
      Err(DateOutOfRange)
  }

  /** The previous calendar day; fails before 0001-01-01. */
  function Pred(d: Date): (r: Result<Date>)
    requires Valid(d)
    ensures r.Ok? <==> Ordinal(d) > 1
    ensures r.Err? ==> r.error == DateOutOfRange
    ensures r.Ok? ==> Valid(r.value) && Ordinal(r.value) == Ordinal(d) - 1
  {
    if d.day > 1 then
      var e := Date(d.year, d.month, d.day - 1);
      OrdinalBounds(e);
      Ok(e)
    else if d.month > 1 then
      var e := Date(d.year, d.month - 1, DaysInMonth(d.year, d.month - 1));
      MonthStep(d.year, d.month - 1);
      OrdinalBounds(e);
      Ok(e)
    else if d.year > MinYear then
      var e := Date(d.year - 1, 12, 31);
      MonthStep(d.year - 1, 12);
      DaysBeforeYearStep(d.year - 1);
      OrdinalBounds(e);
      Ok(e)
    else
      assert d == Date(MinYear, 1, 1);
      Err(DateOutOfRange)
  }

  /** `d + timedelta(days = k)`: k steps forward (or -k back), failing once the result
      leaves the range of `datetime.date`. */
  function Shift(d: Date, k: int): (r: Result<Date>)
    requires Valid(d)
    ensures r.Ok? <==> 1 <= Ordinal(d) + k <= MaxOrdinal
    ensures r.Err? ==> r.error == DateOutOfRange
    ensures r.Ok? ==> Valid(r.value) && Ordinal(r.value) == Ordinal(d) + k
    decreases if k < 0 then -k else k
  {
    if k == 0 then Ok(d)
    else if k > 0 then
      match Succ(d)
      case Err(e) => Err(e)
      case Ok(e) => Shift(e, k - 1)
    else
      match Pred(d)
      case Err(e) => Err(e)
      case Ok(e) => Shift(e, k + 1)
  }

  /** Shifting is determined by the day number alone. */
  lemma {:induction false} ShiftByOrdinal(d: Date, k: int, e: Date)
    requires Valid(d) && Valid(e)
    requires Ordinal(e) == Ordinal(d) + k
    ensures Shift(d, k) == Ok(e)
  {
    OrdinalInjective(Shift(d, k).value, e);
  }

  /** Shifting by k and then by -k returns to the starting date. */
  lemma {:induction false} ShiftRoundTrip(d: Date, k: int)
    requires Valid(d) && Shift(d, k).Ok?
    ensures Shift(Shift(d, k).value, -k) == Ok(d)
  {
    ShiftByOrdinal(Shift(d, k).value, -k, d);
  }

  /** A one-day shift is the calendar successor: the day advances within the month,
      otherwise the month rolls over to day 1, and December 31 rolls into January 1. */
  lemma ShiftOneIsSuccessor(d: Date)
    requires Valid(d)
    ensures Shift(d, 1) == Succ(d)
  {
    var s := Succ(d);
    if s.Ok? {
      assert Shift(s.value, 0) == Ok(s.value);
    }
  }

  /** The day advances within the month, otherwise the month rolls over to day 1, and
      December 31 rolls into January 1 of the next year. */
  lemma SuccessorRollsOver(d: Date)
    requires Valid(d)
    ensures d.day < DaysInMonth(d.year, d.month) ==> Shift(d, 1) == Ok(Date(d.year, d.month, d.day + 1))
    ensures d.day == DaysInMonth(d.year, d.month) && d.month < 12 ==> Shift(d, 1) == Ok(Date(d.year, d.month + 1, 1))
    ensures d.month == 12 && d.day == 31 && d.year < MaxYear ==> Shift(d, 1) == Ok(Date(d.year + 1, 1, 1))
  {
    ShiftOneIsSuccessor(d);
  }

  /** February 29 exists exactly in leap years, which drop every century not divisible by 400. */
  lemma LeapDays()
    ensures Valid(Date(2020, 2, 29)) && Valid(Date(2000, 2, 29))
    ensures !Valid(Date(2021, 2, 29)) && !Valid(Date(1900, 2, 29))
    ensures Shift(Date(2020, 2, 28), 1) == Ok(Date(2020, 2, 29))
    ensures Shift(Date(2021, 2, 28), 1) == Ok(Date(2021, 3, 1))
  {
    SuccessorRollsOver(Date(2020, 2, 28));
    SuccessorRollsOver(Date(2021, 2, 28));
  }
}
