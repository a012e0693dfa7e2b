/** Calendar dates as Python's `datetime.date` holds them (years 1 to 9999,
    proleptic Gregorian), their order, the report periods built from them,
    and the "last day of the previous month" step of the monthly e-mail. */
module Calendar {
  import opened Wrappers

  datatype Date = Date(year: int, month: int, day: int)

  const MinYear: int := 1
  const MaxYear: int := 9999

  predicate IsLeapYear(y: int)
  {
    y % 4 == 0 && (y % 100 != 0 || y % 400 == 0)
  }

  function DaysInMonth(y: int, m: int): (n: int)
    requires 1 <= m <= 12
    ensures 28 <= n <= 31
    ensures m == 2 ==> (n == 29 <==> IsLeapYear(y))
  {
    if m == 2 then (if IsLeapYear(y) then 29 else 28)
    else if m == 4 || m == 6 || m == 9 || m == 11 then 30
    else 31
  }

  /** A date that `datetime.date` can represent. */
  predicate Valid(d: Date)
  {
    && MinYear <= d.year <= MaxYear
    && 1 <= d.month <= 12
    && 1 <= d.day <= DaysInMonth(d.year, d.month)
  }

  /** Chronological order: year, then month, then day. */
  predicate Le(a: Date, b: Date)
  {
    a.year < b.year
    || (a.year == b.year && (a.month < b.month || (a.month == b.month && a.day <= b.day)))
  }

  predicate Lt(a: Date, b: Date)
  {
    !Le(b, a)
  }

  lemma LeTotalOrder(a: Date, b: Date, c: Date)
    ensures Le(a, a)
    ensures Le(a, b) || Le(b, a)
    ensures Le(a, b) && Le(b, a) ==> a == b
    ensures Le(a, b) && Le(b, c) ==> Le(a, c)
  {
  }

  /** The two ways the application selects rows by date: SQL `between`
      (both ends included) and `extract(year) == y and extract(month) == m`. */
  datatype Period = Interval(start: Date, end: Date) | Month(year: int, month: int)
  {
    predicate Contains(d: Date)
    {
      match this
      case Interval(s, e) => Le(s, d) && Le(d, e)
      case Month(y, m) => d.year == y && d.month == m
    }
  }

  /** Both ends of an interval belong to it, and nothing else is checked:
      an inverted interval is accepted and contains no date at all. */
  lemma IntervalInclusive(s: Date, e: Date, d: Date)
    ensures Le(s, e) ==> Interval(s, e).Contains(s) && Interval(s, e).Contains(e)
    ensures Lt(e, s) ==> !Interval(s, e).Contains(d)
  {
  }

  /** A month period selects the same valid dates as the interval from its
      first to its last day. */
  lemma MonthIsInterval(y: int, m: int, d: Date)
    requires 1 <= m <= 12
    requires Valid(d)
    ensures Month(y, m).Contains(d)
        <==> Interval(Date(y, m, 1), Date(y, m, DaysInMonth(y, m))).Contains(d)
  {
  }

  /** `d + timedelta(days=1)`; None where Python raises OverflowError. */
  function NextDay(d: Date): (r: Option<Date>)
    requires Valid(d)
    ensures r.None? <==> d == Date(MaxYear, 12, 31)
    ensures r.Some? ==> Valid(r.value) && Lt(d, r.value)
  {
    if d.day < DaysInMonth(d.year, d.month) then Some(Date(d.year, d.month, d.day + 1))
    else if d.month < 12 then Some(Date(d.year, d.month + 1, 1))
    else if d.year < MaxYear then Some(Date(d.year + 1, 1, 1))
    else None
  }

  /** `d - timedelta(days=1)`; None where Python raises OverflowError. */
  function PrevDay(d: Date): (r: Option<Date>)
    requires Valid(d)
    ensures r.None? <==> d == Date(MinYear, 1, 1)
    ensures r.Some? ==> Valid(r.value) && Lt(r.value, d)
  {
    if d.day > 1 then Some(Date(d.year, d.month, d.day - 1))
    else if d.month > 1 then Some(Date(d.year, d.month - 1, DaysInMonth(d.year, d.month - 1)))
    else if d.year > MinYear then Some(Date(d.year - 1, 12, 31))
    else None
  }

  /** Stepping back one day undoes stepping forward one day, and the other
      way round. */
  lemma PrevDayNextDayInverse(d: Date)
    requires Valid(d)
    ensures NextDay(d).Some? ==> PrevDay(NextDay(d).value) == Some(d)
    ensures PrevDay(d).Some? ==> NextDay(PrevDay(d).value) == Some(d)
  {
  }

  /** No valid date lies strictly between a date and the day before it. */
  lemma PrevDayIsImmediate(d: Date, x: Date)
    requires Valid(d) && Valid(x)
    requires PrevDay(d).Some?
    ensures Lt(PrevDay(d).value, x) ==> Le(d, x)
  {
  }

  /** The (year, month) of the monthly e-mail report: the month of the day
      before the first day of the current month. None where Python's date
      arithmetic overflows (January of year 1). */
  function ReportMonth(today: Date): (r: Option<(int, int)>)
    requires Valid(today)
    ensures today.month > 1 ==> r == Some((today.year, today.month - 1))
    ensures today.month == 1 && today.year > MinYear ==> r == Some((today.year - 1, 12))
    ensures r.None? <==> today.month == 1 && today.year == MinYear
    ensures r.Some? ==> 1 <= r.value.1 <= 12 && MinYear <= r.value.0 <= MaxYear
  {
    match PrevDay(Date(today.year, today.month, 1))
    case Some(last) => Some((last.year, last.month))
    case None => None
  }

  /** The day the subtraction lands on is the last day of the reported month. */
  lemma ReportMonthEndsOnLastDay(today: Date)
    requires Valid(today)
    requires today.month > 1 || today.year > MinYear
    ensures var last := PrevDay(Date(today.year, today.month, 1)).value;
            last.day == DaysInMonth(last.year, last.month)
            && ReportMonth(today) == Some((last.year, last.month))
  {
  }
}
