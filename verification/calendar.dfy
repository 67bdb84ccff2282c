/** Proleptic Gregorian calendar dates, as Python's `datetime.date` holds
    them: a (year, month, day) triple between 0001-01-01 and 9999-12-31,
    ordered chronologically. */
module Calendar {
  import opened Wrappers

  const MinYear: int := 1
  const MaxYear: int := 9999

  datatype Date = Date(year: int, month: int, day: int)

  predicate IsLeapYear(y: int) {
    y % 4 == 0 && (y % 100 != 0 || y % 400 == 0)
  }

  function DaysInMonth(y: int, m: int): (n: int)
    requires 1 <= m <= 12
    ensures 28 <= n <= 31
    ensures m == 2 <==> n < 30
  {
    if m == 2 then (if IsLeapYear(y) then 29 else 28)
    else if m == 4 || m == 6 || m == 9 || m == 11 then 30
    else 31
  }

  /** The dates a Python `date` object can hold. */
  predicate Valid(d: Date) {
    && MinYear <= d.year <= MaxYear
    && 1 <= d.month <= 12
    && 1 <= d.day <= DaysInMonth(d.year, d.month)
  }

  type ValidDate = d: Date | Valid(d) witness Date(1, 1, 1)

  const LastDate: ValidDate := Date(MaxYear, 12, 31)

  /** Chronological order of dates: `a < b` on Python dates. */
  predicate Before(a: Date, b: Date) {
    || a.year < b.year
    || (a.year == b.year && a.month < b.month)
    || (a.year == b.year && a.month == b.month && a.day < b.day)
  }

  /** `a <= b` on Python dates. */
  predicate AtOrBefore(a: Date, b: Date) {
    Before(a, b) || a == b
  }

  /** Any two dates are equal or one is before the other. */
  lemma BeforeTotal(a: Date, b: Date)
    ensures Before(a, b) || a == b || Before(b, a)
  {
  }

  /** `d + timedelta(days=1)`; `None` where Python raises OverflowError,
      that is, after the last representable date. */
  function NextDay(d: ValidDate): (r: Option<ValidDate>)
    ensures r.None? <==> d == LastDate
    ensures r.Some? ==> Before(d, r.value)
    ensures r.Some? ==> forall e: Date :: Valid(e) ==> (Before(d, e) <==> AtOrBefore(r.value, e))
  {
    if d.day < DaysInMonth(d.year, d.month) then Some(Date(d.year, d.month, d.day + 1))
    else if d.month < 12 then Some(Date(d.year, d.month + 1, 1))
    else if d.year < MaxYear then Some(Date(d.year + 1, 1, 1))
    else None
  }
}
