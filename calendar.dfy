/**
 * The proleptic Gregorian calendar of Python's `datetime` module, restricted
 * to what the relative-time parser needs: dates and date-times between the
 * years 1 and 9999, the day number ("ordinal", 0001-01-01 is day 1) of a date
 * and its inverse, and a minute count that turns fixed-duration arithmetic
 * into integer subtraction.
 */
module Calendar {

  const MinYear := 1
  const MaxYear := 9999
  const MinutesPerDay := 1440

  datatype Date = Date(year: int, month: int, day: int)

  /** A time-zone-aware UTC `datetime`: a date and a time of day. */
  datatype DateTime = DateTime(date: Date, hour: int, minute: int, second: int, microsecond: int)
  {
    /** The range Python's `datetime` accepts. */
    predicate Valid() {
      && IsDate(date) && date.year <= MaxYear
      && 0 <= hour < 24 && 0 <= minute < 60
      && 0 <= second < 60 && 0 <= microsecond < 1_000_000
    }
  }

  /** The earliest instant Python can represent: 0001-01-01 00:00:00.000000. */
  const Earliest := DateTime(Date(MinYear, 1, 1), 0, 0, 0, 0)

  predicate IsLeap(year: int) {
    year % 4 == 0 && (year % 100 != 0 || year % 400 == 0)
  }

  function DaysInMonth(year: int, month: int): (n: int)
    ensures 28 <= n <= 31
    ensures n == 28 <==> month == 2 && !IsLeap(year)
  {
    if month == 2 then (if IsLeap(year) then 29 else 28)
    else if month == 4 || month == 6 || month == 9 || month == 11 then 30
    else 31
  }

  function DaysInYear(year: int): int {
    if IsLeap(year) then 366 else 365
  }

  /** A date that exists in the calendar, from year 1 on (no upper bound). */
  predicate IsDate(d: Date) {
    d.year >= MinYear && 1 <= d.month <= 12 && 1 <= d.day <= DaysInMonth(d.year, d.month)
  }

  /** Days of `year` that precede the first of `month`. */
  function DaysBeforeMonth(year: int, month: int): int
    requires 1 <= month <= 12
  {
    var common :=
      if month <= 6 then
        (if month == 1 then 0 else if month == 2 then 31 else if month == 3 then 59
         else if month == 4 then 90 else if month == 5 then 120 else 151)
      else
        (if month == 7 then 181 else if month == 8 then 212 else if month == 9 then 243
         else if month == 10 then 273 else if month == 11 then 304 else 334);
    common + (if month > 2 && IsLeap(year) then 1 else 0)
  }

  /** Days of all the years before `year`. */
  function DaysBeforeYear(year: int): (days: int)
    requires year >= MinYear
    ensures days >= 0
    decreases year
  {
    if year == MinYear then 0 else DaysBeforeYear(year - 1) + DaysInYear(year - 1)
  }

  /** The day number of a date: 0001-01-01 is day 1. */
  function Ordinal(d: Date): int
    requires d.year >= MinYear && 1 <= d.month <= 12
  {
    DaysBeforeYear(d.year) + DaysBeforeMonth(d.year, d.month) + d.day
  }

  /** How the floor quotients of Python's closed form change from one year to the next. */
  lemma QuotientSteps(year: int)
    requires year >= MinYear
    ensures year / 4 - (year - 1) / 4 == (if year % 4 == 0 then 1 else 0)
    ensures year / 100 - (year - 1) / 100 == (if year % 100 == 0 then 1 else 0)
    ensures year / 400 - (year - 1) / 400 == (if year % 400 == 0 then 1 else 0)
  {
  }

  lemma DivisibilityChain(year: int)
    ensures year % 400 == 0 ==> year % 100 == 0
    ensures year % 100 == 0 ==> year % 4 == 0
  {
    if year % 400 == 0 {
      assert year == 400 * (year / 400);
    }
    if year % 100 == 0 {
      assert year == 100 * (year / 100);
    }
  }

  /**
   * The year sum agrees with the closed form Python's datetime module
   * computes it by: 365 days a year plus one for each leap year.
   */
  lemma {:induction false} DaysBeforeYearClosedForm(year: int)
    requires year >= MinYear
    ensures var y := year - 1; DaysBeforeYear(year) == y * 365 + y / 4 - y / 100 + y / 400
    decreases year
  {
    if year > MinYear {
      DaysBeforeYearClosedForm(year - 1);
      QuotientSteps(year - 1);
      DivisibilityChain(year - 1);
    }
  }

  /** Each year adds its own length. */
  lemma DaysBeforeYearStep(year: int)
    requires year >= MinYear
    ensures DaysBeforeYear(year + 1) == DaysBeforeYear(year) + DaysInYear(year)
  {
  }

  /** A later year starts no earlier than an earlier year ends. */
  lemma {:induction false} DaysBeforeYearMono(a: int, b: int)
    requires MinYear <= a < b
    ensures DaysBeforeYear(a) + DaysInYear(a) <= DaysBeforeYear(b)
    decreases b - a
  {
    DaysBeforeYearStep(a);
    if a + 1 < b {
      DaysBeforeYearMono(a + 1, b);
    }
  }

  /** Months tile the year: each month ends where the next begins, December at the year's end. */
  lemma MonthEnd(year: int, month: int)
    requires 1 <= month <= 12
    ensures month < 12 ==> DaysBeforeMonth(year, month) + DaysInMonth(year, month) == DaysBeforeMonth(year, month + 1)
    ensures month == 12 ==> DaysBeforeMonth(year, month) + DaysInMonth(year, month) == DaysInYear(year)
  {
  }

  /** An earlier month of the same year ends no later than a later month begins. */
  lemma {:induction false} DaysBeforeMonthMono(year: int, a: int, b: int)
    requires 1 <= a < b <= 12
    ensures DaysBeforeMonth(year, a) + DaysInMonth(year, a) <= DaysBeforeMonth(year, b)
    decreases b - a
  {
    MonthEnd(year, a);
    if a + 1 < b {
      MonthEnd(year, a + 1);
      DaysBeforeMonthMono(year, a + 1, b);
    }
  }

  /** The year containing day `n`, searching upward from `year`. */
  function YearOf(n: int, year: int): (r: int)
    requires year >= MinYear && DaysBeforeYear(year) < n
    ensures year <= r
    ensures DaysBeforeYear(r) < n <= DaysBeforeYear(r) + DaysInYear(r)
    decreases n - DaysBeforeYear(year)
  {
    if n <= DaysBeforeYear(year) + DaysInYear(year) then year
    else
      DaysBeforeYearStep(year);
      YearOf(n, year + 1)
  }

  /** The month of `year` containing its day `dayOfYear`, searching upward from `month`. */
  function MonthOf(year: int, dayOfYear: int, month: int): (r: int)
    requires 1 <= month <= 12
    requires DaysBeforeMonth(year, month) < dayOfYear <= DaysInYear(year)
    ensures month <= r <= 12
    ensures DaysBeforeMonth(year, r) < dayOfYear <= DaysBeforeMonth(year, r) + DaysInMonth(year, r)
    decreases 12 - month
  {
    MonthEnd(year, month);
    if month == 12 || dayOfYear <= DaysBeforeMonth(year, month) + DaysInMonth(year, month) then month
    else MonthOf(year, dayOfYear, month + 1)
  }

  /** The date whose day number is `n` (Python's `date.fromordinal`). */
  function FromOrdinal(n: int): (d: Date)
    requires n >= 1
    ensures IsDate(d) && Ordinal(d) == n
  {
    var year := YearOf(n, MinYear);
    var dayOfYear := n - DaysBeforeYear(year);
    var month := MonthOf(year, dayOfYear, 1);
    Date(year, month, dayOfYear - DaysBeforeMonth(year, month))
  }

  /** A date's day number falls within its year and within its month. */
  lemma OrdinalBounds(d: Date)
    requires IsDate(d)
    ensures DaysBeforeYear(d.year) < Ordinal(d) <= DaysBeforeYear(d.year) + DaysInYear(d.year)
    ensures Ordinal(d) >= 1
  {
    if d.month < 12 {
      DaysBeforeMonthMono(d.year, d.month, 12);
    }
    MonthEnd(d.year, 12);
  }

  /** Day numbers identify dates: FromOrdinal inverts Ordinal. */
  lemma FromOrdinalOrdinal(d: Date)
    requires IsDate(d)
    ensures FromOrdinal(Ordinal(d)) == d
  {
    OrdinalBounds(d);
    var n := Ordinal(d);
    var r := FromOrdinal(n);
    var y := YearOf(n, MinYear);
    if y < d.year {
      DaysBeforeYearMono(y, d.year);
    } else if y > d.year {
      DaysBeforeYearMono(d.year, y);
    }
    assert y == d.year;
    var doy := n - DaysBeforeYear(y);
    var m := MonthOf(y, doy, 1);
    if m < d.month {
      DaysBeforeMonthMono(y, m, d.month);
    } else if m > d.month {
      DaysBeforeMonthMono(y, d.month, m);
    }
  }

  /** Ordinal is strictly increasing in calendar order. */
  lemma OrdinalMono(a: Date, b: Date)
    requires IsDate(a) && IsDate(b)
    requires a.year < b.year
          || (a.year == b.year && a.month < b.month)
          || (a.year == b.year && a.month == b.month && a.day <= b.day)
    ensures Ordinal(a) <= Ordinal(b)
    ensures a != b ==> Ordinal(a) < Ordinal(b)
  {
    if a.year < b.year {
      OrdinalBounds(a);
      OrdinalBounds(b);
      DaysBeforeYearMono(a.year, b.year);
    } else if a.month < b.month {
      DaysBeforeMonthMono(a.year, a.month, b.month);
    }
  }

  /** A day number no later than a date's lies in that date's year or before. */
  lemma FromOrdinalYearBound(d: Date, n: int)
    requires IsDate(d) && 1 <= n <= Ordinal(d)
    ensures FromOrdinal(n).year <= d.year
  {
    var r := FromOrdinal(n);
    OrdinalBounds(d);
    OrdinalBounds(r);
    if r.year > d.year {
      DaysBeforeYearMono(d.year, r.year);
    }
  }

  /** Minutes since the start of day 0 (00:00 on 0001-01-01 is minute 1440). */
  function MinuteStamp(t: DateTime): int
    requires IsDate(t.date)
  {
    (Ordinal(t.date) * 24 + t.hour) * 60 + t.minute
  }

  /** Microseconds since the start of day 0: the order of instants. */
  function Timestamp(t: DateTime): int
    requires IsDate(t.date)
  {
    (MinuteStamp(t) * 60 + t.second) * 1_000_000 + t.microsecond
  }

  /** `a` is the same instant as `b` or earlier. */
  predicate NotAfter(a: DateTime, b: DateTime)
    requires IsDate(a.date) && IsDate(b.date)
  {
    Timestamp(a) <= Timestamp(b)
  }

  /** The minute count, seconds and microseconds of a valid date-time determine it. */
  lemma MinuteStampInjective(a: DateTime, b: DateTime)
    requires a.Valid() && b.Valid()
    requires MinuteStamp(a) == MinuteStamp(b)
    requires a.second == b.second && a.microsecond == b.microsecond
    ensures a == b
  {
    var oa, ob := Ordinal(a.date), Ordinal(b.date);
    var ra, rb := a.hour * 60 + a.minute, b.hour * 60 + b.minute;
    assert MinuteStamp(a) == oa * MinutesPerDay + ra;
    assert MinuteStamp(b) == ob * MinutesPerDay + rb;
    assert oa == ob;
    FromOrdinalOrdinal(a.date);
    FromOrdinalOrdinal(b.date);
  }
}
