/**
 * The two kinds of subtraction the parser applies to a UTC date-time:
 * subtracting a fixed `timedelta` (a whole number of minutes here, since
 * weeks, days, hours and minutes are all whole minutes) and subtracting a
 * `relativedelta(months=n)`, which steps back whole calendar months and
 * clamps the day of the month.
 */
module TimeDelta {
  import opened Wrappers
  import opened Calendar

  /** Number of months from January of year 0: January 0001 is month 12. */
  function MonthIndex(d: Date): int {
    d.year * 12 + d.month - 1
  }

  function Min(a: int, b: int): int {
    if a <= b then a else b
  }

  /**
   * `t - timedelta(minutes=k)`: the date-time `k` minutes earlier, or `None`
   * when that would be before 0001-01-01 00:00, minute 1440 (Python's
   * OverflowError).
   */
  function SubtractMinutes(t: DateTime, k: nat): (r: Option<DateTime>)
    requires t.Valid()
    ensures r.None? <==> MinuteStamp(t) - k < MinutesPerDay
    ensures r.Some? ==> r.value.Valid()
    ensures r.Some? ==> MinuteStamp(r.value) == MinuteStamp(t) - k
    ensures r.Some? ==> r.value.second == t.second && r.value.microsecond == t.microsecond
  {
    var s := MinuteStamp(t) - k;
    if s < MinutesPerDay then None
    else
      var ordinal := s / MinutesPerDay;
      var rest := s % MinutesPerDay;
      FromOrdinalYearBound(t.date, ordinal);
      Some(DateTime(FromOrdinal(ordinal), rest / 60, rest % 60, t.second, t.microsecond))
  }

  /**
   * `t - relativedelta(months=n)`: the same day and time of day `n` calendar
   * months earlier, the day clamped to the length of the target month; `None`
   * when the target month is before year 1 (Python's ValueError from
   * `datetime.replace`). The body follows relativedelta's arithmetic: the
   * delta is normalised to whole years and at most eleven months, the months
   * are subtracted with a borrow from the year, and the day is clamped.
   */
  function SubtractMonths(t: DateTime, n: nat): (r: Option<DateTime>)
    requires t.Valid()
    ensures r.None? <==> MonthIndex(t.date) - n < MonthIndex(Earliest.date)
    ensures r.Some? ==> r.value.Valid()
    ensures r.Some? ==> MonthIndex(r.value.date) == MonthIndex(t.date) - n
    ensures r.Some? ==> var d := r.value.date;
              d.day == (if t.date.day <= DaysInMonth(d.year, d.month) then t.date.day
                        else DaysInMonth(d.year, d.month))
    ensures r.Some? ==> && r.value.hour == t.hour && r.value.minute == t.minute
                        && r.value.second == t.second && r.value.microsecond == t.microsecond
  {
    var years := n / 12;
    var months := n % 12;
    var year := t.date.year - years;
    var month := t.date.month - months;
    var (year', month') := if month < 1 then (year - 1, month + 12) else (year, month);
    if year' < MinYear then None
    else
      var day := Min(DaysInMonth(year', month'), t.date.day);
      Some(t.(date := Date(year', month', day)))
  }

  /** Subtracting a fixed duration never moves forward in time. */
  lemma SubtractMinutesNotAfter(t: DateTime, k: nat)
    requires t.Valid() && SubtractMinutes(t, k).Some?
    ensures NotAfter(SubtractMinutes(t, k).value, t)
  {
  }

  /** Subtracting months never moves forward in time. */
  lemma SubtractMonthsNotAfter(t: DateTime, n: nat)
    requires t.Valid() && SubtractMonths(t, n).Some?
    ensures NotAfter(SubtractMonths(t, n).value, t)
  {
    var r := SubtractMonths(t, n).value;
    OrdinalMono(r.date, t.date);
  }

  /**
   * Two fixed subtractions in a row are one subtraction of their sum
   * `total`, failures included. (`total` only names `a + b`, which keeps
   * the proof cheap.)
   */
  lemma SubtractMinutesAdd(t: DateTime, a: nat, b: nat, total: nat)
    requires t.Valid() && total == a + b
    ensures var first := SubtractMinutes(t, a);
      SubtractMinutes(t, total) == if first.Some? then SubtractMinutes(first.value, b) else None
  {
    var first, right := SubtractMinutes(t, a), SubtractMinutes(t, total);
    if first.Some? {
      var left := SubtractMinutes(first.value, b);
      if left.Some? {
        MinuteStampInjective(left.value, right.value);
      }
    }
  }

  /** Subtracting zero of either kind is the identity. */
  lemma SubtractZero(t: DateTime)
    requires t.Valid()
    ensures SubtractMinutes(t, 0) == Some(t)
    ensures SubtractMonths(t, 0) == Some(t)
  {
    OrdinalBounds(t.date);
    MinuteStampInjective(SubtractMinutes(t, 0).value, t);
  }

  /** One day back from a day other than the first of the month is the previous day of that month. */
  lemma PreviousDayInMonth(t: DateTime)
    requires t.Valid() && t.date.day > 1
    ensures SubtractMinutes(t, MinutesPerDay) == Some(t.(date := t.date.(day := t.date.day - 1)))
  {
    var e := t.(date := t.date.(day := t.date.day - 1));
    OrdinalBounds(e.date);
    MinuteStampInjective(SubtractMinutes(t, MinutesPerDay).value, e);
  }
}
