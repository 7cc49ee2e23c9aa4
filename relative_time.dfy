/**
 * `parse_relative_time_string`: the instant described by an expression such
 * as "1mo 2w 3d 4h 30m", counted back from a given UTC "now". Each token
 * found by the scan is subtracted in textual order: `mo` as a calendar
 * month step, `w`, `d`, `h` and `m` as fixed durations. A result before
 * 0001-01-01 is a failure, as Python's datetime raises there.
 */
module RelativeTime {
  import opened Wrappers
  import opened Calendar
  import opened TimeDelta
  import opened Tokenizer

  /**
   * The fixed duration of a week, day, hour or minute token, in minutes.
   * The `Month` case is never used: `ApplyToken` sends months to
   * `SubtractMonths`, and `TotalMinutes` is only used under `AllFixed`.
   */
  function FixedMinutes(tok: Token): nat {
    match tok.unit
    case Month => 0
    case Week => tok.value * 10080
    case Day => tok.value * 1440
    case Hour => tok.value * 60
    case Minute => tok.value
  }

  /** One token subtracted from `t`. */
  function ApplyToken(t: DateTime, tok: Token): (r: Option<DateTime>)
    requires t.Valid()
    ensures r.Some? ==> r.value.Valid()
  {
    if tok.unit == Month then SubtractMonths(t, tok.value)
    else SubtractMinutes(t, FixedMinutes(tok))
  }

  /** The tokens subtracted from `t` one after another; the first failure ends it. */
  function ApplyTokens(t: DateTime, ts: seq<Token>): (r: Option<DateTime>)
    requires t.Valid()
    ensures r.Some? ==> r.value.Valid()
    decreases |ts|
  {
    if ts == [] then Some(t)
    else
      match ApplyToken(t, ts[0])
      case None => None
      case Some(u) => ApplyTokens(u, ts[1..])
  }

  /** Unfolding the accumulator by one token. */
  lemma ApplyTokensCons(t: DateTime, ts: seq<Token>)
    requires t.Valid() && ts != []
    ensures ApplyToken(t, ts[0]).None? ==> ApplyTokens(t, ts) == None
    ensures ApplyToken(t, ts[0]).Some? ==> ApplyTokens(t, ts) == ApplyTokens(ApplyToken(t, ts[0]).value, ts[1..])
  {
  }

  /**
   * The parser. The clock is not read: `now` is the UTC instant the source
   * takes from `datetime.now(timezone.utc)`. `None` stands for the exception
   * raised when the result would precede year 1.
   */
  method ParseRelativeTimeString(timeStr: string, now: DateTime) returns (r: Option<DateTime>)
    requires now.Valid()
    ensures r == ApplyTokens(now, Tokenize(timeStr))
    ensures r.Some? ==> r.value.Valid() && NotAfter(r.value, now)
  {
    var pattern := FindAll(Lower(timeStr));
    var current := now;
    var i := 0;
    while i < |pattern|
      invariant 0 <= i <= |pattern|
      invariant current.Valid()
      invariant ApplyTokens(now, pattern) == ApplyTokens(current, pattern[i..])
    {
      var token := pattern[i];
      assert pattern[i..][0] == token && pattern[i..][1..] == pattern[i + 1..];
      var next: Option<DateTime>;
      match token.unit {
        case Month => next := SubtractMonths(current, token.value);
        case Week => next := SubtractMinutes(current, token.value * 10080);
        case Day => next := SubtractMinutes(current, token.value * 1440);
        case Hour => next := SubtractMinutes(current, token.value * 60);
        case Minute => next := SubtractMinutes(current, token.value);
      }
      assert next == ApplyToken(current, token);
      ApplyTokensCons(current, pattern[i..]);
      if next.None? {
        return None;
      }
      current := next.value;
      i := i + 1;
    }
    ApplyTokensNotAfter(now, pattern);
    return Some(current);
  }

  // ---------------------------------------------------------------------
  // Properties of the accumulator.

  /** The result is never later than the starting instant. */
  lemma {:induction false} ApplyTokensNotAfter(t: DateTime, ts: seq<Token>)
    requires t.Valid() && ApplyTokens(t, ts).Some?
    ensures NotAfter(ApplyTokens(t, ts).value, t)
    decreases |ts|
  {
    if ts != [] {
      ApplyTokensCons(t, ts);
      var tok := ts[0];
      var u := ApplyToken(t, tok).value;
      if tok.unit == Month {
        SubtractMonthsNotAfter(t, tok.value);
      } else {
        SubtractMinutesNotAfter(t, FixedMinutes(tok));
      }
      ApplyTokensNotAfter(u, ts[1..]);
    }
  }

  /** A zero magnitude is a no-op for every unit. */
  lemma ZeroIsNoOp(t: DateTime, u: Unit)
    requires t.Valid()
    ensures ApplyToken(t, Token(0, u)) == Some(t)
  {
    SubtractZero(t);
  }

  predicate AllFixed(ts: seq<Token>) {
    forall i :: 0 <= i < |ts| ==> ts[i].unit != Month
  }

  function TotalMinutes(ts: seq<Token>): nat {
    if ts == [] then 0 else FixedMinutes(ts[0]) + TotalMinutes(ts[1..])
  }

  lemma AllFixedTail(ts: seq<Token>)
    requires ts != [] && AllFixed(ts)
    ensures AllFixed(ts[1..])
  {
    forall i | 0 <= i < |ts| - 1 ensures ts[1..][i].unit != Month {
      assert ts[1..][i] == ts[i + 1];
    }
  }

  /** Weeks, days, hours and minutes only: the result is `now` minus the sum of their durations. */
  lemma {:induction false} FixedTokensAdd(t: DateTime, ts: seq<Token>)
    requires t.Valid() && AllFixed(ts)
    ensures ApplyTokens(t, ts) == SubtractMinutes(t, TotalMinutes(ts))
    decreases |ts|
  {
    if ts == [] {
      SubtractZero(t);
    } else {
      var a := FixedMinutes(ts[0]);
      FixedTokenCons(t, ts);
      SubtractMinutesAdd(t, a, TotalMinutes(ts[1..]), TotalMinutes(ts));
      var first := SubtractMinutes(t, a);
      if first.Some? {
        AllFixedTail(ts);
        FixedTokensAdd(first.value, ts[1..]);
      }
    }
  }

  /** One fixed-duration token unfolded. */
  lemma FixedTokenCons(t: DateTime, ts: seq<Token>)
    requires t.Valid() && ts != [] && ts[0].unit != Month
    ensures var first := SubtractMinutes(t, FixedMinutes(ts[0]));
      ApplyTokens(t, ts) == if first.Some? then ApplyTokens(first.value, ts[1..]) else None
  {
    ApplyTokensCons(t, ts);
  }

  /** An expression without any token leaves `now` unchanged. */
  lemma NoTokenIsNow(now: DateTime, s: string)
    requires now.Valid()
    requires forall i :: 0 <= i < |s| ==> !IsDigit(s[i])
    ensures ApplyTokens(now, Tokenize(s)) == Some(now)
  {
    var lower := Lower(s);
    assert forall i :: 0 <= i < |lower| ==> lower[i] == LowerChar(s[i]);
    NoDigitsNoTokens(lower);
  }

  /** "1w 2d" is nine days back. */
  lemma WeekAndTwoDays(now: DateTime)
    requires now.Valid()
    ensures ApplyTokens(now, Tokenize("1w 2d")) == SubtractMinutes(now, 9 * MinutesPerDay)
  {
    var ts := [Token(1, Week), Token(2, Day)];
    assert TotalMinutes(ts) == 9 * MinutesPerDay by {
      assert ts[1..] == [Token(2, Day)] && ts[1..][1..] == [];
    }
    WeekThenDays();
    FixedTokensAdd(now, ts);
  }

  /** "1mo" is one calendar month back, "1M" one minute back. */
  lemma MonthVersusMinute(now: DateTime)
    requires now.Valid()
    ensures ApplyTokens(now, Tokenize("1mo")) == SubtractMonths(now, 1)
    ensures ApplyTokens(now, Tokenize("1M")) == SubtractMinutes(now, 1)
  {
    MonthBeforeMinute();
    UpperCaseMinute();
    ApplyTokensCons(now, [Token(1, Month)]);
    ApplyTokensCons(now, [Token(1, Minute)]);
  }

  /** 29, 30 or 31 March minus one month is the last day of February, the 28th or the 29th. */
  lemma EndOfMarchMinusMonth(t: DateTime)
    requires t.Valid() && t.date.month == 3 && t.date.day >= 29
    ensures ApplyToken(t, Token(1, Month)) == Some(t.(date := Date(t.date.year, 2, DaysInMonth(t.date.year, 2))))
  {
  }

  /** One day back, from any day but the first of its month. */
  lemma OneDayBack(t: DateTime)
    requires t.Valid() && t.date.day > 1
    ensures ApplyToken(t, Token(1, Day)) == Some(t.(date := t.date.(day := t.date.day - 1)))
  {
    PreviousDayInMonth(t);
  }

  /**
   * Month and day steps do not commute under clamping: from 31 March,
   * "1d 1mo" and "1mo 1d" give different instants.
   */
  lemma OrderMatters(t: DateTime)
    requires t.Valid() && t.date.month == 3 && t.date.day == 31
    ensures ApplyTokens(t, [Token(1, Day), Token(1, Month)]) != ApplyTokens(t, [Token(1, Month), Token(1, Day)])
  {
    DayThenMonth(t);
    MonthThenDay(t);
  }

  /** From 31 March, "1d 1mo" gives the last day of February. */
  lemma DayThenMonth(t: DateTime)
    requires t.Valid() && t.date.month == 3 && t.date.day == 31
    ensures ApplyTokens(t, [Token(1, Day), Token(1, Month)]) == Some(t.(date := Date(t.date.year, 2, DaysInMonth(t.date.year, 2))))
  {
    var march30 := t.(date := t.date.(day := 30));
    OneDayBack(t);
    EndOfMarchMinusMonth(march30);
    TwoTokens(t, Token(1, Day), Token(1, Month));
  }

  /** From 31 March, "1mo 1d" gives the day before the last day of February. */
  lemma MonthThenDay(t: DateTime)
    requires t.Valid() && t.date.month == 3 && t.date.day == 31
    ensures ApplyTokens(t, [Token(1, Month), Token(1, Day)]) == Some(t.(date := Date(t.date.year, 2, DaysInMonth(t.date.year, 2) - 1)))
  {
    var lastOfFeb := t.(date := Date(t.date.year, 2, DaysInMonth(t.date.year, 2)));
    EndOfMarchMinusMonth(t);
    OneDayBack(lastOfFeb);
    TwoTokens(t, Token(1, Month), Token(1, Day));
  }

  /** Two tokens applied one after the other. */
  lemma TwoTokens(t: DateTime, x: Token, y: Token)
    requires t.Valid()
    ensures var first := ApplyToken(t, x);
      ApplyTokens(t, [x, y]) == if first.Some? then ApplyToken(first.value, y) else None
  {
    var ts := [x, y];
    assert ts[0] == x && ts[1..] == [y];
    ApplyTokensCons(t, ts);
    if ApplyToken(t, x).Some? {
      ApplyTokensCons(ApplyToken(t, x).value, [y]);
    }
  }
}
