/**
 * The scan `re.findall(r'(\d+)\s*(mo|w|d|h|m)', s.lower())` over ASCII text:
 * matches are found left to right without overlap; where no match starts,
 * the scan moves on by one character; after a match it resumes just past the
 * unit; the alternation tries `mo` before `m`.
 */
module Tokenizer {
  import opened Wrappers

  datatype Unit = Month | Week | Day | Hour | Minute

  /** One (magnitude, unit) pair of a relative-time expression. */
  datatype Token = Token(value: nat, unit: Unit)

  /** A match of the pattern at the start of a string and how many characters it spans. */
  datatype Match = Match(token: Token, length: nat)

  /** ASCII `str.lower()` of one character. */
  function LowerChar(c: char): char {
    if 'A' <= c <= 'Z' then (c as int + 32) as char else c
  }

  /** ASCII `str.lower()`: capitals become small letters, everything else is kept. */
  function Lower(s: string): (r: string)
    ensures |r| == |s|
    ensures forall i :: 0 <= i < |s| ==> !('A' <= r[i] <= 'Z')
    ensures forall i :: 0 <= i < |s| && 'A' <= s[i] <= 'Z' ==> r[i] as int == s[i] as int + 32
    ensures forall i :: 0 <= i < |s| && !('A' <= s[i] <= 'Z') ==> r[i] == s[i]
  {
    seq(|s|, i requires 0 <= i < |s| => LowerChar(s[i]))
  }

  /** `\d` on ASCII. */
  predicate IsDigit(c: char) {
    '0' <= c <= '9'
  }

  /** `\s` on ASCII: space, tab to carriage return, and the separators 0x1C to 0x1F. */
  predicate IsSpace(c: char) {
    c == ' ' || (9 <= c as int <= 13) || (28 <= c as int <= 31)
  }

  /** The single-letter units; `m` is tried only when `mo` did not match. */
  function UnitLetter(c: char): Option<Unit> {
    if c == 'w' then Some(Week)
    else if c == 'd' then Some(Day)
    else if c == 'h' then Some(Hour)
    else if c == 'm' then Some(Minute)
    else None
  }

  /** Length of the run of digits at the start of `s`. */
  function DigitRun(s: string): (k: nat)
    ensures k <= |s|
    ensures forall i :: 0 <= i < k ==> IsDigit(s[i])
    ensures k < |s| ==> !IsDigit(s[k])
  {
    if s != [] && IsDigit(s[0]) then 1 + DigitRun(s[1..]) else 0
  }

  /** Length of the run of whitespace at the start of `s`. */
  function SpaceRun(s: string): (k: nat)
    ensures k <= |s|
    ensures forall i :: 0 <= i < k ==> IsSpace(s[i])
    ensures k < |s| ==> !IsSpace(s[k])
  {
    if s != [] && IsSpace(s[0]) then 1 + SpaceRun(s[1..]) else 0
  }

  /** Python's `int()` of a string of ASCII digits. */
  function Value(digits: string): nat {
    if digits == [] then 0
    else Value(digits[..|digits| - 1]) * 10 + (digits[|digits| - 1] as int - '0' as int) % 10
  }

  /**
   * The pattern tried at the start of `s`. `\d+` and `\s*` are greedy and
   * backtracking cannot help: a shorter digit run is followed by a digit and
   * a shorter whitespace run by whitespace, neither of which is a unit.
   */
  function MatchAt(s: string): (r: Option<Match>)
    ensures r.Some? ==> 2 <= r.value.length <= |s|
  {
    var k := DigitRun(s);
    if k == 0 then None else MatchAfterDigits(Value(s[..k]), k, s[k..])
  }

  /** The rest of the pattern, `\s*` then a unit, after `k` digits that read `v`. */
  function MatchAfterDigits(v: nat, k: nat, after: string): (r: Option<Match>)
    ensures r.Some? ==> k < r.value.length <= k + |after|
  {
    var w := SpaceRun(after);
    var u := UnitAt(after[w..]);
    if u.None? then None else Some(Match(Token(v, u.value.0), k + w + u.value.1))
  }

  /** The alternation `(mo|w|d|h|m)` at the start of `s`: the unit and its length. */
  function UnitAt(s: string): (r: Option<(Unit, nat)>)
    ensures r.Some? ==> 0 < r.value.1 <= |s|
    ensures r.Some? ==> !IsDigit(s[0]) && !IsSpace(s[0])
    ensures r.Some? ==> s[..r.value.1] == UnitText(r.value.0)
    ensures r.None? ==> forall u: Unit :: !(UnitText(u) <= s)
  {
    if |s| >= 2 && s[0] == 'm' && s[1] == 'o' then Some((Month, 2))
    else if s != [] && UnitLetter(s[0]).Some? then Some((UnitLetter(s[0]).value, 1))
    else None
  }

  /** `re.findall` of the pattern over `s`; each token takes at least a digit and a unit letter. */
  function FindAll(s: string): (r: seq<Token>)
    ensures 2 * |r| <= |s|
    decreases |s|
  {
    if s == [] then []
    else match MatchAt(s)
      case Some(m) => [m.token] + FindAll(s[m.length..])
      case None => FindAll(s[1..])
  }

  /** The tokens of a relative-time expression, case-insensitively. */
  function Tokenize(s: string): (r: seq<Token>)
    ensures 2 * |r| <= |s|
  {
    FindAll(Lower(s))
  }

  /** Texts that agree up to the case of their letters hold the same tokens. */
  lemma {:induction false} TokenizeCaseInsensitive(s: string, t: string)
    requires |s| == |t|
    requires forall i :: 0 <= i < |s| ==> LowerChar(s[i]) == LowerChar(t[i])
    ensures Tokenize(s) == Tokenize(t)
  {
    assert Lower(s) == Lower(t) by {
      forall i | 0 <= i < |s|
        ensures Lower(s)[i] == Lower(t)[i]
      {
        assert Lower(s)[i] == LowerChar(s[i]) && Lower(t)[i] == LowerChar(t[i]);
      }
    }
  }

  // ---------------------------------------------------------------------
  // A renderer: the partner of the scan.

  function DigitChar(d: nat): (c: char)
    requires d < 10
    ensures IsDigit(c)
  {
    ('0' as int + d) as char
  }

  /** The decimal digits of `n`, without leading zeros. */
  function Decimal(n: nat): (s: string)
    ensures |s| > 0 && forall i :: 0 <= i < |s| ==> IsDigit(s[i])
  {
    if n < 10 then [DigitChar(n)] else Decimal(n / 10) + [DigitChar(n % 10)]
  }

  function UnitText(u: Unit): string {
    match u
    case Month => "mo"
    case Week => "w"
    case Day => "d"
    case Hour => "h"
    case Minute => "m"
  }

  /**
   * Tokens written in the documented form, e.g. "1mo 2w 3d 4h 30m " for an
   * empty `gap`, or with `gap` between each magnitude and its unit.
   */
  function Render(ts: seq<Token>, gap: string): string {
    if ts == [] then "" else Decimal(ts[0].value) + gap + UnitText(ts[0].unit) + " " + Render(ts[1..], gap)
  }

  /** Whitespace only, as `\s*` takes it. */
  predicate AllSpace(s: string) {
    forall i :: 0 <= i < |s| ==> IsSpace(s[i])
  }

  /** Reading the digits of `n` gives `n` back. */
  lemma {:induction false} ValueDecimal(n: nat)
    ensures Value(Decimal(n)) == n
  {
    var s := Decimal(n);
    if n >= 10 {
      assert s[..|s| - 1] == Decimal(n / 10);
      ValueDecimal(n / 10);
    }
  }

  /** A string without digits holds no match. */
  lemma {:induction false} NoDigitsNoTokens(s: string)
    requires forall i :: 0 <= i < |s| ==> !IsDigit(s[i])
    ensures FindAll(s) == []
    decreases |s|
  {
    if s != [] {
      NoDigitsNoTokens(s[1..]);
    }
  }

  /** One step of the scan: past a match, or past one character where none starts. */
  lemma {:induction false} FindAllStep(s: string)
    requires s != []
    ensures MatchAt(s).None? ==> FindAll(s) == FindAll(s[1..])
    ensures MatchAt(s).Some? ==> FindAll(s) == [MatchAt(s).value.token] + FindAll(s[MatchAt(s).value.length..])
  {
  }

  /** Where the text does not start with a digit, no match starts. */
  lemma {:induction false} SkipChar(s: string)
    requires s != [] && !IsDigit(s[0])
    ensures FindAll(s) == FindAll(s[1..])
  {
    assert DigitRun(s) == 0;
    FindAllStep(s);
  }

  /** Text without digits in front of an expression is skipped. */
  lemma {:induction false} SkipNoise(noise: string, s: string)
    requires forall i :: 0 <= i < |noise| ==> !IsDigit(noise[i])
    ensures FindAll(noise + s) == FindAll(s)
    decreases |noise|
  {
    if noise != [] {
      var t := noise + s;
      assert t[0] == noise[0];
      assert !IsDigit(t[0]);
      SkipChar(t);
      assert FindAll(t) == FindAll(t[1..]);
      assert t[1..] == noise[1..] + s;
      SkipNoise(noise[1..], s);
      assert FindAll(noise[1..] + s) == FindAll(s);
    } else {
      assert noise + s == s;
    }
  }

  lemma {:induction false} DigitRunPrefix(digits: string, rest: string)
    requires forall i :: 0 <= i < |digits| ==> IsDigit(digits[i])
    requires rest == [] || !IsDigit(rest[0])
    ensures DigitRun(digits + rest) == |digits|
    decreases |digits|
  {
    if digits != [] {
      assert (digits + rest)[1..] == digits[1..] + rest;
      DigitRunPrefix(digits[1..], rest);
    }
  }

  lemma {:induction false} SpaceRunPrefix(ws: string, rest: string)
    requires AllSpace(ws)
    requires rest == [] || !IsSpace(rest[0])
    ensures SpaceRun(ws + rest) == |ws|
    decreases |ws|
  {
    if ws != [] {
      assert (ws + rest)[1..] == ws[1..] + rest;
      SpaceRunPrefix(ws[1..], rest);
    }
  }

  /** A run of digits: the text `\d+` matches. */
  predicate IsNumber(d: string) {
    d != [] && forall i :: 0 <= i < |d| ==> IsDigit(d[i])
  }

  /**
   * The pattern at a run of digits `d` (leading zeros allowed), optional
   * whitespace `ws` and a unit: one match with magnitude `int(d)` and that
   * unit, spanning all three.
   */
  lemma {:induction false} MatchNumber(d: string, ws: string, rest: string, u: Unit, len: nat)
    requires IsNumber(d)
    requires AllSpace(ws)
    requires rest != [] && !IsDigit(rest[0]) && !IsSpace(rest[0])
    requires UnitAt(rest) == Some((u, len))
    ensures MatchAt(d + ws + rest) == Some(Match(Token(Value(d), u), |d| + |ws| + len))
  {
    assert MatchAt(d + ws + rest) == MatchAfterDigits(Value(d), |d| + |ws|, rest) by {
      MatchSpacedNumber(d, ws, rest);
    }
    assert MatchAfterDigits(Value(d), |d| + |ws|, rest) == Some(Match(Token(Value(d), u), |d| + |ws| + len)) by {
      UnitAfterDigits(Value(d), |d| + |ws|, rest, u, len);
    }
  }

  /**
   * A run of digits and optional whitespace `ws` with no unit after them do
   * not match there, whatever follows: the end of the text, a second number
   * after whitespace, or any other character.
   */
  lemma {:induction false} NoUnitAfterNumber(d: string, ws: string, rest: string)
    requires IsNumber(d)
    requires AllSpace(ws)
    requires rest == [] || (!IsSpace(rest[0]) && (ws == [] ==> !IsDigit(rest[0])))
    requires UnitAt(rest).None?
    ensures MatchAt(d + ws + rest).None?
  {
    assert MatchAt(d + ws + rest) == MatchAfterDigits(Value(d), |d| + |ws|, rest) by {
      MatchSpacedNumber(d, ws, rest);
    }
    NoUnitAfterDigits(Value(d), |d| + |ws|, rest);
  }

  /**
   * At a run of digits and whitespace `ws`, the unit is looked for right
   * after the whitespace.
   */
  lemma {:induction false} MatchSpacedNumber(d: string, ws: string, rest: string)
    requires IsNumber(d)
    requires AllSpace(ws)
    requires rest == [] || (!IsSpace(rest[0]) && (ws == [] ==> !IsDigit(rest[0])))
    ensures MatchAt(d + ws + rest) == MatchAfterDigits(Value(d), |d| + |ws|, rest)
  {
    var v := Value(d);
    assert MatchAt(d + ws + rest) == MatchAfterDigits(v, |d|, ws + rest) by {
      assert rest == [] || ws != [] || !IsDigit(rest[0]);
      MatchDigitsSpaced(d, ws, rest);
    }
    assert MatchAfterDigits(v, |d|, ws + rest) == MatchAfterDigits(v, |d| + |ws|, rest) by {
      assert rest == [] || !IsSpace(rest[0]);
      SkipSpace(v, |d|, ws, rest);
    }
  }

  /** The digits `d` are the whole digit run when whitespace, a non-digit or nothing follows them. */
  lemma {:induction false} MatchDigitsSpaced(d: string, ws: string, rest: string)
    requires IsNumber(d)
    requires AllSpace(ws)
    requires rest == [] || ws != [] || !IsDigit(rest[0])
    ensures MatchAt(d + ws + rest) == MatchAfterDigits(Value(d), |d|, ws + rest)
  {
    var after := ws + rest;
    assert d + ws + rest == d + after;
    assert after == [] || !IsDigit(after[0]) by {
      if ws != [] {
        assert after[0] == ws[0] && IsSpace(ws[0]);
      }
    }
    MatchDigits(d, after);
  }

  /** After a maximal run of digits `d`, the rest of the pattern is tried on what follows. */
  lemma {:induction false} MatchDigits(d: string, after: string)
    requires IsNumber(d)
    requires after == [] || !IsDigit(after[0])
    ensures MatchAt(d + after) == MatchAfterDigits(Value(d), |d|, after)
  {
    var s := d + after;
    assert s[..|d|] == d && s[|d|..] == after;
    DigitRunPrefix(d, after);
  }

  /** Whitespace `ws` after the digits is skipped. */
  lemma {:induction false} SkipSpace(v: nat, k: nat, ws: string, rest: string)
    requires AllSpace(ws)
    requires rest == [] || !IsSpace(rest[0])
    ensures MatchAfterDigits(v, k, ws + rest) == MatchAfterDigits(v, k + |ws|, rest)
  {
    assert (ws + rest)[|ws|..] == rest && rest[0..] == rest;
    SpaceRunPrefix(ws, rest);
  }

  /** A unit right after the digits completes the match. */
  lemma {:induction false} UnitAfterDigits(v: nat, k: nat, rest: string, u: Unit, len: nat)
    requires UnitAt(rest) == Some((u, len))
    ensures MatchAfterDigits(v, k, rest) == Some(Match(Token(v, u), k + len))
  {
    assert rest[0..] == rest;
  }

  /** No unit after the digits and their whitespace: no match. */
  lemma {:induction false} NoUnitAfterDigits(v: nat, k: nat, rest: string)
    requires rest == [] || !IsSpace(rest[0])
    requires UnitAt(rest).None?
    ensures MatchAfterDigits(v, k, rest).None?
  {
    assert rest[0..] == rest;
  }

  /**
   * A magnitude, optional whitespace and a unit are one token, whatever
   * follows, except that `m` directly followed by `o` is read as the unit
   * `mo`: the alternation tries `mo` first.
   */
  lemma {:induction false} FindAllToken(n: nat, ws: string, u: Unit, rest: string)
    requires AllSpace(ws)
    requires u == Minute ==> rest == [] || rest[0] != 'o'
    ensures FindAll(Decimal(n) + ws + UnitText(u) + rest) == [Token(n, u)] + FindAll(rest)
  {
    var text := UnitText(u);
    assert (text + rest)[|text|..] == rest;
    assert Decimal(n) + ws + text + rest == Decimal(n) + ws + (text + rest);
    UnitAtText(u, rest);
    ValueDecimal(n);
    MatchToken(Decimal(n), ws, text + rest, u, |text|);
  }

  /** A number, whitespace and a unit are one token; the scan resumes after the unit. */
  lemma {:induction false} MatchToken(d: string, ws: string, tail: string, u: Unit, len: nat)
    requires IsNumber(d)
    requires AllSpace(ws)
    requires tail != [] && !IsDigit(tail[0]) && !IsSpace(tail[0])
    requires UnitAt(tail) == Some((u, len))
    ensures FindAll(d + ws + tail) == [Token(Value(d), u)] + FindAll(tail[len..])
  {
    var s, m := d + ws + tail, Match(Token(Value(d), u), |d| + |ws| + len);
    assert MatchAt(s) == Some(m) by {
      MatchNumber(d, ws, tail, u, len);
    }
    assert s[m.length..] == tail[len..] by {
      DropFront(d + ws, tail, len);
    }
    FindAllMatch(s, m, tail[len..]);
  }

  /** Dropping a front and then `len` more characters leaves the tail past `len`. */
  lemma {:induction false} DropFront(front: string, tail: string, len: nat)
    requires len <= |tail|
    ensures (front + tail)[|front| + len..] == tail[len..]
  {
  }

  /** A number, whitespace, then a second number: no match starts at the first. */
  lemma {:induction false} NumberAfterSpace(d: string, ws: string, rest: string)
    requires IsNumber(d)
    requires AllSpace(ws) && ws != []
    requires rest != [] && IsDigit(rest[0])
    ensures MatchAt(d + ws + rest).None?
  {
    NoUnitAfterNumber(d, ws, rest);
  }

  /** Where a match starts, the scan emits its token and resumes after it. */
  lemma {:induction false} FindAllMatch(s: string, m: Match, rest: string)
    requires MatchAt(s) == Some(m) && s[m.length..] == rest
    ensures FindAll(s) == [m.token] + FindAll(rest)
  {
  }

  /** A unit written out is read back, followed by anything but an `o` after a bare `m`. */
  lemma {:induction false} UnitAtText(u: Unit, rest: string)
    requires u == Minute ==> rest == [] || rest[0] != 'o'
    ensures var tail := UnitText(u) + rest;
      tail != [] && !IsDigit(tail[0]) && !IsSpace(tail[0]) && UnitAt(tail) == Some((u, |UnitText(u)|))
  {
    var text := UnitText(u);
    var tail := text + rest;
    assert tail[0] == text[0] && (|tail| >= 2 ==> tail[1] == if |text| == 2 then text[1] else rest[0]);
  }

  /**
   * Round trip: tokens written out, with the same whitespace `gap` between
   * each magnitude and its unit, are read back exactly.
   */
  lemma {:induction false} FindAllRender(ts: seq<Token>, gap: string)
    requires AllSpace(gap)
    ensures FindAll(Render(ts, gap)) == ts
  {
    if ts != [] {
      var t := ts[0];
      var tail := " " + Render(ts[1..], gap);
      assert tail[1..] == Render(ts[1..], gap);
      assert Render(ts, gap) == Decimal(t.value) + gap + UnitText(t.unit) + tail;
      FindAllToken(t.value, gap, t.unit, tail);
      SkipChar(tail);
      FindAllRender(ts[1..], gap);
    }
  }

  /** `mo` is read as a month, not as a minute followed by an `o`. */
  lemma MonthBeforeMinute()
    ensures Tokenize("1mo") == [Token(1, Month)]
  {
    assert Lower("1mo") == Decimal(1) + "" + UnitText(Month) + "";
    FindAllToken(1, "", Month, "");
  }

  /** Upper case is read as lower case: `M` is a minute. */
  lemma UpperCaseMinute()
    ensures Tokenize("1M") == [Token(1, Minute)]
  {
    assert Lower("1M") == Decimal(1) + "" + UnitText(Minute) + "";
    FindAllToken(1, "", Minute, "");
  }

  /** Letters after a unit are noise: "30min" is thirty minutes. */
  lemma MinuteWithSuffix()
    ensures Tokenize("30min") == [Token(30, Minute)]
  {
    var s := Decimal(30) + "" + UnitText(Minute) + "in";
    assert Lower("30min") == s;
    assert FindAll(s) == [Token(30, Minute)] + FindAll("in") by {
      FindAllToken(30, "", Minute, "in");
    }
    assert FindAll("in") == [] by {
      NoDigitsNoTokens("in");
    }
  }

  /** Whitespace between a magnitude and its unit is allowed: "2 d" is two days. */
  lemma SpacedUnit()
    ensures Tokenize("2 d") == [Token(2, Day)]
  {
    assert Lower("2 d") == Decimal(2) + " " + UnitText(Day) + "";
    FindAllToken(2, " ", Day, "");
  }

  /** A number with no unit is skipped: in "1 2d" only the days count. */
  lemma StrayNumber()
    ensures Tokenize("1 2d") == [Token(2, Day)]
  {
    var s, rest := "1 2d", "2d";
    assert Lower(s) == s && s == Decimal(1) + " " + rest;
    assert s[1..][1..] == rest == Decimal(2) + "" + UnitText(Day) + "";
    assert FindAll(s) == FindAll(s[1..]) by {
      NumberAfterSpace(Decimal(1), " ", rest);
      FindAllStep(s);
    }
    assert FindAll(s[1..]) == FindAll(rest) by {
      SkipChar(s[1..]);
    }
    FindAllToken(2, "", Day, "");
  }

  /** Several tokens are read in order, the space between them skipped. */
  lemma WeekThenDays()
    ensures Tokenize("1w 2d") == [Token(1, Week), Token(2, Day)]
  {
    var rest := " 2d";
    var text := Decimal(1) + "" + UnitText(Week) + rest;
    assert Lower("1w 2d") == text by {
      assert text == "1w 2d";
    }
    assert FindAll(rest) == [Token(2, Day)] by {
      assert rest[1..] == Decimal(2) + "" + UnitText(Day) + "";
      SkipChar(rest);
      FindAllToken(2, "", Day, "");
    }
    assert FindAll(text) == [Token(1, Week)] + FindAll(rest) by {
      FindAllToken(1, "", Week, rest);
    }
  }

  /** A bare `m` followed by more tokens is a minute: "1m5d" is one minute and five days. */
  lemma MinuteThenDays()
    ensures Tokenize("1m5d") == [Token(1, Minute), Token(5, Day)]
  {
    var rest := "5d";
    assert Lower("1m5d") == Decimal(1) + "" + UnitText(Minute) + rest;
    assert rest == Decimal(5) + "" + UnitText(Day) + "";
    assert FindAll(rest) == [Token(5, Day)] by {
      FindAllToken(5, "", Day, "");
    }
    FindAllToken(1, "", Minute, rest);
  }

  /** Text around a token is skipped and the unit's case is ignored. */
  lemma NoiseAround()
    ensures Tokenize("fetch since 1W please") == [Token(1, Week)]
  {
    var noise, tail := "fetch since ", " please";
    assert forall i :: 0 <= i < |noise| ==> !IsDigit(noise[i]);
    var token := Decimal(1) + "" + UnitText(Week) + tail;
    assert Lower("fetch since 1W please") == noise + token by {
      assert token == "1w please";
      assert Lower("fetch since 1W please") == "fetch since 1w please";
    }
    assert FindAll(token) == [Token(1, Week)] by {
      NoDigitsNoTokens(tail);
      FindAllToken(1, "", Week, tail);
    }
    assert FindAll(noise + token) == FindAll(token) by {
      SkipNoise(noise, token);
    }
  }

  /** Leading zeros are read as `int()` reads them: "08h" is eight hours. */
  lemma LeadingZero()
    ensures Tokenize("08h") == [Token(8, Hour)]
  {
    var s := "08h";
    assert Lower(s) == s && s == "08" + "" + "h";
    assert Value("08") == 8 by {
      assert "08"[..1] == "0" && ""[..0] == "";
    }
    assert MatchAt(s) == Some(Match(Token(8, Hour), 3)) by {
      MatchNumber("08", "", "h", Hour, 1);
    }
    FindAllMatch(s, Match(Token(8, Hour), 3), []);
  }

  /** A number at the end of the text, with no unit after it, is no token. */
  lemma TrailingNumber()
    ensures Tokenize("since 5") == []
  {
    var noise, number := "since ", "5";
    assert Lower("since 5") == noise + number;
    assert FindAll(number) == [] by {
      assert number == number + "" + "";
      NoUnitAfterNumber(number, "", "");
      FindAllStep(number);
    }
    assert FindAll(noise + number) == FindAll(number) by {
      assert forall i :: 0 <= i < |noise| ==> !IsDigit(noise[i]);
      SkipNoise(noise, number);
    }
  }

  /** A number followed by a letter that is no unit is skipped: "1x" holds no token. */
  lemma NotAUnit()
    ensures Tokenize("1x") == []
  {
    var s := "1x";
    assert Lower(s) == s && s == "1" + "" + "x";
    assert MatchAt(s).None? by {
      NoUnitAfterNumber("1", "", "x");
    }
    assert FindAll(s) == FindAll("x") by {
      FindAllStep(s);
      assert s[1..] == "x";
    }
    assert FindAll("x") == [] by {
      SkipChar("x");
    }
  }

  /** A text without digits has no token. */
  lemma BogusHasNoTokens()
    ensures Tokenize("bogus") == []
  {
    assert Lower("bogus") == "bogus";
    NoDigitsNoTokens("bogus");
  }
}
