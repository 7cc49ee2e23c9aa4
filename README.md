# telegram-manager: the `--since` parser and the `fetch` bookkeeping, in Dafny

`telegram-manager` is a command-line tool that fetches Telegram messages. The
`fetch` command accepts `--since`, a relative time such as `"1mo 2w 3d 4h 30m"`.
This project models the logic around that option in
`telegram_manager/main.py`:

- **The parser** `parse_relative_time_string`, in two stages.
  - `Tokenizer` models the scan `re.findall(r'(\d+)\s*(mo|w|d|h|m)', s.lower())`. It is a pure function from a string to a sequence of `(magnitude, unit)` tokens.
  - `RelativeTime` models the loop that walks back from "now" one token at a time.
    - `ParseRelativeTimeString` is the loop itself: an imperative method, proved equal to the specification function `ApplyTokens`.
    - Months step back in calendar months, as `relativedelta` does. Weeks, days, hours and minutes are fixed durations, as `timedelta` is.
- **Python's datetime arithmetic**, which the parser relies on.
  - `Calendar` models the proleptic Gregorian calendar and the day numbers Python uses, for the years 1 to 9999. `FromOrdinal` is proved to be the inverse of `Ordinal`.
  - `TimeDelta` models the two subtractions. Python raises an exception when a result would precede 0001-01-01; here that result is `None`.
- **The `fetch` command's bookkeeping** (`FetchCommand`).
  - The `found_min_id` cell becomes the class `MinIdTracker`. Its invariant ties it to the specification function `MinSoFar`.
  - The `--since`/`--verbose` gating becomes the method `Fetch`. The Telegram library's delivery of messages is a parameter of that method.

An expression with no token is not an error: the code returns `now` unchanged (telegram_manager/main.py:16-19, 32), and so does the model (`RelativeTime.NoTokenIsNow`, `Tokenizer.BogusHasNoTokens`).

## Model

| member | source | states |
|---|---|---|
| Tokenizer.Lower | telegram_manager/main.py:16 | lower-casing keeps the length of the text; each ASCII capital becomes its small letter, the character 32 code points above it; every other character is kept; no capital remains |
| Tokenizer.DigitRun | telegram_manager/main.py:16 | `\d+` is greedy: the run of digits taken is maximal, every character in it is a digit and the next one is not |
| Tokenizer.SpaceRun | telegram_manager/main.py:16 | `\s*` is greedy: the run of whitespace taken is maximal |
| Tokenizer.UnitAt | telegram_manager/main.py:16 | the alternation of `mo`, `w`, `d`, `h` and `m`, `mo` first: a unit found is exactly the text written at the start, lies within the text and starts with neither a digit nor whitespace; when no unit is found, the text starts with none of the five unit texts; `UnitAtText` shows that each unit written out is read back, `mo` as a month |
| Tokenizer.MatchAt | telegram_manager/main.py:16 | a match spans at least two characters (a digit and a unit letter) and lies within the text, so the scan always moves forward |
| Tokenizer.FindAll | telegram_manager/main.py:16 | `re.findall` of the pattern: there are at most half as many tokens as characters; what the tokens are is stated by `FindAllRender`, `FindAllToken`, `SkipChar`, `SkipNoise` and `NoDigitsNoTokens` |
| Tokenizer.Tokenize | telegram_manager/main.py:16 | the scan of the lower-cased text: at most half as many tokens as characters; `TokenizeCaseInsensitive` and the examples below state which tokens |
| Tokenizer.Value | telegram_manager/main.py:20 | `int()` of a digit string; it has no contract of its own, and `ValueDecimal` states that it reads the decimal digits of `n` back as `n` |
| Tokenizer.ValueDecimal | telegram_manager/main.py:20 | `int()` of the decimal digits of `n` is `n` |
| Tokenizer.MatchNumber | telegram_manager/main.py:16-20 | a run of digits (leading zeros allowed), any run of whitespace (possibly empty) and a unit match as one token whose magnitude is `int()` of the digits, with that unit, spanning all three |
| Tokenizer.NoUnitAfterNumber | telegram_manager/main.py:16 | a run of digits and a run of whitespace with no unit after them match nothing at that position, including at the end of the text |
| Tokenizer.NumberAfterSpace | telegram_manager/main.py:16 | a run of digits, whitespace and a second number: no match starts at the first run |
| Tokenizer.MatchToken | telegram_manager/main.py:16 | at a run of digits, whitespace and a unit, the scan emits one token and resumes just past the unit |
| Tokenizer.FindAllToken | telegram_manager/main.py:16 | the scan emits a written token, with any run of whitespace between magnitude and unit, and resumes just past its unit; `mo` is never split into a minute and an `o` |
| Tokenizer.SkipChar | telegram_manager/main.py:16 | where no digit starts, the scan moves on by one character |
| Tokenizer.SkipNoise | telegram_manager/main.py:16 | text without digits in front of an expression is ignored |
| Tokenizer.NoDigitsNoTokens | telegram_manager/main.py:16 | text without digits holds no token |
| Tokenizer.TokenizeCaseInsensitive | telegram_manager/main.py:16 | two texts that differ only in the case of ASCII letters hold the same tokens |
| Tokenizer.FindAllRender | telegram_manager/main.py:16 | round trip: tokens written in the documented form `"1mo 2w 3d 4h 30m "`, with the same run of whitespace (possibly empty) between each magnitude and its unit, are read back exactly, in order |
| Tokenizer.MonthBeforeMinute | telegram_manager/main.py:16 | `"1mo"` is one month, not one minute |
| Tokenizer.UpperCaseMinute | telegram_manager/main.py:16 | `"1M"` is one minute: case is ignored |
| Tokenizer.MinuteWithSuffix | telegram_manager/main.py:16 | `"30min"` is thirty minutes |
| Tokenizer.MinuteThenDays | telegram_manager/main.py:16 | `"1m5d"` is one minute, then five days |
| Tokenizer.SpacedUnit | telegram_manager/main.py:16 | `"2 d"` is two days: whitespace may separate a magnitude from its unit |
| Tokenizer.StrayNumber | telegram_manager/main.py:16 | `"1 2d"` is two days: a number without a unit is skipped |
| Tokenizer.LeadingZero | telegram_manager/main.py:16-20 | `"08h"` is eight hours: leading zeros are read as `int()` reads them |
| Tokenizer.TrailingNumber | telegram_manager/main.py:16 | `"since 5"` holds no token: a number at the end of the text has no unit |
| Tokenizer.NotAUnit | telegram_manager/main.py:16 | `"1x"` holds no token: a number followed by anything but a unit is skipped |
| Tokenizer.WeekThenDays | telegram_manager/main.py:16 | `"1w 2d"` is one week, then two days |
| Tokenizer.NoiseAround | telegram_manager/main.py:16 | `"fetch since 1W please"` holds exactly the token of `"1w"` |
| Tokenizer.BogusHasNoTokens | telegram_manager/main.py:16 | `"bogus"` holds no token |
| TimeDelta.SubtractMinutes | telegram_manager/main.py:23-30 | `t - timedelta(...)` on whole minutes: it fails exactly when the result would precede 0001-01-01 00:00; otherwise the result is valid, exactly `k` minutes earlier, and keeps its seconds and microseconds |
| TimeDelta.SubtractMonths | telegram_manager/main.py:21-22 | `t - relativedelta(months=n)`: it fails exactly when the target month precedes January of year 1; otherwise the result is valid and exactly `n` months earlier; it keeps the day of the month if that day exists, else it takes the month's last day; the time of day is kept |
| TimeDelta.SubtractMinutesNotAfter | telegram_manager/main.py:23-30 | a fixed subtraction never moves forward in time |
| TimeDelta.SubtractMonthsNotAfter | telegram_manager/main.py:21-22 | a month subtraction never moves forward in time |
| TimeDelta.SubtractMinutesAdd | telegram_manager/main.py:23-30 | two fixed subtractions in a row equal one subtraction of their sum, failure included |
| TimeDelta.SubtractZero | telegram_manager/main.py:21-30 | subtracting zero months or zero minutes is the identity |
| TimeDelta.PreviousDayInMonth | telegram_manager/main.py:25-26 | one day back from a day other than the 1st is the previous day of the same month, at the same time |
| RelativeTime.FixedMinutes | telegram_manager/main.py:23-30 | the duration of a week, day, hour or minute token in minutes; it has no contract of its own, and `FixedTokensAdd` and `ApplyToken` state what subtracting it does |
| RelativeTime.ApplyToken | telegram_manager/main.py:21-30 | one token applied to a valid instant gives a valid instant or a failure |
| RelativeTime.ApplyTokens | telegram_manager/main.py:19-30 | the tokens applied in order give a valid instant or a failure |
| RelativeTime.ParseRelativeTimeString | telegram_manager/main.py:15-32 | the loop's result is the tokens of the lower-cased input applied to `now` in textual order, the first failure ending it; a result is valid and never later than `now` |
| RelativeTime.ApplyTokensNotAfter | telegram_manager/main.py:17-32 | the result is never later than `now` |
| RelativeTime.ZeroIsNoOp | telegram_manager/main.py:20-30 | a zero magnitude is a no-op for every unit |
| RelativeTime.FixedTokensAdd | telegram_manager/main.py:23-30 | an expression of weeks, days, hours and minutes only subtracts the sum of their durations (a week is 10080 minutes, a day 1440, an hour 60) |
| RelativeTime.NoTokenIsNow | telegram_manager/main.py:16-32 | an input without digits returns `now` unchanged |
| RelativeTime.WeekAndTwoDays | telegram_manager/main.py:16-30 | `"1w 2d"` is exactly nine days before `now` |
| RelativeTime.MonthVersusMinute | telegram_manager/main.py:16-30 | `"1mo"` subtracts one calendar month and `"1M"` one minute |
| RelativeTime.EndOfMarchMinusMonth | telegram_manager/main.py:21-22 | the 29th, 30th or 31st of March minus one month is the last day of February (28th or 29th), at the same time |
| RelativeTime.OneDayBack | telegram_manager/main.py:25-26 | `1d` from a day other than the 1st is the previous day of the same month |
| RelativeTime.DayThenMonth | telegram_manager/main.py:19-30 | from 31 March, `"1d 1mo"` gives the last day of February |
| RelativeTime.MonthThenDay | telegram_manager/main.py:19-30 | from 31 March, `"1mo 1d"` gives the day before the last day of February |
| RelativeTime.OrderMatters | telegram_manager/main.py:19-30 | token order matters: from 31 March, `"1d 1mo"` and `"1mo 1d"` give different instants |
| FetchCommand.MinSoFar | telegram_manager/main.py:86-87 | after a sequence of processed ids, the minimum is unset exactly when none was processed; otherwise it is one of those ids and no larger than any of them |
| FetchCommand.MinIdTracker.constructor | telegram_manager/main.py:75 | the cell starts unset, with no id processed |
| FetchCommand.MinIdTracker.Observe | telegram_manager/main.py:86-87 | each processed id keeps the cell equal to the minimum of all ids so far; the new value is set, is no larger than the new id, and never increases |
| FetchCommand.MinSoFarNeverIncreases | telegram_manager/main.py:86-87 | processing more messages never raises the minimum and never unsets it |
| FetchCommand.MinSoFarOrderFree | telegram_manager/main.py:86-87 | the minimum does not depend on the order in which the messages arrive |
| FetchCommand.MinSoFarExample | telegram_manager/main.py:86-87 | ids 50, 48, 52 leave 48 |
| FetchCommand.SinceGiven | telegram_manager/main.py:70 | the truth test `if since`, also used at telegram_manager/main.py:101: a present, non-empty value; it has no contract of its own, and `Fetch` states what it gates |
| FetchCommand.Fetch | telegram_manager/main.py:69-101 | an absent or empty `--since` is not parsed and gives no start date; a parse failure is the "Invalid --since value" error naming the value, raised before any message is fetched; otherwise the start date is the parse result, the minimum id is that of the delivered messages, and a summary exists exactly when `--since` and `--verbose` are both set, carrying the start date and the minimum id |

## Left out

- The click group, its options and the `listen` command (telegram_manager/main.py:35-47, 105-125): these are command-line wiring with no logic of their own.
- `TelegramManager` and `fetch_messages` (telegram_manager/main.py:74, 92-99). The library's filtering by `min_id`, `limit` and `since_date`, and its network session, are not part of this model.
  - The ids of the messages it hands to the message processor are a parameter of `Fetch`.
  - `delivered` lists the ids whose processor call reached the update of `found_min_id` (telegram_manager/main.py:86). A message whose printing raises is not among them.
- Printing, ANSI colours, `astimezone()` and `strftime` (telegram_manager/main.py:78-84, 90, 102): output formatting in the host's local time zone. The summary line is modelled as the pair of values it shows.
- Reading the clock (telegram_manager/main.py:17): "now" is a parameter, a valid UTC date-time.
- Unicode: Python's `\d`, `\s` and `str.lower()` also act on non-ASCII characters, but the model treats only ASCII digits, ASCII whitespace and ASCII capitals specially.
- Exception types and messages: every `OverflowError` or `ValueError` of the datetime arithmetic is a `None` result. The parameter error keeps the offending value but not the underlying cause's text.
- RelativeTime.ParseRelativeTimeString: does not model Python's limit on `int()` of a string of more than 4300 digits (Python 3.11 and later, and the security releases 3.7.14, 3.8.14, 3.9.14 and 3.10.7). The model reads any number of digits.
  - Leading zeros count toward that limit. For `"0" * 4300 + "1d"` the source raises `ValueError`, which `fetch` reports as an invalid `--since` value. The model instead reads the magnitude 1 and returns one day before `now`.
  - Without leading zeros, a magnitude of more than 4300 digits makes the subtraction fail in the model too, because the result would fall before year 1. Both then end in the same error.
- Dates after 9999-12-31 cannot arise: the parser only moves back from a valid "now".
- Seconds and microseconds of "now" are carried through unchanged. No token can change them, because every unit is a whole number of minutes.
