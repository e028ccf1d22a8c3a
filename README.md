# The `/calendar` route of the Jewish calendar API, in Dafny

This project models the computation inside `get_calendar` in
`jewish_calendar_api.py`, with the web and network plumbing removed. The
route does five things, and the model does each one:

- **Location.** It reads the `location` query parameter, which defaults to
  `New York`. A name outside the three-entry `coords` table is refused with
  status 400 and `Unsupported location`. A name in the table gives exactly
  that entry.
- **Timestamps.** It parses the `sunrise` and `sunset` strings of the
  solar service with the nested `parse_time`:
  - a missing or empty string is absent, and the parser is not called;
  - a `ValueError` from the parser makes the value absent;
  - any other exception escapes the route.
- **Derived times.** It derives chatzot and mincha gedola:
  `chatzot = sunrise + (sunset - sunrise) / 2` and
  `mincha_gedola = chatzot + ((sunset - sunrise) / 12) / 2`. Both are
  computed only when both inputs are present.
- **Rendering.** Each of the four times is shown as `strftime('%H:%M')`,
  or null when it is absent.
- **Weekly portion.** It picks the first calendar item whose category is
  `parashat`. Its title's last whitespace-separated word is looked up in a
  four-entry table of summaries; a miss gives `''`. Finally it assembles the
  response, with `hebrew_date` defaulting to `N/A` and `items` to `[]`.

Python's semantics are written out in integers:

- A `datetime` is its wall-clock reading in microseconds, with an optional
  fixed UTC offset in seconds. No offset means a naive value.
- Subtracting two aware values gives their UTC difference. Subtracting a
  naive value from an aware one, or the reverse, raises `TypeError`.
- Adding a duration moves the wall clock and keeps the offset.
- A duration divided by an `int` is rounded to the nearest microsecond,
  ties to even.
- `%H:%M` reads the value's own wall clock and cuts off the seconds. It
  converts no time zone.
- `str.split()` splits on exactly the characters `str.isspace()` accepts.

Two behaviours of the code are reproduced as written:

- The lookup key is only the title's last word. So the two-word key
  `Achrei Mot` can never be reached, and the title `Parashat Achrei Mot`
  gets `''` (`Parashah.AchreiMotUnreachable`, `Parashah.AchreiMotTitle`).
- A title made only of whitespace passes the truthiness test. `split()` on
  it returns `[]`, so `[-1]` raises `IndexError`
  (`Parashah.WhitespaceTitleRaises`).

Modules, one per file:

| module | what it holds |
|---|---|
| `Wrappers` | `Option`, `Result`, and the exceptions that can escape |
| `Durations` | round-half-even division of `timedelta` |
| `Instants` | `datetime` subtraction and shift, and `HH:MM` writing and reading |
| `Zmanim` | `parse_time` and the derived times, with their arithmetic laws |
| `Words` | `str.split()`, and the last word read from the end |
| `Parashah` | portion selection and summary lookup |
| `Calendar` | the location table, rendering, and the whole route |
| `Scenarios` | worked days and whole requests |

The two upstream services and the timestamp parser are function
parameters of `Calendar.GetCalendar`. The date used when none is given is
a parameter too.

## Model

| member | source | states |
|---|---|---|
| Durations.DivRound | jewish_calendar_api.py:49-51 | `timedelta / n` is the nearest multiple of a microsecond; at a tie the quotient is even |
| Durations.DivRoundUnique | jewish_calendar_api.py:49-51 | exactly one quotient is nearest with ties to even, and `DivRound` is it |
| Durations.DivRoundExact | jewish_calendar_api.py:49-51 | dividing an exact multiple gives the exact quotient |
| Durations.DivRoundNegate | jewish_calendar_api.py:49-51 | rounding is symmetric: dividing `-a` gives minus the quotient of `a` |
| Durations.DivRoundBounds | jewish_calendar_api.py:49-51 | for a non-negative duration the quotient lies between 0 and the duration |
| Instants.Subtract | jewish_calendar_api.py:49-50 | `sunset - sunrise` succeeds exactly when both are naive or both aware, and is then their difference on the time line; otherwise it raises `TypeError` |
| Instants.Shift | jewish_calendar_api.py:49-51 | adding a duration keeps the offset and moves the time-line position by the duration |
| Instants.ClockOf | jewish_calendar_api.py:71-74 | the hour and minute shown are valid, and the wall clock's time of day lies within that minute (seconds cut off, not rounded) |
| Instants.WriteHourMinute | jewish_calendar_api.py:71-74 | writing a clock time gives an `HH:MM` string that reads back as that time |
| Instants.FormatHourMinute | jewish_calendar_api.py:71-74 | `strftime('%H:%M')` is a 5-character zero-padded `HH:MM` string reading back as the instant's own wall-clock hour and minute |
| Instants.WriteReadHourMinute | jewish_calendar_api.py:71-74 | every valid `HH:MM` string is what writing its clock time gives, so `HH:MM` loses nothing about hour and minute |
| Instants.FormatDependsOnWallMinute | jewish_calendar_api.py:71-74 | two instants whose wall clocks fall in the same minute of the day render alike, whatever their offsets: no zone is converted |
| Zmanim.ParseTime | jewish_calendar_api.py:36-40 | a missing or empty string is absent; a `ValueError` is absent; any other exception escapes, and only for a non-empty string; a parsed value is returned unchanged |
| Zmanim.DayTimes | jewish_calendar_api.py:49-51 | chatzot and mincha gedola carry the sunrise's UTC offset |
| Zmanim.Derive | jewish_calendar_api.py:45-51 | both derived times are absent when either input is; neither is partial; `TypeError` exactly for a naive and aware pair; present times are those of `DayTimes` |
| Zmanim.ChatzotIsMidpoint | jewish_calendar_api.py:49 | chatzot is the midpoint of sunrise and sunset to within half a microsecond, and exactly the midpoint when the day length is even |
| Zmanim.MinchaGedolaOffset | jewish_calendar_api.py:50-51 | mincha gedola minus chatzot is half the rounded halachic hour, and 24 times that gap differs from the day length by at most 18 microseconds |
| Zmanim.WholeMinuteDay | jewish_calendar_api.py:49-51 | when the day length is a multiple of 24 microseconds (any whole number of minutes), chatzot is exactly half the day after sunrise and mincha gedola exactly a twenty-fourth of the day after chatzot |
| Zmanim.InOrder | jewish_calendar_api.py:48-51 | when sunset is not before sunrise: sunrise ≤ chatzot ≤ mincha gedola ≤ sunset |
| Zmanim.InReverseOrder | jewish_calendar_api.py:48-51 | nothing checks the order, and with sunset before sunrise the same formulas give sunset ≤ mincha gedola ≤ chatzot ≤ sunrise |
| Words.Split | jewish_calendar_api.py:63 | every element of `title.split()` is non-empty and holds no whitespace |
| Words.SplitEmptyIffAllSpace | jewish_calendar_api.py:63 | `split()` gives `[]` exactly when the string is whitespace only (the empty string included) |
| Words.LastWord | jewish_calendar_api.py:63 | the last word read from the end is a word, and is absent exactly when the string is whitespace only |
| Words.LastWordIsLastOfSplit | jewish_calendar_api.py:63 | `split()[-1]` is the last word read from the end, and `split()` is empty exactly when there is none |
| Words.LastWordAfterSpace | jewish_calendar_api.py:63 | a word at the end of a string, after whitespace or at its start, is its last word |
| Parashah.FirstParashat | jewish_calendar_api.py:61 | the position found is of a `parashat` item with none before it; nothing is found exactly when no item is `parashat` |
| Parashah.LookupSummary | jewish_calendar_api.py:54-59 | `summaries.get(key, '')`: the table's entry for a key in it, `''` for any other |
| Parashah.SummaryOf | jewish_calendar_api.py:62-63 | a missing or empty title gives `''`; `IndexError` exactly for a non-empty title of whitespace only; otherwise the summary is the lookup of the title's last word |
| Parashah.ParashahSummary | jewish_calendar_api.py:61-63 | with no `parashat` item the summary is `''`; otherwise it is `SummaryOf` the title of the first `parashat` item |
| Parashah.SameLastWordSameSummary | jewish_calendar_api.py:63 | two titles with the same last word get the same summary, and without error |
| Parashah.AchreiMotUnreachable | jewish_calendar_api.py:56-63 | no title, present or missing, yields the `Achrei Mot` summary |
| Parashah.SummaryAtLastSpan | jewish_calendar_api.py:63 | a title whose last word lies at `title[b..e]` gets the lookup of exactly that word |
| Parashah.AchreiMotLastWord | jewish_calendar_api.py:63 | the last word of `Parashat Achrei Mot` is `Mot` |
| Parashah.AchreiMotTitle | jewish_calendar_api.py:54-63 | `Parashat Achrei Mot` gets `''`, because `Mot` is not a key |
| Parashah.EmorLastWord | jewish_calendar_api.py:63 | the last word of `Parashat Emor` is `Emor` |
| Parashah.EmorTitle | jewish_calendar_api.py:54-63 | `Parashat Emor` gets the `Emor` summary |
| Parashah.WhitespaceTitleRaises | jewish_calendar_api.py:63 | a non-empty title of whitespace only raises `IndexError` and does not give `''` |
| Calendar.Resolve | jewish_calendar_api.py:20-26 | a location is accepted exactly when its name, `New York` when missing, is in the table, and then gives that table entry |
| Calendar.DefaultIsNewYork | jewish_calendar_api.py:9-20 | a request without a location gets New York's coordinates |
| Calendar.SupportedLocations | jewish_calendar_api.py:8-12 | exactly `New York`, `Philadelphia` and `Jerusalem` are accepted |
| Calendar.Render | jewish_calendar_api.py:71-74 | an absent time renders as null; a present one as an `HH:MM` string of its own wall clock |
| Calendar.RenderZmanim | jewish_calendar_api.py:45-74 | `TypeError` exactly for a naive and aware pair; otherwise sunrise and sunset are rendered; chatzot and mincha gedola are present together, only with both inputs, and show the clocks of `DayTimes` |
| Calendar.SolarZmanim | jewish_calendar_api.py:43-74 | the sunrise is parsed first, and its escaping exception wins; then the sunset's; otherwise the view is `RenderZmanim` of the two parsed values, all fields null or `HH:MM` |
| Calendar.GetCalendar | jewish_calendar_api.py:19-77 | an unsupported location gives 400 `Unsupported location` whatever the date and services; for a supported one the reply is a response exactly when the zmanim and the summary both succeed, otherwise `Uncaught` with the zmanim's exception (a parser error other than `ValueError`, or `TypeError` for a naive and aware pair) or else the summary's (`IndexError` for a whitespace-only title); a response echoes the location and date (defaulting to the given day), defaults `hebrew_date` to `N/A` and `items` to `[]`, and carries the zmanim and summary of the table entry's service answers |
| Scenarios.ClockAt | jewish_calendar_api.py:71-74 | a value whose wall clock reads `hh:mm`, at any offset, renders as that `hh:mm` |
| Scenarios.TwelveHourDay | jewish_calendar_api.py:48-74 | 06:00 and 18:00 give chatzot 12:00 and mincha gedola 12:30 |
| Scenarios.FourteenHourDay | jewish_calendar_api.py:48-74 | 05:30 and 19:30 give chatzot 12:30 and mincha gedola 13:05 |
| Scenarios.NoSunset | jewish_calendar_api.py:45-74 | without a sunset only the sunrise is shown |
| Scenarios.NewYorkOffsetDay | jewish_calendar_api.py:48-74 | at offset -04:00, 05:52 and 19:52 give 12:52 and 13:27 on that clock |
| Scenarios.MixedOffsetDay | jewish_calendar_api.py:48-74 | a UTC sunrise with a -04:00 sunset shows the derived times on the sunrise's UTC clock |
| Scenarios.NaiveAndAware | jewish_calendar_api.py:49 | a naive sunrise with an aware sunset raises `TypeError` |
| Scenarios.TwelveHourZmanim | jewish_calendar_api.py:43-74 | service strings parsed as 06:00 and 18:00 render as 06:00, 18:00, 12:00 and 12:30 |
| Scenarios.EmorItemsSummary | jewish_calendar_api.py:61-63 | a calendar whose second item is the portion Emor gets the Emor summary |
| Scenarios.NewYorkEmorWeek | jewish_calendar_api.py:19-77 | a whole request without a location is answered for New York with the date echoed, `N/A`, the items, the four times and the summary |
| Scenarios.BlankTitleEscapes | jewish_calendar_api.py:61-63 | a request whose portion title is a single space gets no response: the `IndexError` of `split()[-1]` escapes the route |
| Scenarios.BostonRefused | jewish_calendar_api.py:23-24 | `Boston` is refused with 400 whatever the date, day and services |

## Left out

- The Flask application, the `/` route, `render_template`, `jsonify` and `app.run` are web plumbing. The route's result is the `Reply` value.
- The two `requests.get` calls and their JSON decoding are network I/O. Their decoded answers are function parameters: the calendar's `date` and `items`, and the solar `sunrise` and `sunset` strings, each possibly missing. A missing `results` object appears as both strings missing.
- JSON values of the wrong type are not modelled: a `results` that is not an object (the solar service answers `"results": ""` on an error status, and `sun_data.get('sunrise')` then raises `AttributeError`, which the route does not catch), a `null` or non-list `items`, a non-string `title`, `date`, `sunrise` or `sunset`, and items that are not objects. Each would raise an exception or be passed through in Python.
- The internals of `dateutil.parser.parse` belong to a foreign library. The parser is a parameter that returns a value or raises an exception.
- `datetime.now()` reads the clock. The date used when none is given is a parameter.
- The latitude and longitude floats are only placed into URLs. They are kept as exact integers in ten-thousandths of a degree.
- Named time zones with changing rules are not modelled. An offset is fixed per value, as in the ISO 8601 strings the solar service returns.
- `OverflowError` from a `datetime` leaving years 1 to 9999, and from a `timedelta` beyond its range, is not modelled. Instants and durations are unbounded integers.
- Unicode case and normalisation play no part. Strings are sequences of code points, and `str.split()` is modelled on exactly the whitespace set of `str.isspace()`.
