/** Worked days: concrete sunrise and sunset values and the response the
    route builds from them. */
module Scenarios {
  import opened Wrappers
  import opened Durations
  import opened Instants
  import opened Zmanim
  import opened Parashah
  import opened Calendar

  /** Midnight starting 2024-05-01, in microseconds since 1970-01-01. */
  const May1: int := 19844 * MicrosPerDay

  /** `hh:mm` on 2024-05-01 at UTC offset `offset` seconds. */
  function At(hour: int, minute: int, offset: int): Instant {
    Instant(May1 + hour * MicrosPerHour + minute * MicrosPerMinute, Some(offset))
  }

  /** The wall clock of `At(hour, minute, _)` shows `hour:minute`. */
  lemma ClockAt(hour: int, minute: int, offset: int)
    requires 0 <= hour < 24 && 0 <= minute < 60
    ensures FormatHourMinute(At(hour, minute, offset)) == WriteHourMinute(ClockTime(hour, minute))
  {
    var m := hour * 60 + minute;
    var t := m * MicrosPerMinute;
    assert At(hour, minute, offset).wall == 19844 * MicrosPerDay + t;
    DivModOf(19844 * MicrosPerDay + t, MicrosPerDay, 19844, t);
    DivModOf(t, MicrosPerMinute, m, 0);
    DivModOf(m, 60, hour, minute);
  }

  /** A twelve-hour day: chatzot at noon and mincha gedola half an hour later. */
  lemma TwelveHourDay()
    ensures RenderZmanim(Some(At(6, 0, 0)), Some(At(18, 0, 0)))
      == Ok(ZmanimView(Some("06:00"), Some("18:00"), Some("12:00"), Some("12:30")))
  {
    var sunrise, sunset := At(6, 0, 0), At(18, 0, 0);
    WholeMinuteDay(sunrise, sunset);
    assert DayTimes(sunrise, sunset) == (At(12, 0, 0), At(12, 30, 0));
    ClockAt(6, 0, 0);
    WriteReadHourMinute("06:00");
    ClockAt(18, 0, 0);
    WriteReadHourMinute("18:00");
    ClockAt(12, 0, 0);
    WriteReadHourMinute("12:00");
    ClockAt(12, 30, 0);
    WriteReadHourMinute("12:30");
  }

  /** A fourteen-hour day: a halachic hour of 70 minutes puts mincha gedola
      35 minutes after chatzot. */
  lemma FourteenHourDay()
    ensures RenderZmanim(Some(At(5, 30, 0)), Some(At(19, 30, 0)))
      == Ok(ZmanimView(Some("05:30"), Some("19:30"), Some("12:30"), Some("13:05")))
  {
    var sunrise, sunset := At(5, 30, 0), At(19, 30, 0);
    WholeMinuteDay(sunrise, sunset);
    assert DayTimes(sunrise, sunset) == (At(12, 30, 0), At(13, 5, 0));
    ClockAt(5, 30, 0);
    WriteReadHourMinute("05:30");
    ClockAt(19, 30, 0);
    WriteReadHourMinute("19:30");
    ClockAt(12, 30, 0);
    WriteReadHourMinute("12:30");
    ClockAt(13, 5, 0);
    WriteReadHourMinute("13:05");
  }

  /** A missing sunset leaves every derived time absent. */
  lemma NoSunset()
    ensures RenderZmanim(Some(At(5, 30, 0)), None)
      == Ok(ZmanimView(Some("05:30"), None, None, None))
  {
    ClockAt(5, 30, 0);
    WriteReadHourMinute("05:30");
  }

  /** New York in May: the times come in at offset -04:00 and are shown on
      that clock. */
  lemma NewYorkOffsetDay()
    ensures RenderZmanim(Some(At(5, 52, -4 * 3600)), Some(At(19, 52, -4 * 3600)))
      == Ok(ZmanimView(Some("05:52"), Some("19:52"), Some("12:52"), Some("13:27")))
  {
    var sunrise, sunset := At(5, 52, -4 * 3600), At(19, 52, -4 * 3600);
    WholeMinuteDay(sunrise, sunset);
    assert DayTimes(sunrise, sunset) == (At(12, 52, -4 * 3600), At(13, 27, -4 * 3600));
    ClockAt(5, 52, -4 * 3600);
    WriteReadHourMinute("05:52");
    ClockAt(19, 52, -4 * 3600);
    WriteReadHourMinute("19:52");
    ClockAt(12, 52, -4 * 3600);
    WriteReadHourMinute("12:52");
    ClockAt(13, 27, -4 * 3600);
    WriteReadHourMinute("13:27");
  }

  /** The same day with the sunrise written in UTC: no time zone is
      converted, so chatzot and mincha gedola are shown on the sunrise's
      UTC clock while the sunset keeps its own. */
  lemma MixedOffsetDay()
    ensures RenderZmanim(Some(At(9, 52, 0)), Some(At(19, 52, -4 * 3600)))
      == Ok(ZmanimView(Some("09:52"), Some("19:52"), Some("16:52"), Some("17:27")))
  {
    var sunrise, sunset := At(9, 52, 0), At(19, 52, -4 * 3600);
    WholeMinuteDay(sunrise, sunset);
    assert DayTimes(sunrise, sunset) == (At(16, 52, 0), At(17, 27, 0));
    ClockAt(9, 52, 0);
    WriteReadHourMinute("09:52");
    ClockAt(19, 52, -4 * 3600);
    WriteReadHourMinute("19:52");
    ClockAt(16, 52, 0);
    WriteReadHourMinute("16:52");
    ClockAt(17, 27, 0);
    WriteReadHourMinute("17:27");
  }

  /** A naive sunrise cannot be subtracted from an aware sunset. */
  lemma NaiveAndAware()
    ensures RenderZmanim(Some(Instant(May1, None)), Some(At(18, 0, 0))) == Err(TypeError)
  {
  }

  const EmorItems: seq<Item> := [
    Item(Some("holiday"), Some("Pesach Sheni"), []),
    Item(Some("parashat"), Some(EmorTitleText), [("hebrew", "פרשת אמור")])
  ]

  function EmorCalendar(c: Coord): HebcalData {
    HebcalData(None, Some(EmorItems))
  }

  function TwelveHourSun(c: Coord, date: string): SunData {
    SunData(Some("sunrise"), Some("sunset"))
  }

  function TwelveHourParser(s: string): ParseOutcome {
    if s == "sunrise" then Parsed(At(6, 0, 0))
    else if s == "sunset" then Parsed(At(18, 0, 0))
    else Raised(ValueError)
  }

  /** The twelve-hour day the sun service reports, rendered. */
  lemma TwelveHourZmanim(c: Coord, date: string)
    ensures SolarZmanim(TwelveHourSun(c, date), TwelveHourParser)
      == Ok(ZmanimView(Some("06:00"), Some("18:00"), Some("12:00"), Some("12:30")))
  {
    assert ParseTime(Some("sunrise"), TwelveHourParser) == Ok(Some(At(6, 0, 0)));
    assert ParseTime(Some("sunset"), TwelveHourParser) == Ok(Some(At(18, 0, 0)));
    TwelveHourDay();
  }

  /** The calendar's second item is the portion Emor, so its summary is
      the one for `"Emor"`. */
  lemma EmorItemsSummary()
    ensures ParashahSummary(EmorItems) == Ok("Discusses priestly duties, sacred times, and festivals.")
  {
    EmorTitle();
    assert FirstParashat(EmorItems) == Some(1);
  }

  /** A whole request: no location given, so New York; the services answer
      with a twelve-hour day and a calendar whose second item is the
      portion Emor. */
  lemma NewYorkEmorWeek()
    ensures GetCalendar(Request(None, Some("2024-05-01")), "2024-04-30", EmorCalendar, TwelveHourSun, TwelveHourParser)
      == Response(CalendarBody(
        "New York", "2024-05-01", "N/A", EmorItems,
        ZmanimView(Some("06:00"), Some("18:00"), Some("12:00"), Some("12:30")),
        "Discusses priestly duties, sacred times, and festivals."))
  {
    DefaultIsNewYork();
    TwelveHourZmanim(Coord(407128, -740060), "2024-05-01");
    EmorItemsSummary();
  }

  /** A calendar whose portion title is a single space. */
  function BlankTitleCalendar(c: Coord): HebcalData {
    HebcalData(None, Some([Item(Some("parashat"), Some(" "), [])]))
  }

  /** The same request with a blank portion title: the zmanim succeed, but
      the summary's `IndexError` escapes the route. */
  lemma BlankTitleEscapes()
    ensures GetCalendar(Request(None, Some("2024-05-01")), "2024-04-30", BlankTitleCalendar, TwelveHourSun, TwelveHourParser)
      == Uncaught(IndexError)
  {
    DefaultIsNewYork();
    TwelveHourZmanim(Coord(407128, -740060), "2024-05-01");
    WhitespaceTitleRaises(" ");
  }

  /** An unknown location is refused whatever else the request holds. */
  lemma BostonRefused(date: Option<string>, today: string, hebcal: Coord -> HebcalData,
                      sun: (Coord, string) -> SunData, parse: string -> ParseOutcome)
    ensures GetCalendar(Request(Some("Boston"), date), today, hebcal, sun, parse) == Rejected(400, "Unsupported location")
  {
    SupportedLocations("Boston");
  }
}
