/** The `/calendar` route with its HTTP and network plumbing taken out:
    the location check and lookup, the zmanim, the portion summary and the
    assembled response. */
module Calendar {
  import opened Wrappers
  import opened Durations
  import opened Instants
  import opened Zmanim
  import opened Parashah

  /** A latitude and longitude, in ten-thousandths of a degree; the route
      only places them in the upstream request URLs. */
  datatype Coord = Coord(lat: int, lon: int)

  const DefaultLocation: string := "New York"

  /** The fixed location table. */
  const Coords: map<string, Coord> := map[
    "New York" := Coord(407128, -740060),
    "Philadelphia" := Coord(399526, -751652),
    "Jerusalem" := Coord(317683, 352137)
  ]

  /** The query parameters `location` and `date`, each possibly missing. */
  datatype Request = Request(location: Option<string>, date: Option<string>)

  /** The `results` of the solar-event service: its `sunrise` and `sunset`
      strings, each possibly missing (both are when `results` is). */
  datatype SunData = SunData(sunrise: Option<string>, sunset: Option<string>)

  /** The calendar service's answer: its `date` label and its `items`, each
      possibly missing. */
  datatype HebcalData = HebcalData(date: Option<string>, items: Option<seq<Item>>)

  /** The `zmanim` object of the response; each field `HH:MM` or null. */
  datatype ZmanimView = ZmanimView(sunrise: Option<string>, sunset: Option<string>, chatzot: Option<string>, minchaGedola: Option<string>)

  datatype CalendarBody = CalendarBody(
    location: string,
    date: string,
    hebrewDate: string,
    items: seq<Item>,
    zmanim: ZmanimView,
    parashahSummary: string)

  /** What the route returns: the calendar, the 400 rejection, or an
      exception that escapes it. */
  datatype Reply = Response(body: CalendarBody) | Rejected(status: int, error: string) | Uncaught(e: Exception)

  /** `request.args.get('location', 'New York')`. */
  function LocationName(location: Option<string>): string {
    location.GetOr(DefaultLocation)
  }

  /** The coordinates of the requested location; `None` when it is not in
      the table. */
  function Resolve(location: Option<string>): (r: Option<Coord>)
    ensures r.Some? <==> LocationName(location) in Coords
    ensures r.Some? ==> r.value == Coords[LocationName(location)]
  {
    var name := LocationName(location);
    if name in Coords then Some(Coords[name]) else None
  }

  predicate OptionalHourMinute(s: Option<string>) {
    s.None? || IsHourMinute(s.value)
  }

  /** `t.strftime('%H:%M') if t else None`. */
  function Render(t: Option<Instant>): (r: Option<string>)
    ensures r.Some? <==> t.Some?
    ensures OptionalHourMinute(r)
    ensures r.Some? ==> ReadHourMinute(r.value) == Some(ClockOf(t.value))
  {
    match t
    case None => None
    case Some(i) => Some(FormatHourMinute(i))
  }

  /** The four rendered zmanim of parsed sunrise and sunset values. */
  function RenderZmanim(sunrise: Option<Instant>, sunset: Option<Instant>): (r: Result<ZmanimView, Exception>)
    ensures r.Err? <==> sunrise.Some? && sunset.Some? && !Comparable(sunrise.value, sunset.value)
    ensures r.Err? ==> r.error == TypeError
    ensures r.Ok? ==> r.value.sunrise == Render(sunrise) && r.value.sunset == Render(sunset)
    ensures r.Ok? ==> (r.value.chatzot.Some? <==> sunrise.Some? && sunset.Some?)
    ensures r.Ok? ==> (r.value.minchaGedola.Some? <==> r.value.chatzot.Some?)
    ensures r.Ok? ==> OptionalHourMinute(r.value.chatzot) && OptionalHourMinute(r.value.minchaGedola)
    ensures r.Ok? && r.value.chatzot.Some? ==>
      && ReadHourMinute(r.value.chatzot.value) == Some(ClockOf(DayTimes(sunrise.value, sunset.value).0))
      && ReadHourMinute(r.value.minchaGedola.value) == Some(ClockOf(DayTimes(sunrise.value, sunset.value).1))
  {
    match Derive(sunrise, sunset)
    case Err(e) => Err(e)
    case Ok(d) => Ok(ZmanimView(Render(sunrise), Render(sunset), Render(d.chatzot), Render(d.minchaGedola)))
  }

  /** The zmanim of one solar-service answer: both strings parsed in turn
      (an escaping parser exception ends the route there), then derived and
      rendered. */
  function SolarZmanim(sun: SunData, parse: string -> ParseOutcome): (r: Result<ZmanimView, Exception>)
    ensures r.Ok? ==> OptionalHourMinute(r.value.sunrise) && OptionalHourMinute(r.value.sunset)
    ensures r.Ok? ==> OptionalHourMinute(r.value.chatzot) && OptionalHourMinute(r.value.minchaGedola)
    ensures r.Ok? ==> (r.value.minchaGedola.Some? <==> r.value.chatzot.Some?)
    ensures r.Ok? ==> (r.value.chatzot.Some? <==> r.value.sunrise.Some? && r.value.sunset.Some?)
    ensures ParseTime(sun.sunrise, parse).Err? ==> r == Err(ParseTime(sun.sunrise, parse).error)
    ensures ParseTime(sun.sunrise, parse).Ok? && ParseTime(sun.sunset, parse).Err? ==>
      r == Err(ParseTime(sun.sunset, parse).error)
    ensures ParseTime(sun.sunrise, parse).Ok? && ParseTime(sun.sunset, parse).Ok? ==>
      r == RenderZmanim(ParseTime(sun.sunrise, parse).value, ParseTime(sun.sunset, parse).value)
  {
    match ParseTime(sun.sunrise, parse)
    case Err(e) => Err(e)
    case Ok(sunrise) =>
      match ParseTime(sun.sunset, parse)
      case Err(e) => Err(e)
      case Ok(sunset) => RenderZmanim(sunrise, sunset)
  }

  /** `get_calendar`: `today` is the date used when none is given, `hebcal`
      and `sun` are the two upstream services, and `parse` is the
      timestamp parser. */
  function GetCalendar(
    req: Request,
    today: string,
    hebcal: Coord -> HebcalData,
    sun: (Coord, string) -> SunData,
    parse: string -> ParseOutcome): (r: Reply)
    ensures LocationName(req.location) !in Coords ==> r == Rejected(400, "Unsupported location")
    ensures LocationName(req.location) in Coords ==> !r.Rejected?
    ensures LocationName(req.location) in Coords ==>
      var c := Coords[LocationName(req.location)];
      var z := SolarZmanim(sun(c, req.date.GetOr(today)), parse);
      var p := ParashahSummary(hebcal(c).items.GetOr([]));
      && (r.Response? <==> z.Ok? && p.Ok?)
      && (z.Err? ==> r == Uncaught(z.error))
      && (z.Ok? && p.Err? ==> r == Uncaught(p.error))
    ensures r.Response? ==>
      var c := Coords[LocationName(req.location)];
      && r.body.location == LocationName(req.location)
      && r.body.date == req.date.GetOr(today)
      && r.body.hebrewDate == hebcal(c).date.GetOr("N/A")
      && r.body.items == hebcal(c).items.GetOr([])
      && Ok(r.body.zmanim) == SolarZmanim(sun(c, req.date.GetOr(today)), parse)
      && Ok(r.body.parashahSummary) == ParashahSummary(hebcal(c).items.GetOr([]))
    ensures r.Response? ==>
      var z := r.body.zmanim;
      && OptionalHourMinute(z.sunrise) && OptionalHourMinute(z.sunset)
      && OptionalHourMinute(z.chatzot) && OptionalHourMinute(z.minchaGedola)
      && (z.chatzot.Some? <==> z.sunrise.Some? && z.sunset.Some?)
      && (z.minchaGedola.Some? <==> z.chatzot.Some?)
  {
    match Resolve(req.location)
    case None => Rejected(400, "Unsupported location")
    case Some(c) =>
      var date := req.date.GetOr(today);
      var calendar := hebcal(c);
      match SolarZmanim(sun(c, date), parse)
      case Err(e) => Uncaught(e)
      case Ok(zmanim) =>
        var items := calendar.items.GetOr([]);
        match ParashahSummary(items)
        case Err(e) => Uncaught(e)
        case Ok(summary) =>
          Response(CalendarBody(LocationName(req.location), date, calendar.date.GetOr("N/A"), items, zmanim, summary))
  }

  /** A missing location means New York. */
  lemma DefaultIsNewYork()
    ensures Resolve(None) == Some(Coord(407128, -740060))
  {
  }

  /** Only the three table names are accepted. */
  lemma SupportedLocations(name: string)
    ensures Resolve(Some(name)).Some? <==> name == "New York" || name == "Philadelphia" || name == "Jerusalem"
  {
  }
}
