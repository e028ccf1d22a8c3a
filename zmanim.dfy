/** The two solar times the route reads, and the two halachic times it
    derives from them: chatzot (midday) and mincha gedola (half a
    halachic hour after midday). */
module Zmanim {
  import opened Wrappers
  import opened Durations
  import opened Instants

  /** What the timestamp parser does with one non-empty string: return a
      `datetime`, or raise. */
  datatype ParseOutcome = Parsed(t: Instant) | Raised(e: Exception)

  /** The nested `parse_time`: a missing or empty string is absent without
      calling the parser, a `ValueError` from the parser is absent, and any
      other exception escapes. */
  function ParseTime(iso: Option<string>, parse: string -> ParseOutcome): (r: Result<Option<Instant>, Exception>)
    ensures (iso.None? || iso == Some("")) ==> r == Ok(None)
    ensures r.Err? <==> iso.Some? && iso.value != "" && parse(iso.value).Raised? && parse(iso.value).e != ValueError
    ensures r.Err? ==> r.error == parse(iso.value).e
    ensures r.Ok? && r.value.Some? <==> iso.Some? && iso.value != "" && parse(iso.value).Parsed?
    ensures r.Ok? && r.value.Some? ==> r.value.value == parse(iso.value).t
  {
    match iso
    case None => Ok(None)
    case Some(s) =>
      if s == "" then Ok(None)
      else
        match parse(s)
        case Parsed(t) => Ok(Some(t))
        case Raised(e) => if e == ValueError then Ok(None) else Err(e)
  }

  /** The derived times; both absent or both present. */
  datatype Derived = Derived(chatzot: Option<Instant>, minchaGedola: Option<Instant>)

  /** The halachic times of a day whose sunrise and sunset can be
      subtracted: `chatzot = sunrise + (sunset - sunrise) / 2`,
      `halachic_hour = (sunset - sunrise) / 12` and
      `mincha_gedola = chatzot + halachic_hour / 2`. */
  function DayTimes(sunrise: Instant, sunset: Instant): (r: (Instant, Instant))
    requires Comparable(sunrise, sunset)
    ensures r.0.offset == sunrise.offset && r.1.offset == sunrise.offset
  {
    var day := Timeline(sunset) - Timeline(sunrise);
    var chatzot := Shift(sunrise, DivRound(day, 2));
    var halachicHour := DivRound(day, 12);
    (chatzot, Shift(chatzot, DivRound(halachicHour, 2)))
  }

  /** The guarded block of the route: both times only when both inputs are
      present; `TypeError` when one is naive and the other aware. */
  function Derive(sunrise: Option<Instant>, sunset: Option<Instant>): (r: Result<Derived, Exception>)
    ensures (sunrise.None? || sunset.None?) ==> r == Ok(Derived(None, None))
    ensures r.Err? <==> sunrise.Some? && sunset.Some? && !Comparable(sunrise.value, sunset.value)
    ensures r.Err? ==> r.error == TypeError
    ensures r.Ok? ==> (r.value.chatzot.Some? <==> sunrise.Some? && sunset.Some?)
    ensures r.Ok? ==> (r.value.minchaGedola.Some? <==> r.value.chatzot.Some?)
    ensures r.Ok? && r.value.chatzot.Some? ==>
      var times := DayTimes(sunrise.value, sunset.value);
      r.value.chatzot == Some(times.0) && r.value.minchaGedola == Some(times.1)
  {
    if sunrise.Some? && sunset.Some? then
      match Subtract(sunset.value, sunrise.value)
      case Err(e) => Err(e)
      case Ok(_) =>
        var (c, m) := DayTimes(sunrise.value, sunset.value);
        Ok(Derived(Some(c), Some(m)))
    else
      Ok(Derived(None, None))
  }

  /** Chatzot lies halfway between sunrise and sunset, to within the half
      microsecond that rounding can lose, and exactly when the day is an
      even number of microseconds long. */
  lemma ChatzotIsMidpoint(sunrise: Instant, sunset: Instant)
    requires Comparable(sunrise, sunset)
    ensures var c := DayTimes(sunrise, sunset).0;
      && -1 <= 2 * Timeline(c) - (Timeline(sunrise) + Timeline(sunset)) <= 1
      && ((Timeline(sunset) - Timeline(sunrise)) % 2 == 0 ==> 2 * Timeline(c) == Timeline(sunrise) + Timeline(sunset))
  {
    var day := Timeline(sunset) - Timeline(sunrise);
    if day % 2 == 0 {
      DivRoundExact(day / 2, 2);
    }
  }

  /** Mincha gedola follows chatzot by half a rounded halachic hour, which
      is within a microsecond of a twenty-fourth of the day. */
  lemma MinchaGedolaOffset(sunrise: Instant, sunset: Instant)
    requires Comparable(sunrise, sunset)
    ensures var (c, m) := DayTimes(sunrise, sunset);
      var day := Timeline(sunset) - Timeline(sunrise);
      && Timeline(m) - Timeline(c) == DivRound(DivRound(day, 12), 2)
      && -18 <= 24 * (Timeline(m) - Timeline(c)) - day <= 18
  {
    var day := Timeline(sunset) - Timeline(sunrise);
    var h := DivRound(day, 12);
    var g := DivRound(h, 2);
    assert 24 * g - day == 12 * (2 * g - h) + (12 * h - day);
  }

  /** When the day length is a multiple of 24 microseconds (in particular a
      whole number of minutes) chatzot is the exact midpoint and mincha
      gedola comes exactly one twenty-fourth of the day after it. */
  lemma WholeMinuteDay(sunrise: Instant, sunset: Instant)
    requires Comparable(sunrise, sunset)
    requires (Timeline(sunset) - Timeline(sunrise)) % 24 == 0
    ensures var (c, m) := DayTimes(sunrise, sunset);
      var day := Timeline(sunset) - Timeline(sunrise);
      && 2 * (Timeline(c) - Timeline(sunrise)) == day
      && 24 * (Timeline(m) - Timeline(c)) == day
  {
    var day := Timeline(sunset) - Timeline(sunrise);
    var k := day / 24;
    assert day == (12 * k) * 2 && day == (2 * k) * 12;
    DivRoundExact(12 * k, 2);
    DivRoundExact(2 * k, 12);
    DivRoundExact(k, 2);
  }

  /** On a day whose sunset does not precede its sunrise the four times are
      in order: sunrise, chatzot, mincha gedola, sunset. */
  lemma InOrder(sunrise: Instant, sunset: Instant)
    requires Comparable(sunrise, sunset)
    requires Timeline(sunrise) <= Timeline(sunset)
    ensures var (c, m) := DayTimes(sunrise, sunset);
      Timeline(sunrise) <= Timeline(c) <= Timeline(m) <= Timeline(sunset)
  {
    var day := Timeline(sunset) - Timeline(sunrise);
    var half := DivRound(day, 2);
    var h := DivRound(day, 12);
    var g := DivRound(h, 2);
    DivRoundBounds(day, 2);
    DivRoundBounds(day, 12);
    DivRoundBounds(h, 2);
    // 2 * half <= day + 1, 12 * h <= day + 6, 2 * g <= h + 1
    assert 24 * (half + g) <= 24 * day by {
      if day >= 3 {
        assert 24 * half <= 12 * day + 12;
        assert 24 * g <= 12 * h + 12;
        assert 12 * h <= day + 6;
      } else {
        assert h == 0 by {
          assert 0 <= h <= day;
        }
        assert g == 0;
      }
    }
  }

  /** With a sunset before the sunrise nothing is checked, and the same
      formulas run the other way: sunset, mincha gedola, chatzot, sunrise. */
  lemma InReverseOrder(sunrise: Instant, sunset: Instant)
    requires Comparable(sunrise, sunset)
    requires Timeline(sunset) <= Timeline(sunrise)
    ensures var (c, m) := DayTimes(sunrise, sunset);
      Timeline(sunset) <= Timeline(m) <= Timeline(c) <= Timeline(sunrise)
  {
    var day := Timeline(sunset) - Timeline(sunrise);
    var h := DivRound(day, 12);
    DivRoundNegate(day, 2);
    DivRoundNegate(day, 12);
    DivRoundNegate(h, 2);
    InOrder(Instant(0, sunrise.offset), Instant(-day, sunrise.offset));
  }
}
