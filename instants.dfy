/** Python `datetime` values as the route uses them: subtraction of two
    instants, addition of a duration, and `strftime('%H:%M')`. */
module Instants {
  import opened Wrappers
  import opened Durations

  /** A `datetime`: its wall-clock reading, in microseconds since midnight
      starting 1970-01-01 on that same wall clock, and its UTC offset in
      seconds, or `None` for a naive value (no `tzinfo`). */
  datatype Instant = Instant(wall: int, offset: Option<int>)

  /** The position of an instant on the time line it is compared on:
      UTC for an aware value, its own wall clock for a naive one. */
  function Timeline(t: Instant): int {
    match t.offset
    case Some(off) => t.wall - off * MicrosPerSecond
    case None => t.wall
  }

  /** Both naive or both aware: the two can be subtracted. */
  predicate Comparable(a: Instant, b: Instant) {
    a.offset.None? == b.offset.None?
  }

  /** `a - b` on two `datetime`s: the elapsed duration between them, in
      UTC when both are aware; `TypeError` when one is naive and the other
      aware. */
  function Subtract(a: Instant, b: Instant): (r: Result<int, Exception>)
    ensures r.Ok? <==> Comparable(a, b)
    ensures r.Err? ==> r.error == TypeError
    ensures r.Ok? ==> Timeline(b) + r.value == Timeline(a)
  {
    if Comparable(a, b) then Ok(Timeline(a) - Timeline(b)) else Err(TypeError)
  }

  /** `t + timedelta(microseconds=d)`: the wall clock moves by `d` and the
      offset is kept. */
  function Shift(t: Instant, d: int): (r: Instant)
    ensures r.offset == t.offset
    ensures Timeline(r) == Timeline(t) + d
  {
    Instant(t.wall + d, t.offset)
  }

  /** An hour and a minute of a 24-hour clock face. */
  datatype ClockTime = ClockTime(hour: int, minute: int)

  predicate ValidClockTime(c: ClockTime) {
    0 <= c.hour < 24 && 0 <= c.minute < 60
  }

  /** The hour and minute the instant's own wall clock shows; seconds and
      smaller units are cut off, not rounded. */
  function ClockOf(t: Instant): (c: ClockTime)
    ensures ValidClockTime(c)
    ensures var m := c.hour * 60 + c.minute;
      m * MicrosPerMinute <= t.wall % MicrosPerDay < (m + 1) * MicrosPerMinute
  {
    var minutes := (t.wall % MicrosPerDay) / MicrosPerMinute;
    ClockTime(minutes / 60, minutes % 60)
  }

  function DigitChar(d: int): (c: char)
    requires 0 <= d < 10
    ensures '0' <= c <= '9' && c as int - '0' as int == d
  {
    ('0' as int + d) as char
  }

  predicate IsDigit(c: char) {
    '0' <= c <= '9'
  }

  function DigitValue(c: char): (d: int)
    requires IsDigit(c)
    ensures 0 <= d < 10 && DigitChar(d) == c
  {
    c as int - '0' as int
  }

  /** Two zero-padded decimal digits. */
  function TwoDigits(n: int): (s: string)
    requires 0 <= n < 100
    ensures |s| == 2 && IsDigit(s[0]) && IsDigit(s[1])
    ensures DigitValue(s[0]) * 10 + DigitValue(s[1]) == n
  {
    [DigitChar(n / 10), DigitChar(n % 10)]
  }

  /** The `HH:MM` shape: five characters, digits around a colon, an hour
      below 24 and a minute below 60. */
  predicate IsHourMinute(s: string) {
    ReadHourMinute(s).Some?
  }

  /** Reads an `HH:MM` string back into the clock time it shows. */
  function ReadHourMinute(s: string): (r: Option<ClockTime>)
    ensures r.Some? ==> ValidClockTime(r.value)
    ensures r.Some? ==> |s| == 5 && s[2] == ':'
  {
    if |s| == 5 && IsDigit(s[0]) && IsDigit(s[1]) && s[2] == ':' && IsDigit(s[3]) && IsDigit(s[4]) then
      var h := DigitValue(s[0]) * 10 + DigitValue(s[1]);
      var m := DigitValue(s[3]) * 10 + DigitValue(s[4]);
      if h < 24 && m < 60 then Some(ClockTime(h, m)) else None
    else
      None
  }

  /** Writes a clock time as `HH:MM`. */
  function WriteHourMinute(c: ClockTime): (s: string)
    requires ValidClockTime(c)
    ensures ReadHourMinute(s) == Some(c)
  {
    TwoDigits(c.hour) + ":" + TwoDigits(c.minute)
  }

  /** `t.strftime('%H:%M')`. */
  function FormatHourMinute(t: Instant): (s: string)
    ensures IsHourMinute(s)
    ensures ReadHourMinute(s) == Some(ClockOf(t))
  {
    WriteHourMinute(ClockOf(t))
  }

  /** Reading back loses nothing: every `HH:MM` string is what writing its
      clock time produces. */
  lemma WriteReadHourMinute(s: string)
    requires IsHourMinute(s)
    ensures WriteHourMinute(ReadHourMinute(s).value) == s
  {
    var c := ReadHourMinute(s).value;
    var w := WriteHourMinute(c);
    assert DigitChar(DigitValue(s[0])) == s[0];
    assert c.hour / 10 == DigitValue(s[0]) && c.hour % 10 == DigitValue(s[1]);
    assert c.minute / 10 == DigitValue(s[3]) && c.minute % 10 == DigitValue(s[4]);
    assert w[0] == s[0] && w[1] == s[1] && w[2] == s[2] && w[3] == s[3] && w[4] == s[4];
  }

  /** The rendering depends only on the wall clock and only to the minute:
      two instants whose wall clocks fall in the same minute of the day
      render alike, whatever their offsets. */
  lemma FormatDependsOnWallMinute(t: Instant, u: Instant)
    requires (t.wall % MicrosPerDay) / MicrosPerMinute == (u.wall % MicrosPerDay) / MicrosPerMinute
    ensures FormatHourMinute(t) == FormatHourMinute(u)
  {
  }
}
