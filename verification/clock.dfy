/** Integer time: instants, minutes of the day, "HH:MM" clock strings as the
    time inputs of the booking page hold them, and the mapping between a local
    wall-clock reading and an instant. */
module Clock {

  /** An instant, in whole seconds since the Unix epoch, UTC. */
  type Instant = int

  const MinutesPerDay := 1440
  /** 23:59, the last minute of a day; the page clamps computed end times to it. */
  const LastMinute := 1439
  const SecondsPerMinute := 60
  const SecondsPerDay := 86400

  predicate IsDigit(c: char) {
    '0' <= c <= '9'
  }

  function DigitValue(c: char): (d: nat)
    requires IsDigit(c)
    ensures d < 10
  {
    (c as int) - ('0' as int)
  }

  function Digit(d: nat): (c: char)
    requires d < 10
    ensures IsDigit(c) && DigitValue(c) == d
  {
    ((('0' as int) + d) as char)
  }

  /** The value of two decimal digits. */
  function TwoDigits(hi: char, lo: char): (n: nat)
    requires IsDigit(hi) && IsDigit(lo)
    ensures n < 100
  {
    DigitValue(hi) * 10 + DigitValue(lo)
  }

  /** The value of a time input that is set: "HH:MM" on a 24-hour clock. */
  predicate IsClockString(s: string) {
    && |s| == 5
    && IsDigit(s[0]) && IsDigit(s[1]) && s[2] == ':' && IsDigit(s[3]) && IsDigit(s[4])
    && TwoDigits(s[0], s[1]) < 24
    && TwoDigits(s[3], s[4]) < 60
  }

  /** The minute of the day a clock string names: hours * 60 + minutes. */
  function TimeToMinutes(s: string): (m: int)
    requires IsClockString(s)
    ensures 0 <= m <= LastMinute
    ensures m / 60 == TwoDigits(s[0], s[1]) && m % 60 == TwoDigits(s[3], s[4])
  {
    TwoDigits(s[0], s[1]) * 60 + TwoDigits(s[3], s[4])
  }

  /** A number below 100 as two digits, zero-padded on the left. */
  function Pad2(n: nat): (s: string)
    requires n < 100
    ensures |s| == 2 && IsDigit(s[0]) && IsDigit(s[1]) && TwoDigits(s[0], s[1]) == n
  {
    [Digit(n / 10), Digit(n % 10)]
  }

  /** A minute of the day written back as "HH:MM" (hours and minutes each
      padded to two digits); the inverse of TimeToMinutes. */
  function FormatClock(m: int): (s: string)
    requires 0 <= m <= LastMinute
    ensures IsClockString(s) && TimeToMinutes(s) == m
  {
    Pad2(m / 60) + ":" + Pad2(m % 60)
  }

  /** Every clock string is the formatting of its own minute of the day, so
      TimeToMinutes is one-to-one on clock strings. */
  lemma {:induction false} ClockStringRoundTrip(s: string)
    requires IsClockString(s)
    ensures FormatClock(TimeToMinutes(s)) == s
  {
    var m := TimeToMinutes(s);
    var f := FormatClock(m);
    assert TwoDigits(f[0], f[1]) == TwoDigits(s[0], s[1]);
    assert TwoDigits(f[3], f[4]) == TwoDigits(s[3], s[4]);
    DigitsDetermined(f[0], f[1], s[0], s[1]);
    DigitsDetermined(f[3], f[4], s[3], s[4]);
  }

  lemma DigitsDetermined(a: char, b: char, c: char, d: char)
    requires IsDigit(a) && IsDigit(b) && IsDigit(c) && IsDigit(d)
    requires TwoDigits(a, b) == TwoDigits(c, d)
    ensures a == c && b == d
  {
    assert DigitValue(a) == DigitValue(c);
  }

  lemma NineOClock()
    ensures TimeToMinutes("09:00") == 540
  {
  }

  /** The start of UTC day number `day` (days since the epoch). */
  function DayStart(day: int): (t: Instant)
    ensures t % SecondsPerDay == 0 && t / SecondsPerDay == day
  {
    day * SecondsPerDay
  }

  /** The local day number of an instant in a zone `offset` seconds east of
      UTC. */
  function LocalDayOf(t: Instant, offset: int): int {
    (t + offset) / SecondsPerDay
  }

  /** The local hours * 60 + minutes of an instant in a zone `offset` seconds
      east of UTC. */
  function LocalMinuteOf(t: Instant, offset: int): (m: int)
    ensures 0 <= m <= LastMinute
  {
    ((t + offset) % SecondsPerDay) / SecondsPerMinute
  }

  /** The instant of wall-clock minute `minute` on local day `day`, in a zone
      `offset` seconds east of UTC, at zero seconds: reading back its local
      day and minute gives `day` and `minute`, whatever the day and the zone. */
  function LocalToInstant(day: int, minute: int, offset: int): (t: Instant)
    requires 0 <= minute <= LastMinute
    ensures LocalDayOf(t, offset) == day && LocalMinuteOf(t, offset) == minute
    ensures (t + offset) % SecondsPerMinute == 0
  {
    ModOfDayMultiple(day, minute * SecondsPerMinute);
    assert day * SecondsPerDay + minute * SecondsPerMinute == (day * MinutesPerDay + minute) * SecondsPerMinute;
    day * SecondsPerDay + minute * SecondsPerMinute - offset
  }

  lemma ModOfDayMultiple(day: int, r: int)
    requires 0 <= r < SecondsPerDay
    ensures (day * SecondsPerDay + r) % SecondsPerDay == r
    ensures (day * SecondsPerDay + r) / SecondsPerDay == day
  {
  }
}
