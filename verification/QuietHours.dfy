// Quiet hours: how long a notification waits, given a daily window of local
// time and a fixed whole-minute zone offset.
module QuietHours {
  import opened Numbers
  import opened Wrappers

  const DAY: int := 1440           // minutes
  const MAX_DEFERRAL: int := 43200 // seconds, 12 hours

  // ---- "HH:mm" -------------------------------------------------------------

  predicate IsDigit(c: char) {
    '0' <= c <= '9'
  }

  function Digit(c: char): int {
    c as int - '0' as int
  }

  // Minutes since midnight.
  function HhmmToMinutes(s: string): Option<int> {
    if |s| == 5 && IsDigit(s[0]) && IsDigit(s[1]) && s[2] == ':' && IsDigit(s[3]) && IsDigit(s[4]) then
      var h := Digit(s[0]) * 10 + Digit(s[1]);
      var min := Digit(s[3]) * 10 + Digit(s[4]);
      if h > 23 || min > 59 then None else Some(h * 60 + min)
    else None
  }

  function Character(d: int): char
    requires 0 <= d < 10
  {
    ('0' as int + d) as char
  }

  function Hhmm(m: int): string
    requires 0 <= m < DAY
  {
    [Character(m / 60 / 10), Character(m / 60 % 10), ':', Character(m % 60 / 10), Character(m % 60 % 10)]
  }

  lemma TimesRoundTrip(m: int)
    requires 0 <= m < DAY
    ensures HhmmToMinutes(Hhmm(m)) == Some(m)
  {
  }

  // Every text that is read is the one written for its minute.
  lemma TimesAreCanonical(s: string)
    requires HhmmToMinutes(s).Some?
    ensures 0 <= HhmmToMinutes(s).value < DAY && s == Hhmm(HhmmToMinutes(s).value)
  {
    var a, b, c, d := Digit(s[0]), Digit(s[1]), Digit(s[3]), Digit(s[4]);
    var m := (a * 10 + b) * 60 + (c * 10 + d);
    assert m / 60 == a * 10 + b && m % 60 == c * 10 + d;
    assert (a * 10 + b) / 10 == a && (c * 10 + d) / 10 == c;
    assert Character(a) == s[0] && Character(b) == s[1] && Character(c) == s[3] && Character(d) == s[4];
  }

  // ---- the delay -----------------------------------------------------------

  // Wall-clock minute of an instant in milliseconds, offset in minutes.
  function LocalMinute(instant: int, offset: int): int {
    (instant / 60_000 + offset) % DAY
  }

  predicate InsideTest(fire: int, start: int, end: int) {
    if start > end then fire >= start || fire < end else fire >= start && fire < end
  }

  // zone: None when unusable.
  function Delay(base: int, now: int, quiet: Option<(string, string)>, zone: Option<int>, urgent: bool): int {
    if urgent || quiet.None? then base
    else
      var start, end := HhmmToMinutes(quiet.value.0), HhmmToMinutes(quiet.value.1);
      if start.None? || end.None? || start == end || zone.None? then base
      else WindowDelay(base, now, start.value, end.value, zone.value)
  }

  function WindowDelay(base: int, now: int, start: int, end: int, offset: int): int {
    var fire := LocalMinute(now + base * 1000, offset);
    if !InsideTest(fire, start, end) then base
    else Min(base + (end - fire + DAY) % DAY * 60, MAX_DEFERRAL)
  }

  // ---- the window, minute by minute ----------------------------------------

  // m is reached walking round the clock from start before end is.
  ghost predicate Inside(m: int, start: int, end: int) {
    exists k :: 0 <= k < DAY && Walked(start, k) == m && forall j :: 0 <= j <= k ==> Walked(start, j) != end
  }

  function Walked(start: int, k: int): int {
    (start + k) % DAY
  }

  lemma WalkedIs(start: int, k: int)
    requires 0 <= start < DAY && 0 <= k < DAY
    ensures Walked(start, k) == if start + k < DAY then start + k else start + k - DAY
  {
  }

  lemma TestIsInside(m: int, start: int, end: int)
    requires 0 <= m < DAY && 0 <= start < DAY && 0 <= end < DAY && start != end
    ensures InsideTest(m, start, end) <==> Inside(m, start, end)
  {
    var k := if m >= start then m - start else m - start + DAY;
    var e := if end >= start then end - start else end - start + DAY;
    WalkedIs(start, k);
    WalkedIs(start, e);
    assert InsideTest(m, start, end) <==> k < e;
    if k < e {
      forall j | 0 <= j <= k ensures Walked(start, j) != end {
        WalkedIs(start, j);
      }
    }
    if Inside(m, start, end) {
      var l :| 0 <= l < DAY && Walked(start, l) == m && forall j :: 0 <= j <= l ==> Walked(start, j) != end;
      WalkedIs(start, l);
      assert l == k && (e <= l ==> Walked(start, e) != end);
    }
  }

  // Whether a send that waits d seconds would fire in the window.
  ghost predicate Quiet(d: int, now: int, start: int, end: int, offset: int) {
    Inside(LocalMinute(now + d * 1000, offset), start, end)
  }

  lemma MinutesAdd(instant: int, offset: int, k: int)
    ensures LocalMinute(instant + k * 60_000, offset) == (LocalMinute(instant, offset) + k) % DAY
  {
    assert (instant + k * 60_000) / 60_000 == instant / 60_000 + k;
    ModAdd(instant / 60_000 + offset, k);
  }

  lemma ModAdd(a: int, k: int)
    ensures (a + k) % DAY == (a % DAY + k) % DAY
  {
  }

  lemma QuietTest(d: int, now: int, start: int, end: int, offset: int)
    requires 0 <= start < DAY && 0 <= end < DAY && start != end
    ensures Quiet(d, now, start, end, offset) <==> InsideTest(LocalMinute(now + d * 1000, offset), start, end)
  {
    TestIsInside(LocalMinute(now + d * 1000, offset), start, end);
  }

  // ---- main results --------------------------------------------------------

  lemma QuietLater(base: int, now: int, start: int, end: int, offset: int, j: int)
    requires 0 <= start < DAY && 0 <= end < DAY && start != end
    ensures Quiet(base + 60 * j, now, start, end, offset) <==>
            InsideTest((LocalMinute(now + base * 1000, offset) + j) % DAY, start, end)
  {
    MinutesAdd(now + base * 1000, offset, j);
    QuietTest(base + 60 * j, now, start, end, offset);
  }

  // The minutes from fire to the end of the window are all inside it.
  lemma InsideUntilEnd(fire: int, start: int, end: int, j: int)
    requires 0 <= fire < DAY && 0 <= start < DAY && 0 <= end < DAY && start != end && InsideTest(fire, start, end)
    ensures var m := (end - fire + DAY) % DAY;
            && 0 < m < DAY && !InsideTest((fire + m) % DAY, start, end)
            && (0 <= j < m ==> InsideTest((fire + j) % DAY, start, end))
  {
  }

  // In the window the send moves to the earliest whole-minute delay outside it,
  // or to the 12-hour cap if that comes first; outside it nothing changes.
  lemma EarliestOutside(base: int, now: int, start: int, end: int, offset: int) returns (m: int)
    requires 0 <= start < DAY && 0 <= end < DAY && start != end
    ensures 0 <= m < DAY && (m > 0 <==> Quiet(base, now, start, end, offset))
    ensures !Quiet(base + 60 * m, now, start, end, offset)
    ensures forall j :: 0 <= j < m ==> Quiet(base + 60 * j, now, start, end, offset)
    ensures WindowDelay(base, now, start, end, offset) == if m == 0 then base else Min(base + 60 * m, MAX_DEFERRAL)
  {
    var fire := LocalMinute(now + base * 1000, offset);
    QuietTest(base, now, start, end, offset);
    m := 0;
    if InsideTest(fire, start, end) {
      m := (end - fire + DAY) % DAY;
      InsideUntilEnd(fire, start, end, 0);
      QuietLater(base, now, start, end, offset, m);
      forall j | 0 <= j < m ensures Quiet(base + 60 * j, now, start, end, offset) {
        InsideUntilEnd(fire, start, end, j);
        QuietLater(base, now, start, end, offset, j);
      }
    }
  }

  // A preference only ever shortens a delay of more than 12 hours.
  lemma ShortensExactlyWhen(base: int, now: int, start: int, end: int, offset: int)
    requires 0 <= start < DAY && 0 <= end < DAY && start != end
    ensures WindowDelay(base, now, start, end, offset) < base <==>
              Quiet(base, now, start, end, offset) && base > 12 * 60 * 60
    ensures WindowDelay(base, now, start, end, offset) == base <==>
              !Quiet(base, now, start, end, offset) || base == 12 * 60 * 60
  {
    var m := EarliestOutside(base, now, start, end, offset);
  }

  // Thirteen hours from midnight UTC lie in a window from 12:00 to 14:00: sent
  // an hour early, and still in the window.
  lemma SentEarly()
    ensures Delay(46800, 0, Some(("12:00", "14:00")), Some(0), false) == MAX_DEFERRAL == 46800 - 3600
    ensures Quiet(MAX_DEFERRAL, 0, 720, 840, 0)
  {
    assert HhmmToMinutes("12:00") == Some(720) && HhmmToMinutes("14:00") == Some(840);
    assert LocalMinute(46800 * 1000, 0) == 780;
    QuietTest(MAX_DEFERRAL, 0, 720, 840, 0);
  }

  // Feeding the result back in changes nothing, whatever the preferences.
  lemma DelayIsFixedPoint(base: int, now: int, quiet: Option<(string, string)>, zone: Option<int>, urgent: bool)
    ensures var d := Delay(base, now, quiet, zone, urgent);
            Delay(d, now, quiet, zone, urgent) == d
  {
    if !urgent && quiet.Some? && zone.Some? {
      var start, end := HhmmToMinutes(quiet.value.0), HhmmToMinutes(quiet.value.1);
      if start.Some? && end.Some? && start != end {
        TimesAreCanonical(quiet.value.0);
        TimesAreCanonical(quiet.value.1);
        var m := EarliestOutside(base, now, start.value, end.value, zone.value);
        var again := EarliestOutside(WindowDelay(base, now, start.value, end.value, zone.value),
                                     now, start.value, end.value, zone.value);
      }
    }
  }

  // The fire time of a delay is read off the wall clock: in a zone without offset
  // the minutes since midnight UTC, in any other those of a clock that is ahead by
  // the offset.
  lemma WallClock(day: int, minute: int, rest: int, offset: int)
    requires 0 <= minute < 1440 && 0 <= rest < 60_000
    ensures LocalMinute(day * 86_400_000 + minute * 60_000 + rest, 0) == minute
    ensures forall instant :: LocalMinute(instant, offset) == LocalMinute(instant + offset * 60_000, 0)
  {
    var t := day * 86_400_000 + minute * 60_000 + rest;
    assert t == (day * 1440 + minute) * 60_000 + rest;
    assert t / 60_000 == day * 1440 + minute;
    ModDays(day, minute);
    forall instant ensures LocalMinute(instant, offset) == LocalMinute(instant + offset * 60_000, 0) {
      assert (instant + offset * 60_000) / 60_000 == instant / 60_000 + offset;
    }
  }

  lemma ModDays(day: int, minute: int)
    requires 0 <= minute < 1440
    ensures (day * 1440 + minute) % 1440 == minute
  {
  }

  // So a zone is a shift of the clock; and urgent mail, a missing window and an
  // unusable zone leave the delay alone.
  lemma ZoneShiftsClock(base: int, now: int, quiet: Option<(string, string)>, zone: int, urgent: bool)
    ensures Delay(base, now, quiet, Some(zone), urgent) == Delay(base, now + zone * 60_000, quiet, Some(0), urgent)
    ensures Delay(base, now, quiet, Some(zone), true) == base
    ensures Delay(base, now, quiet, None, urgent) == base
    ensures Delay(base, now, None, Some(zone), urgent) == base
  {
    WallClock(0, 0, 0, zone);
    assert LocalMinute(now + base * 1000, zone) == LocalMinute(now + base * 1000 + zone * 60_000, 0);
  }

  // 21:30 UTC is 22:30 in a zone an hour ahead: mail that would go out at once
  // waits until the window from 22:00 to 07:00 is over.
  lemma HeldInZone()
    ensures Delay(0, 77_400_000, Some(("22:00", "07:00")), Some(60), false) == 30_600 == 8 * 3600 + 30 * 60
    ensures Delay(0, 77_400_000, Some(("22:00", "07:00")), Some(0), false) == 0
  {
    assert HhmmToMinutes("22:00") == Some(1320) && HhmmToMinutes("07:00") == Some(420);
    assert LocalMinute(77_400_000, 60) == 1350 && LocalMinute(77_400_000, 0) == 1290;
  }

  // A window applies exactly as written; a text that is no minute of the day
  // leaves the delay alone.
  lemma WindowApplies(base: int, now: int, m: int, n: int, zone: int)
    requires 0 <= m < DAY && 0 <= n < DAY
    ensures Delay(base, now, Some((Hhmm(m), Hhmm(n))), Some(zone), false)
         == if m == n then base else WindowDelay(base, now, m, n, zone)
  {
    TimesRoundTrip(m);
    TimesRoundTrip(n);
  }

  lemma OtherTextsIgnored(base: int, now: int, quiet: (string, string), zone: Option<int>, urgent: bool, text: string)
    requires text == quiet.0 || text == quiet.1
    requires forall m | 0 <= m < DAY :: text != Hhmm(m)
    ensures Delay(base, now, Some(quiet), zone, urgent) == base
  {
    if HhmmToMinutes(text).Some? {
      TimesAreCanonical(text);
    }
  }
}
