/** Wall-clock values as the controller formats them. The clock itself
    (`time()` / `localtime` after NTP synchronisation) is an input: a
    `DateTime` holds the calendar fields `localtime` yields, with the year
    already offset by 1900 and the month by 1. */
module Clock {
  import opened Text

  datatype DateTime = DateTime(year: nat, month: nat, day: nat, hour: nat, minute: nat)

  /** The ranges `localtime` produces, with a four-digit year. */
  predicate ValidDateTime(t: DateTime) {
    t.year < 10000 && 1 <= t.month <= 12 && 1 <= t.day <= 31 && t.hour < 24 && t.minute < 60
  }

  /** `"%02d:%02d"` of an hour and a minute. */
  function ClockStr(hour: nat, minute: nat): string {
    PadLeft(hour, 2) + ":" + PadLeft(minute, 2)
  }

  /** The "HH:MM" that `getNextScheduleStr` prints into its 6-byte buffer:
      nothing is cut off for a two-digit hour and minute. */
  function HourMinute(t: DateTime): (r: string)
    ensures |r| <= 5
    ensures t.hour < 100 && t.minute < 100 ==> |r| == 5 && r == ClockStr(t.hour, t.minute)
  {
    // both branches compute the same text; the first only calls the lemma
    // that needs two-digit fields
    if t.hour < 100 && t.minute < 100 then
      ClockStrShape(t.hour, t.minute);
      Prefix(ClockStr(t.hour, t.minute), 5)
    else
      Prefix(ClockStr(t.hour, t.minute), 5)
  }

  /** `"%04d-%02d-%02d %02d:%02d"` before it meets the buffer. */
  function Stamp(t: DateTime): string {
    PadLeft(t.year, 4) + "-" + PadLeft(t.month, 2) + "-" + PadLeft(t.day, 2) + " " + ClockStr(t.hour, t.minute)
  }

  /** `getCurrentTimeStr`: the stamp printed into a 20-byte buffer, which
      holds all 16 characters of a valid date and time. */
  function CurrentTimeStr(t: DateTime): (r: string)
    ensures |r| <= 19
    ensures ValidDateTime(t) ==> |r| == 16 && r == Stamp(t)
  {
    // both branches compute the same text; the first only calls the lemma
    // that needs a valid date
    if ValidDateTime(t) then
      StampShape(t);
      Prefix(Stamp(t), 19)
    else
      Prefix(Stamp(t), 19)
  }

  /** `getCurrentTimeStr().substring(11)`, the string `checkSchedule`
      compares with the configured times: for a valid date, its "HH:MM". */
  function CurrentTimeOfDay(t: DateTime): (r: string)
    ensures ValidDateTime(t) ==> r == ClockStr(t.hour, t.minute)
  {
    // both branches compute the same text; the first only calls the lemma
    // that needs a valid date
    if ValidDateTime(t) then
      StampShape(t);
      Substring(CurrentTimeStr(t), 11, |CurrentTimeStr(t)|)
    else
      Substring(CurrentTimeStr(t), 11, |CurrentTimeStr(t)|)
  }

  lemma StampShape(t: DateTime)
    requires ValidDateTime(t)
    ensures |Stamp(t)| == 16 && Stamp(t)[11..] == ClockStr(t.hour, t.minute)
  {
    PadLeftLength(t.year, 4);
    PadTwo(t.month);
    PadTwo(t.day);
    ClockStrShape(t.hour, t.minute);
    var s := Stamp(t);
    assert s == PadLeft(t.year, 4) + "-" + PadLeft(t.month, 2) + "-" + PadLeft(t.day, 2) + " " + ClockStr(t.hour, t.minute);
    assert s[11..] == ClockStr(t.hour, t.minute);
  }

  /** A two-digit hour and minute print as exactly five characters. */
  lemma ClockStrShape(hour: nat, minute: nat)
    requires hour < 100 && minute < 100
    ensures ClockStr(hour, minute)
         == [DigitChar(hour / 10), DigitChar(hour % 10), ':', DigitChar(minute / 10), DigitChar(minute % 10)]
  {
    PadTwo(hour);
    PadTwo(minute);
  }

  /** `getCurrentTimeStr().substring(11)`, which `checkSchedule` matches
      against the configuration, is the same "HH:MM" that
      `getNextScheduleStr` prints. */
  lemma TimeOfDaySuffix(t: DateTime)
    requires ValidDateTime(t)
    ensures |CurrentTimeStr(t)| == 16
    ensures CurrentTimeOfDay(t) == HourMinute(t)
    ensures |HourMinute(t)| == 5 && HourMinute(t) == ClockStr(t.hour, t.minute)
  {
  }

  lemma DigitCharInjective(x: nat, y: nat)
    requires x < 10 && y < 10
    ensures DigitChar(x) == DigitChar(y) <==> x == y
    ensures DigitChar(x) < DigitChar(y) <==> x < y
  {
  }

  /** Different times of day print differently. */
  lemma ClockStrInjective(h1: nat, m1: nat, h2: nat, m2: nat)
    requires h1 < 100 && m1 < 100 && h2 < 100 && m2 < 100
    requires ClockStr(h1, m1) == ClockStr(h2, m2)
    ensures h1 == h2 && m1 == m2
  {
    ClockStrShape(h1, m1);
    ClockStrShape(h2, m2);
    var a, b := ClockStr(h1, m1), ClockStr(h2, m2);
    assert a[0] == b[0] && a[1] == b[1] && a[3] == b[3] && a[4] == b[4];
    DigitCharInjective(h1 / 10, h2 / 10);
    DigitCharInjective(h1 % 10, h2 % 10);
    DigitCharInjective(m1 / 10, m2 / 10);
    DigitCharInjective(m1 % 10, m2 % 10);
  }

  lemma LexLessStep(a: string, b: string)
    requires |a| > 0 && |b| > 0
    ensures LexLess(a, b) == if a[0] != b[0] then a[0] < b[0] else LexLess(a[1..], b[1..])
  {
  }

  /** Two decimal digits compare by (tens, units) exactly as their values do. */
  lemma TwoDigitOrder(x: nat, y: nat)
    requires x < 100 && y < 100
    ensures x < y <==> (x / 10 < y / 10 || (x / 10 == y / 10 && x % 10 < y % 10))
  {
    assert x == 10 * (x / 10) + x % 10;
    assert y == 10 * (y / 10) + y % 10;
  }

  /** Why comparing zero-padded "HH:MM" strings works: `String::operator<`
      on them is exactly the order of the minutes since midnight. */
  lemma ClockStrOrder(h1: nat, m1: nat, h2: nat, m2: nat)
    requires h1 < 100 && h2 < 100 && m1 < 60 && m2 < 60
    ensures LexLess(ClockStr(h1, m1), ClockStr(h2, m2)) <==> h1 * 60 + m1 < h2 * 60 + m2
  {
    ClockStrShape(h1, m1);
    ClockStrShape(h2, m2);
    var a, b := ClockStr(h1, m1), ClockStr(h2, m2);
    DigitCharInjective(h1 / 10, h2 / 10);
    DigitCharInjective(h1 % 10, h2 % 10);
    DigitCharInjective(m1 / 10, m2 / 10);
    DigitCharInjective(m1 % 10, m2 % 10);
    LexLessStep(a, b);
    LexLessStep(a[1..], b[1..]);
    LexLessStep(a[2..], b[2..]);
    LexLessStep(a[3..], b[3..]);
    LexLessStep(a[4..], b[4..]);
    assert a[1..][1..] == a[2..] && b[1..][1..] == b[2..];
    assert a[2..][1..] == a[3..] && b[2..][1..] == b[3..];
    assert a[3..][1..] == a[4..] && b[3..][1..] == b[4..];
    assert a[4..][1..] == [] && b[4..][1..] == [];
    TwoDigitOrder(h1, h2);
    TwoDigitOrder(m1, m2);
    assert h1 * 60 + m1 < h2 * 60 + m2 <==> h1 < h2 || (h1 == h2 && m1 < m2);
  }
}
