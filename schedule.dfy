/** The schedule evaluator: which scheduled session, if any, `checkSchedule`
    starts at a given minute, and the "next schedule" text that
    `getNextScheduleStr` reports. Both work on the "HH:MM" string of the
    current time and compare it with the configured strings: exact equality
    for starting, `String::operator<` for describing. */
module Schedule {
  import opened Text
  import opened Clock
  import opened Config

  datatype Slot = NoSlot | MorningSlot | EveningSlot

  /** `checkSchedule`'s choice once it has passed its guard: the morning
      session on an exact match with the morning time, otherwise the evening
      session on an exact match with the evening time, otherwise nothing. */
  function SlotAt(nowHM: string, c: WateringConfig): (s: Slot)
    ensures s == MorningSlot <==> nowHM == c.morningTime
    ensures s == EveningSlot <==> nowHM != c.morningTime && nowHM == c.eveningTime
    ensures s == NoSlot <==> nowHM != c.morningTime && nowHM != c.eveningTime
  {
    if nowHM == c.morningTime then MorningSlot
    else if nowHM == c.eveningTime then EveningSlot
    else NoSlot
  }

  /** The (upper, lower) durations a scheduled session starts with. */
  function SlotDurations(s: Slot, c: WateringConfig): (d: (nat, nat))
    requires s != NoSlot
    ensures s == MorningSlot ==> d == (c.morningValve1, c.morningValve2)
    ensures s == EveningSlot ==> d == (c.eveningValve1, c.eveningValve2)
  {
    if s == MorningSlot then (c.morningValve1, c.morningValve2) else (c.eveningValve1, c.eveningValve2)
  }

  /** A well-formed morning time fires at its own minute of the day and at
      no other. */
  lemma MorningFiresOnlyAtItsMinute(c: WateringConfig, hm: nat, mm: nat, h: nat, m: nat)
    requires hm < 24 && mm < 60 && h < 24 && m < 60
    requires c.morningTime == ClockStr(hm, mm)
    ensures SlotAt(ClockStr(h, m), c) == MorningSlot <==> h == hm && m == mm
  {
    if ClockStr(h, m) == ClockStr(hm, mm) {
      ClockStrInjective(h, m, hm, mm);
    }
  }

  /** A well-formed evening time fires at its own minute, unless the
      morning time is the same string, in which case morning wins. */
  lemma EveningFiresOnlyAtItsMinute(c: WateringConfig, he: nat, me: nat, h: nat, m: nat)
    requires he < 24 && me < 60 && h < 24 && m < 60
    requires c.eveningTime == ClockStr(he, me)
    ensures SlotAt(ClockStr(h, m), c) == EveningSlot <==> h == he && m == me && c.morningTime != c.eveningTime
  {
    if ClockStr(h, m) == ClockStr(he, me) {
      ClockStrInjective(h, m, he, me);
    }
  }

  /** A configured time that is not five characters long (say "7:00")
      never matches and so never starts a session. */
  lemma MalformedTimeNeverFires(c: WateringConfig, h: nat, m: nat)
    requires h < 24 && m < 60
    ensures |c.morningTime| != 5 ==> SlotAt(ClockStr(h, m), c) != MorningSlot
    ensures |c.eveningTime| != 5 ==> SlotAt(ClockStr(h, m), c) != EveningSlot
  {
    ClockStrShape(h, m);
  }

  datatype Day = Today | Tomorrow

  function DayLabel(d: Day): string {
    match d
    case Today => "Today"
    case Tomorrow => "Tomorrow"
  }

  /** The day and configured time `getNextScheduleStr` announces. */
  function NextTarget(nowHM: string, c: WateringConfig): (r: (Day, string))
    ensures r.1 == c.morningTime || r.1 == c.eveningTime
    ensures r.0 == Today <==> LexLess(nowHM, c.morningTime) || LexLess(nowHM, c.eveningTime)
    ensures r.0 == Today ==> LexLess(nowHM, r.1)
    ensures r.0 == Tomorrow ==> r.1 == c.morningTime
    ensures LexLess(nowHM, c.morningTime) ==> r == (Today, c.morningTime)
    ensures !LexLess(nowHM, c.morningTime) && LexLess(nowHM, c.eveningTime) ==> r == (Today, c.eveningTime)
    ensures !LexLess(nowHM, c.morningTime) && !LexLess(nowHM, c.eveningTime) ==> r == (Tomorrow, c.morningTime)
  {
    if LexLess(nowHM, c.morningTime) then (Today, c.morningTime)
    else if LexLess(nowHM, c.eveningTime) then (Today, c.eveningTime)
    else (Tomorrow, c.morningTime)
  }

  /** The coarse period of the day an hour falls in. */
  function PeriodName(hour: int): (p: string)
    ensures hour < 6 ==> p == "Night"
    ensures 6 <= hour < 12 ==> p == "Morning"
    ensures 12 <= hour < 17 ==> p == "Afternoon"
    ensures 17 <= hour ==> p == "Evening"
  {
    if hour < 6 then "Night" else if hour < 12 then "Morning" else if hour < 17 then "Afternoon" else "Evening"
  }

  /** `getNextScheduleStr`, given the current "HH:MM". The period comes from
      `atoi` of the first two characters of the announced time. */
  function NextScheduleStr(nowHM: string, c: WateringConfig): (r: string)
    ensures var target := NextTarget(nowHM, c);
            r == Announce(target.0, target.1, PeriodName(Atoi(Substring(target.1, 0, 2))))
  {
    var target := NextTarget(nowHM, c);
    Announce(target.0, target.1, PeriodName(Atoi(Substring(target.1, 0, 2))))
  }

  /** The shape of the text: `label + " - " + time + " (" + period + ")"`. */
  function Announce(d: Day, time: string, period: string): (r: string)
    ensures |r| == |DayLabel(d)| + |time| + |period| + 6
    ensures r[..|DayLabel(d)|] == DayLabel(d) && r[|DayLabel(d)|..|DayLabel(d)| + 3] == " - "
    ensures r[|DayLabel(d)| + 3..|DayLabel(d)| + 3 + |time|] == time && r[|r| - 1] == ')'
    ensures r[|DayLabel(d)| + 3 + |time|..] == " (" + period + ")"
  {
    DayLabel(d) + " - " + time + " (" + period + ")"
  }

  /** When the morning time is not after the evening time, the announced
      time is the earliest configured time still ahead today, or, when none
      is, the first one tomorrow. */
  lemma NextTargetIsEarliestAhead(nowHM: string, c: WateringConfig)
    requires !LexLess(c.eveningTime, c.morningTime)
    ensures NextTarget(nowHM, c).0 == Today && LexLess(nowHM, c.morningTime)
            ==> !LexLess(c.morningTime, NextTarget(nowHM, c).1)
    ensures NextTarget(nowHM, c).0 == Today && LexLess(nowHM, c.eveningTime)
            ==> !LexLess(c.eveningTime, NextTarget(nowHM, c).1)
    ensures NextTarget(nowHM, c).0 == Tomorrow ==> !LexLess(c.eveningTime, NextTarget(nowHM, c).1)
  {
  }

  /** With the morning time after the evening time the text can skip the
      evening event: at 07:00 with 20:00 / 08:00 it announces 20:00. */
  lemma EveningBeforeMorningSkipsEvening()
    ensures NextTarget("07:00", WateringConfig("20:00", "08:00", 60, 60, 60, 60, 60, 60)) == (Today, "20:00")
  {
  }

  /** An unpadded morning time compares as a string, not as a time: at
      08:00 with a morning time of "7:00" the text still names 7:00 today,
      because '0' < '7'. `atoi("7:")` stops at the ':' and gives hour 7. */
  lemma UnpaddedMorningStillAhead()
    ensures NextTarget("08:00", WateringConfig("7:00", "18:00", 60, 60, 60, 60, 60, 60)) == (Today, "7:00")
    ensures NextScheduleStr("08:00", WateringConfig("7:00", "18:00", 60, 60, 60, 60, 60, 60)) == "Today - 7:00 (Morning)"
  {
    assert Announce(Today, "7:00", "Morning") == "Today - 7:00 (Morning)";
    var c := WateringConfig("7:00", "18:00", 60, 60, 60, 60, 60, 60);
    assert NextScheduleStr("08:00", c) == Announce(Today, "7:00", "Morning") by {
      assert NextTarget("08:00", c) == (Today, "7:00");
      assert Substring("7:00", 0, 2) == ['7', ':'];
      assert LeadingDigits(['7', ':']) == ['7'] by {
        assert LeadingDigits([':']) == [];
      }
      assert DigitsValue(['7']) == 7 by {
        assert ['7'][..0] == [];
      }
      assert Atoi(['7', ':']) == 7;
    }
  }

  /** The hour `getNextScheduleStr` extracts with `atoi(substring(0, 2))`
      from a well-formed "HH:MM" is its hour. */
  lemma HourOfClockStr(h: nat, m: nat)
    requires h < 24 && m < 60
    ensures Atoi(Substring(ClockStr(h, m), 0, 2)) == h
  {
    ClockStrShape(h, m);
    PadTwo(h);
    assert Substring(ClockStr(h, m), 0, 2) == PadLeft(h, 2);
    AtoiPadLeft(h, 2);
  }

  /** The text for well-formed times, stated with minutes since midnight
      instead of string comparison. */
  function DescribeByMinutes(h: nat, m: nat, hm: nat, mm: nat, he: nat, me: nat): string {
    var now := h * 60 + m;
    if now < hm * 60 + mm then Announce(Today, ClockStr(hm, mm), PeriodName(hm))
    else if now < he * 60 + me then Announce(Today, ClockStr(he, me), PeriodName(he))
    else Announce(Tomorrow, ClockStr(hm, mm), PeriodName(hm))
  }

  /** For zero-padded times the string-comparing describer agrees with the
      numeric reference. */
  lemma NextScheduleByMinutes(c: WateringConfig, h: nat, m: nat, hm: nat, mm: nat, he: nat, me: nat)
    requires h < 24 && m < 60 && hm < 24 && mm < 60 && he < 24 && me < 60
    requires c.morningTime == ClockStr(hm, mm) && c.eveningTime == ClockStr(he, me)
    ensures NextScheduleStr(ClockStr(h, m), c) == DescribeByMinutes(h, m, hm, mm, he, me)
  {
    var now := ClockStr(h, m);
    ClockStrOrder(h, m, hm, mm);
    ClockStrOrder(h, m, he, me);
    if h * 60 + m < hm * 60 + mm {
      assert NextTarget(now, c) == (Today, c.morningTime);
      HourOfClockStr(hm, mm);
    } else if h * 60 + m < he * 60 + me {
      assert NextTarget(now, c) == (Today, c.eveningTime);
      HourOfClockStr(he, me);
    } else {
      assert NextTarget(now, c) == (Tomorrow, c.morningTime);
      HourOfClockStr(hm, mm);
    }
  }

  /** `atoi` of a two-digit string. */
  lemma AtoiTwoDigits(a: char, b: char)
    requires IsDigit(a) && IsDigit(b)
    ensures Atoi([a, b]) == DigitValue(a) * 10 + DigitValue(b)
  {
    var s := [a, b];
    assert AllDigits(s);
    assert s[..1] == [a] && [a][..0] == [];
    assert DigitsValue([]) == 0;
    assert DigitsValue([a]) == DigitsValue([]) * 10 + DigitValue(a);
    assert DigitsValue(s) == DigitsValue([a]) * 10 + DigitValue(b);
  }

  /** The three reference cases with the default times 07:00 and 18:00:
      "Today - 07:00 (Morning)" at 06:59, "Today - 18:00 (Evening)" at 12:00
      and "Tomorrow - 07:00 (Morning)" at 18:01. */
  lemma BeforeMorningExample()
    ensures NextScheduleStr("06:59", Defaults()) == "Today - 07:00 (Morning)"
  {
    assert Announce(Today, "07:00", "Morning") == "Today - 07:00 (Morning)";
    assert NextScheduleStr("06:59", Defaults()) == Announce(Today, "07:00", "Morning") by {
      assert NextTarget("06:59", Defaults()) == (Today, "07:00");
      assert Substring("07:00", 0, 2) == ['0', '7'];
      AtoiTwoDigits('0', '7');
    }
  }

  lemma MiddayExample()
    ensures NextScheduleStr("12:00", Defaults()) == "Today - 18:00 (Evening)"
  {
    assert Announce(Today, "18:00", "Evening") == "Today - 18:00 (Evening)";
    assert NextScheduleStr("12:00", Defaults()) == Announce(Today, "18:00", "Evening") by {
      assert NextTarget("12:00", Defaults()) == (Today, "18:00");
      assert Substring("18:00", 0, 2) == ['1', '8'];
      AtoiTwoDigits('1', '8');
    }
  }

  lemma AfterEveningExample()
    ensures NextScheduleStr("18:01", Defaults()) == "Tomorrow - 07:00 (Morning)"
  {
    assert Announce(Tomorrow, "07:00", "Morning") == "Tomorrow - 07:00 (Morning)";
    assert NextScheduleStr("18:01", Defaults()) == Announce(Tomorrow, "07:00", "Morning") by {
      assert NextTarget("18:01", Defaults()) == (Tomorrow, "07:00");
      assert Substring("07:00", 0, 2) == ['0', '7'];
      AtoiTwoDigits('0', '7');
    }
  }

  /** Exact matching: with the default configuration, 07:00 starts the
      morning session and 07:01 starts nothing. */
  lemma DefaultSlotExamples()
    ensures SlotAt(ClockStr(7, 0), Defaults()) == MorningSlot
    ensures SlotAt(ClockStr(7, 1), Defaults()) == NoSlot
    ensures SlotAt(ClockStr(18, 0), Defaults()) == EveningSlot
  {
    ClockStrShape(7, 0);
    ClockStrShape(7, 1);
    ClockStrShape(18, 0);
    assert ClockStr(7, 0) == "07:00" && ClockStr(18, 0) == "18:00";
  }
}
