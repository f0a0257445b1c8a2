/** The controller's in-memory state machine: the globals `watering`,
    `wateringStartTime`, `currentWateringDuration`, `skipNextSchedule`,
    `lastScheduleCheck` and `config`, the two line pins, the stored
    configuration file and the audit log, with `startWatering`,
    `stopWatering`, `checkSchedule`, the body of `loop()` and the effect of
    each HTTP handler registered in `setup()`.

    Inputs the hardware supplies become parameters: `nowMs` is `millis()`,
    `clock` is the local time `localtime` reports. A handler returns the
    status code and body it sends. */
module Controller {
  import opened Text
  import opened Clock
  import opened Config
  import opened Schedule
  import AuditLog

  /** `loop()` runs `checkSchedule` once more than this many ms have passed. */
  const ScheduleIntervalMs: nat := 60000

  datatype Response = Response(code: int, body: string)

  const AlreadyWatering := "{\"error\":\"Watering already in progress\"}"
  const NotWatering := "{\"error\":\"Not currently watering\"}"
  const InvalidJson := "{\"error\":\"Invalid JSON\"}"

  function Max(a: nat, b: nat): (m: nat)
    ensures m >= a && m >= b && (m == a || m == b)
  {
    if a >= b then a else b
  }

  /** The log entries start with the time stamp. */
  function StartedEntry(stamp: string, upper: nat, lower: nat): (r: string)
    ensures |r| > |stamp| && r[..|stamp|] == stamp
    ensures |r| == |stamp| + 27 + |Digits(upper)| + 9 + |Digits(lower)| + 2
    ensures r[|stamp|..|stamp| + 27] == " - Started watering (Upper="
    ensures r[|stamp| + 27..|stamp| + 27 + |Digits(upper)|] == Digits(upper)
    ensures r[|stamp| + 27 + |Digits(upper)|..|stamp| + 27 + |Digits(upper)| + 9] == "s, Lower="
    ensures r[|r| - |Digits(lower)| - 2..|r| - 2] == Digits(lower) && r[|r| - 2..] == "s)"
  {
    stamp + " - Started watering (Upper=" + Digits(upper) + "s, Lower=" + Digits(lower) + "s)"
  }

  function StoppedEntry(stamp: string): (r: string)
    ensures |r| > |stamp| && r[..|stamp|] == stamp
    ensures r[|stamp|..] == " - Stopped watering"
  {
    stamp + " - Stopped watering"
  }

  /** The expiry test of `loop()`: the elapsed milliseconds have reached the
      planned duration. */
  predicate Expired(nowMs: nat, startMs: nat, durationSeconds: nat)
    ensures Expired(nowMs, startMs, durationSeconds) <==> nowMs >= startMs + durationSeconds * 1000
  {
    nowMs - startMs >= durationSeconds * 1000
  }

  /** One millisecond short of the planned duration a session is still
      running, at the planned duration it is over, and a session of zero
      seconds is over at once. */
  lemma ExpiryThreshold(startMs: nat, durationSeconds: nat)
    ensures Expired(startMs + durationSeconds * 1000, startMs, durationSeconds)
    ensures durationSeconds > 0 ==> !Expired(startMs + durationSeconds * 1000 - 1, startMs, durationSeconds)
    ensures Expired(startMs, startMs, 0)
  {
  }

  /** The `/api/schedule` body: the description as the `next_schedule`
      string, then the flag as a JSON boolean. */
  function ScheduleJson(next: string, skip: bool): (r: string)
    ensures |r| > 18 + |next| && r[..18] == "{\"next_schedule\":\"" && r[18..18 + |next|] == next
    ensures skip ==> r[18 + |next|..] == "\",\"skip_next\":true}"
    ensures !skip ==> r[18 + |next|..] == "\",\"skip_next\":false}"
  {
    "{\"next_schedule\":\"" + next + "\",\"skip_next\":" + (if skip then "true" else "false") + "}"
  }

  /** The `/api/status` body. */
  function StatusJson(watering: bool): (r: string)
    ensures watering ==> r == "{\"watering\":true}"
    ensures !watering ==> r == "{\"watering\":false}"
  {
    "{\"watering\":" + (if watering then "true" else "false") + "}"
  }

  class WateringController {
    var watering: bool
    var wateringStartTime: nat
    var currentWateringDuration: nat
    var skipNextSchedule: bool
    var lastScheduleCheck: nat
    var upperLineOn: bool      // UPPER_LINE_PIN is HIGH
    var lowerLineOn: bool      // LOWER_LINE_PIN is HIGH
    var config: WateringConfig
    var stored: StoredConfig   // what /config.json would load as
    var log: seq<string>       // the entries of /watering.log, one per line, as appended

    /** No water flows while no session is active. */
    ghost predicate Valid()
      reads this
    {
      !watering ==> !upperLineOn && !lowerLineOn
    }

    /** What `startWatering(upper, lower)` does to the state. */
    twostate predicate StartedSession(upper: nat, lower: nat, nowMs: nat, clock: DateTime)
      reads this
    {
      && watering
      && wateringStartTime == nowMs
      && currentWateringDuration == Max(upper, lower)
      && upperLineOn == (old(upperLineOn) || upper > 0)
      && lowerLineOn == (old(lowerLineOn) || lower > 0)
      && log == AuditLog.AppendLog(old(log), StartedEntry(CurrentTimeStr(clock), upper, lower))
      && skipNextSchedule == old(skipNextSchedule)
      && lastScheduleCheck == old(lastScheduleCheck)
      && config == old(config) && stored == old(stored)
    }

    /** What `stopWatering()` does to the state. */
    twostate predicate StoppedSession(clock: DateTime)
      reads this
    {
      && !watering && !upperLineOn && !lowerLineOn
      && log == AuditLog.AppendLog(old(log), StoppedEntry(CurrentTimeStr(clock)))
      && wateringStartTime == old(wateringStartTime)
      && currentWateringDuration == old(currentWateringDuration)
      && skipNextSchedule == old(skipNextSchedule)
      && lastScheduleCheck == old(lastScheduleCheck)
      && config == old(config) && stored == old(stored)
    }

    /** `setup()` once Wi-Fi and the file system are up: both lines driven
        low, then the stored configuration loaded, or the defaults written
        when it is missing or corrupt. */
    constructor Boot(file: StoredConfig, previousLog: seq<string>)
      ensures Valid()
      ensures !watering && !upperLineOn && !lowerLineOn && !skipNextSchedule
      ensures wateringStartTime == 0 && currentWateringDuration == 0 && lastScheduleCheck == 0
      ensures LoadConfig(file).Some? ==> config == LoadConfig(file).value && stored == file
      ensures LoadConfig(file).None? ==> config == Defaults() && stored == Present(Encode(Defaults()))
      ensures log == previousLog
    {
      watering, wateringStartTime, currentWateringDuration := false, 0, 0;
      skipNextSchedule, lastScheduleCheck := false, 0;
      upperLineOn, lowerLineOn := false, false;
      config, stored, log := Defaults(), file, previousLog;
      new;
      var loaded := LoadConfig(file);
      if loaded.Some? {
        config := loaded.value;
      } else {
        SaveDefaultConfig();
      }
    }

    /** `startWatering(upper, lower)`: each line with a positive duration is
        switched on, the start and the longer duration recorded, the session
        marked active and one entry logged. It does not check for a running
        session; every caller does. */
    method StartWatering(upper: nat, lower: nat, nowMs: nat, clock: DateTime)
      modifies this
      ensures watering && wateringStartTime == nowMs && currentWateringDuration == Max(upper, lower)
      ensures upperLineOn == (old(upperLineOn) || upper > 0) && lowerLineOn == (old(lowerLineOn) || lower > 0)
      ensures log == AuditLog.AppendLog(old(log), StartedEntry(CurrentTimeStr(clock), upper, lower))
      ensures unchanged(this`skipNextSchedule, this`lastScheduleCheck, this`config, this`stored)
      ensures StartedSession(upper, lower, nowMs, clock)
      ensures Valid()
      ensures old(!watering && Valid()) ==> (upperLineOn <==> upper > 0) && (lowerLineOn <==> lower > 0)
    {
      var kept := AuditLog.TrimLines(log + [StartedEntry(CurrentTimeStr(clock), upper, lower)]);
      OpenSession(upper, lower, nowMs, kept);
    }

    /** The pin and session updates of `startWatering`, with the log as it
        stands after the entry is appended. */
    method OpenSession(upper: nat, lower: nat, nowMs: nat, newLog: seq<string>)
      modifies this
      ensures watering && wateringStartTime == nowMs && currentWateringDuration == Max(upper, lower)
      ensures upperLineOn == (old(upperLineOn) || upper > 0) && lowerLineOn == (old(lowerLineOn) || lower > 0)
      ensures log == newLog
      ensures unchanged(this`skipNextSchedule, this`lastScheduleCheck, this`config, this`stored)
    {
      // a line with no duration is left as it was, not driven low
      upperLineOn := upperLineOn || upper > 0;
      lowerLineOn := lowerLineOn || lower > 0;
      wateringStartTime := nowMs;
      currentWateringDuration := Max(upper, lower);
      watering := true;
      log := newLog;
    }

    /** `stopWatering()`: both lines off, the session inactive, one entry
        logged. */
    method StopWatering(clock: DateTime)
      modifies this
      ensures StoppedSession(clock)
      ensures Valid()
    {
      upperLineOn, lowerLineOn := false, false;
      watering := false;
      log := AuditLog.TrimLines(log + [StoppedEntry(CurrentTimeStr(clock))]);
    }

    /** `checkSchedule()`. Nothing happens while a session runs or the skip
        flag is set, and the flag is left as it was: the early return comes
        before the line that clears it, and after that line the flag was
        already false. Otherwise the minute is matched exactly against the
        morning time, then the evening time. */
    method CheckSchedule(nowMs: nat, clock: DateTime)
      requires Valid()
      modifies this
      ensures Valid()
      ensures skipNextSchedule == old(skipNextSchedule)
      ensures old(watering) || old(skipNextSchedule) ==> unchanged(this)
      ensures !old(watering) && !old(skipNextSchedule) && SlotAt(CurrentTimeOfDay(clock), old(config)) == NoSlot
              ==> unchanged(this)
      ensures !old(watering) && !old(skipNextSchedule) && SlotAt(CurrentTimeOfDay(clock), old(config)) != NoSlot
              ==> var d := SlotDurations(SlotAt(CurrentTimeOfDay(clock), old(config)), old(config));
                  StartedSession(d.0, d.1, nowMs, clock) && (upperLineOn <==> d.0 > 0) && (lowerLineOn <==> d.1 > 0)
    {
      if watering || skipNextSchedule {
        return;
      }
      var nowStr := CurrentTimeOfDay(clock);
      if nowStr == config.morningTime {
        StartWatering(config.morningValve1, config.morningValve2, nowMs, clock);
      } else if nowStr == config.eveningTime {
        StartWatering(config.eveningValve1, config.eveningValve2, nowMs, clock);
      }
      skipNextSchedule := false;
    }

    /** The expiry check at the top of `loop()`. */
    method ExpireSession(nowMs: nat, clock: DateTime)
      requires Valid()
      modifies this
      ensures Valid()
      ensures watering <==> old(watering) && !Expired(nowMs, old(wateringStartTime), old(currentWateringDuration))
      ensures watering ==> !Expired(nowMs, wateringStartTime, currentWateringDuration)   // a second check at once does nothing
      ensures old(watering) && Expired(nowMs, old(wateringStartTime), old(currentWateringDuration))
              ==> StoppedSession(clock)
      ensures !(old(watering) && Expired(nowMs, old(wateringStartTime), old(currentWateringDuration)))
              ==> unchanged(this)
    {
      if watering && Expired(nowMs, wateringStartTime, currentWateringDuration) {
        StopWatering(clock);
      }
    }

    /** One pass of `loop()` after the HTTP requests are served: the expiry
        check, then `checkSchedule` when more than a minute has passed since
        the last one. One `nowMs` and one `clock` stand for the whole pass. */
    method Loop(nowMs: nat, clock: DateTime)
      requires Valid()
      requires wateringStartTime <= nowMs && lastScheduleCheck <= nowMs   // millis() does not run backwards
      modifies this
      ensures Valid()
      ensures var expired := old(watering) && Expired(nowMs, old(wateringStartTime), old(currentWateringDuration));
              var due := nowMs - old(lastScheduleCheck) > ScheduleIntervalMs;
              var slot := SlotAt(CurrentTimeOfDay(clock), old(config));
              var fires := due && (!old(watering) || expired) && !old(skipNextSchedule) && slot != NoSlot;
              var stamp := CurrentTimeStr(clock);
              var afterStop := if expired then AuditLog.AppendLog(old(log), StoppedEntry(stamp)) else old(log);
              && watering == ((old(watering) && !expired) || fires)
              && lastScheduleCheck == (if due then nowMs else old(lastScheduleCheck))
              && skipNextSchedule == old(skipNextSchedule)
              && config == old(config) && stored == old(stored)
              && (fires ==> var d := SlotDurations(slot, old(config));
                            && wateringStartTime == nowMs && currentWateringDuration == Max(d.0, d.1)
                            && (upperLineOn <==> d.0 > 0) && (lowerLineOn <==> d.1 > 0)
                            && log == AuditLog.AppendLog(afterStop, StartedEntry(stamp, d.0, d.1)))
              && (!fires ==> && wateringStartTime == old(wateringStartTime)
                             && currentWateringDuration == old(currentWateringDuration)
                             && upperLineOn == (old(upperLineOn) && !expired)
                             && lowerLineOn == (old(lowerLineOn) && !expired)
                             && log == afterStop)
    {
      ExpireSession(nowMs, clock);
      if nowMs - lastScheduleCheck > ScheduleIntervalMs {
        CheckSchedule(nowMs, clock);
        lastScheduleCheck := nowMs;
      }
    }

    /** `saveDefaultConfig()`: the defaults in memory and in the file. */
    method SaveDefaultConfig()
      modifies this
      ensures config == Defaults() && stored == Present(Encode(Defaults()))
      ensures unchanged(this`watering, this`wateringStartTime, this`currentWateringDuration)
      ensures unchanged(this`skipNextSchedule, this`lastScheduleCheck, this`upperLineOn, this`lowerLineOn)
      ensures unchanged(this`log)
    {
      config := Defaults();
      stored := Present(Encode(config));
    }

    /** Shared by the three trigger handlers: refuse while a session runs,
        otherwise start one. */
    method Trigger(upper: nat, lower: nat, nowMs: nat, clock: DateTime, started: string) returns (r: Response)
      requires Valid()
      modifies this
      ensures Valid()
      ensures old(watering) ==> r == Response(400, AlreadyWatering) && unchanged(this)
      ensures !old(watering) ==> r == Response(200, started) && StartedSession(upper, lower, nowMs, clock)
      ensures !old(watering) ==> (upperLineOn <==> upper > 0) && (lowerLineOn <==> lower > 0)
    {
      if watering {
        return Response(400, AlreadyWatering);
      }
      StartWatering(upper, lower, nowMs, clock);
      r := Response(200, started);
    }

    /** POST `/api/trigger`: both lines with the manual durations. */
    method HandleTrigger(nowMs: nat, clock: DateTime) returns (r: Response)
      requires Valid()
      modifies this
      ensures Valid()
      ensures old(watering) ==> r.code == 400 && unchanged(this)
      ensures !old(watering) ==> r.code == 200
      ensures !old(watering) ==> StartedSession(old(config).manualUpperDuration, old(config).manualLowerDuration, nowMs, clock)
    {
      r := Trigger(config.manualUpperDuration, config.manualLowerDuration, nowMs, clock,
                   "{\"status\":\"Watering started manually\"}");
    }

    /** POST `/api/trigger/upper`: the upper line only. */
    method HandleTriggerUpper(nowMs: nat, clock: DateTime) returns (r: Response)
      requires Valid()
      modifies this
      ensures Valid()
      ensures old(watering) ==> r.code == 400 && unchanged(this)
      ensures !old(watering) ==> r.code == 200 && !lowerLineOn
      ensures !old(watering) ==> StartedSession(old(config).manualUpperDuration, 0, nowMs, clock)
    {
      r := Trigger(config.manualUpperDuration, 0, nowMs, clock, "{\"status\":\"Upper line triggered\"}");
    }

    /** POST `/api/trigger/lower`: the lower line only. */
    method HandleTriggerLower(nowMs: nat, clock: DateTime) returns (r: Response)
      requires Valid()
      modifies this
      ensures Valid()
      ensures old(watering) ==> r.code == 400 && unchanged(this)
      ensures !old(watering) ==> r.code == 200 && !upperLineOn
      ensures !old(watering) ==> StartedSession(0, old(config).manualLowerDuration, nowMs, clock)
    {
      r := Trigger(0, config.manualLowerDuration, nowMs, clock, "{\"status\":\"Lower line triggered\"}");
    }

    /** POST `/api/stop`: stops a running session; refused when idle. */
    method HandleStop(clock: DateTime) returns (r: Response)
      requires Valid()
      modifies this
      ensures Valid()
      ensures old(watering) ==> r == Response(200, "{\"status\":\"Watering stopped manually\"}") && StoppedSession(clock)
      ensures !old(watering) ==> r == Response(400, NotWatering) && unchanged(this)
    {
      if watering {
        StopWatering(clock);
        r := Response(200, "{\"status\":\"Watering stopped manually\"}");
      } else {
        r := Response(400, NotWatering);
      }
    }

    /** POST `/api/skip`. */
    method HandleSkip() returns (r: Response)
      modifies this`skipNextSchedule
      ensures skipNextSchedule && r == Response(200, "{\"status\":\"Next watering schedule skipped\"}")
    {
      skipNextSchedule := true;
      r := Response(200, "{\"status\":\"Next watering schedule skipped\"}");
    }

    /** POST `/api/skip/cancel`: the only way the flag is cleared. */
    method HandleSkipCancel() returns (r: Response)
      modifies this`skipNextSchedule
      ensures !skipNextSchedule && r == Response(200, "{\"status\":\"Skip cancelled\"}")
    {
      skipNextSchedule := false;
      r := Response(200, "{\"status\":\"Skip cancelled\"}");
    }

    /** GET `/api/schedule`: the next-schedule text and the skip flag. */
    method HandleSchedule(clock: DateTime) returns (r: Response)
      ensures r == Response(200, ScheduleJson(NextScheduleStr(HourMinute(clock), config), skipNextSchedule))
    {
      r := Response(200, ScheduleJson(NextScheduleStr(HourMinute(clock), config), skipNextSchedule));
    }

    /** GET `/api/status`. */
    method HandleStatus() returns (r: Response)
      ensures r == Response(200, StatusJson(watering))
    {
      r := Response(200, StatusJson(watering));
    }

    /** GET `/api/config`: the configuration as a complete document. */
    method HandleGetConfig() returns (doc: ConfigDoc)
      ensures Complete(doc) && FromPost(doc) == config && LoadConfig(Present(doc)) == Some(config)
    {
      doc := Encode(config);
      PostEncoded(config);
      LoadEncoded(config);
    }

    /** POST `/api/config/reset`. */
    method HandleConfigReset() returns (r: Response)
      modifies this
      ensures r == Response(200, "{\"status\":\"Configuration reset to defaults\"}")
      ensures config == Defaults() && stored == Present(Encode(Defaults()))
      ensures unchanged(this`watering, this`wateringStartTime, this`currentWateringDuration)
      ensures unchanged(this`skipNextSchedule, this`lastScheduleCheck, this`upperLineOn, this`lowerLineOn)
      ensures unchanged(this`log)
    {
      SaveDefaultConfig();
      r := Response(200, "{\"status\":\"Configuration reset to defaults\"}");
    }

    /** POST `/api/config`, given what the JSON parser made of the body
        (`None` for a parse error). A parsed document replaces every field,
        missing ones included, and is stored as received. */
    method HandleConfigPost(parsed: Option<ConfigDoc>) returns (r: Response)
      modifies this`config, this`stored
      ensures parsed.None? ==> r == Response(400, InvalidJson) && config == old(config) && stored == old(stored)
      ensures parsed.Some? ==> r == Response(200, "{\"status\":\"Configuration updated\"}")
      ensures parsed.Some? ==> config == FromPost(parsed.value) && stored == Present(parsed.value)
    {
      if parsed.None? {
        return Response(400, InvalidJson);
      }
      config := FromPost(parsed.value);
      stored := Present(parsed.value);
      r := Response(200, "{\"status\":\"Configuration updated\"}");
    }
  }
}
