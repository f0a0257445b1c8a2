# WaterMe irrigation controller — a Dafny model

This project models the ESP32 firmware of the WaterMe two-line irrigation
controller (`src/main.cpp`). It covers the state machine that decides when
water flows:

- starting and stopping a watering session on the upper and lower lines;
- the expiry check in the main loop;
- the once-a-minute schedule check, with its morning and evening times and the skip flag;
- the "next schedule" text and the formatted clock;
- the configuration, with its defaults, its per-field fallback when loaded at boot, and its replacement by the POST handler;
- the audit log, trimmed to its 25 most recent lines;
- the effect of each HTTP handler on this state.

Hardware and time come in as parameters:

- `nowMs` stands for `millis()`;
- a `DateTime` stands for what `localtime` reports;
- a pin is a boolean field (`true` is HIGH);
- the configuration file is a `StoredConfig` value;
- the log file is a sequence of lines.

Modules, in dependency order:

- `Text` (`text.dfy`) covers the string primitives the firmware uses: `%0Nd` formatting, `snprintf` truncation, `atoi`, Arduino `String::substring`, and `String::operator<`. That operator compares in `strcmp` order, which is `LexLess` here, not Dafny's prefix order.
- `Clock` (`clock.dfy`) covers `getCurrentTimeStr` and the "HH:MM" strings. It proves that comparing zero-padded times as strings matches minutes since midnight.
- `Config` (`config.dfy`) covers `WateringConfig`, the JSON document as a record of optional fields, `saveDefaultConfig`'s values, `loadConfig` and the POST conversion.
- `Schedule` (`schedule.dfy`) covers `checkSchedule`'s choice of session and `getNextScheduleStr`.
- `AuditLog` (`auditlog.dfy`) covers `appendLog`, both on lines and on the file text.
- `Controller` (`controller.dfy`) is the class `WateringController`. It holds the globals, the pins, the configuration, the stored file and the log. Its methods are `startWatering`, `stopWatering`, `checkSchedule`, `loop()` and the handlers. `Valid()` is the invariant that both lines are off while no session is active. Every method preserves it.

Two behaviours of the code differ from what its names and messages suggest. The model follows the code:

- The flag is named `skipNextSchedule`, and `/api/skip` answers "Next watering schedule skipped" (src/main.cpp:23, 291). But the scheduler never clears it: `checkSchedule` returns at src/main.cpp:133, before the clear at line 137, and on every other path the flag is already false. So a set flag suppresses every scheduled session until `/api/skip/cancel` clears it. `Controller.WateringController.CheckSchedule` states this.
- The POST handler accepts a document with missing fields (src/main.cpp:211-218). Each missing duration becomes 0 and each missing time becomes the text "null" (`Config.FromPost`). The document is stored exactly as received. After a restart, those fields load as the defaults instead (`Config.PostThenRestartDiverges`).

## Model

| member | source | states |
|---|---|---|
| Text.Digits | src/main.cpp:97 | `String + int` of a non-negative duration: at least one character, all decimal digits, no leading zero |
| Text.DigitsRoundTrip | src/main.cpp:97 | the decimal text `String + int` appends for a duration reads back as that duration |
| Text.PadLeft | src/main.cpp:63 | `%0Nd`: all digits, and as long as the width or the number's own digits, whichever is longer |
| Text.PadLeftLength | src/main.cpp:63 | `%0Nd` of a value below 10^N is exactly N characters |
| Text.PadLeftValue | src/main.cpp:63 | the zero-padded text denotes the value it formats |
| Text.Atoi | src/main.cpp:82 | `atoi` of a string of digits is the number it denotes, of a blank string 0, and of a string starting with a digit the value of its leading run of digits ("7:" gives 7) |
| Text.AtoiPadLeft | src/main.cpp:82 | `atoi` of a zero-padded number gives the number back |
| Text.Substring | src/main.cpp:82 | `substring(left, right)` is the slice when the bounds are in range, the rest of the string when only `right` is past the end, and never longer than the string |
| Text.Prefix | src/main.cpp:62-63 | `snprintf` into a buffer of n+1 bytes keeps exactly the first n characters of a longer string, and all of a shorter one |
| Text.LexLess | src/main.cpp:75-77 | `String::operator<` (`strcmp(a, b) < 0`) never holds between equal strings |
| Text.LexLessTransitive | src/main.cpp:75-77 | `String::operator<` is transitive |
| Text.LexLessTotal | src/main.cpp:75-77 | of two different strings one is less than the other |
| Text.LexLessAsymmetric | src/main.cpp:75-77 | `String::operator<` is asymmetric |
| Text.LexLessIsNotPrefixOrder | src/main.cpp:75 | "06:59" < "07:00" under `strcmp`, though neither is a prefix of the other |
| Clock.HourMinute | src/main.cpp:70-72 | the 6-byte buffer keeps at most 5 characters, and for a two-digit hour and minute exactly the "HH:MM" text |
| Clock.CurrentTimeStr | src/main.cpp:59-65 | the 20-byte buffer keeps at most 19 characters, and for a valid date the whole 16-character stamp |
| Clock.CurrentTimeOfDay | src/main.cpp:134 | `getCurrentTimeStr().substring(11)` of a valid date is its "HH:MM" |
| Clock.TimeOfDaySuffix | src/main.cpp:59-65 | for a valid date the stamp has 16 characters, and `substring(11)` of it is the same "HH:MM" text that `getNextScheduleStr` prints (src/main.cpp:70-72, 134) |
| Clock.ClockStrInjective | src/main.cpp:71 | different times of day print as different "HH:MM" |
| Clock.ClockStrOrder | src/main.cpp:71-77 | string order on "HH:MM" is exactly the order of minutes since midnight |
| Config.Defaults | src/main.cpp:329-337 | the defaults are 07:00, 18:00 and 60 seconds for all six durations |
| Config.Encode | src/main.cpp:339-347 | the document built from a configuration has every field present |
| Config.LoadConfig | src/main.cpp:107-125 | no configuration when the file is missing or does not parse; otherwise each field independently takes the stored value or its own default |
| Config.FromPost | src/main.cpp:204-225 | the POST handler overwrites every field: a present value is taken, a missing duration is 0 and a missing time is "null" |
| Config.LoadEncoded | src/main.cpp:107-125 | a configuration written out in full loads back unchanged |
| Config.LoadDefaults | src/main.cpp:155-158 | the defaults loaded back give the defaults, and so does an empty document |
| Config.PostEncoded | src/main.cpp:184-225 | posting back what GET `/api/config` returned reproduces the configuration |
| Config.PostThenRestart | src/main.cpp:204-225 | for a complete posted document, the configuration after a restart equals the one in memory |
| Config.PostThenRestartDiverges | src/main.cpp:211-218 | with a duration missing from the posted document, memory holds 0 while a restart loads 60 (src/main.cpp:118) |
| Schedule.SlotAt | src/main.cpp:134-136 | the morning session iff the time equals `morning_time`; else the evening session iff it equals `evening_time`; else none |
| Schedule.SlotDurations | src/main.cpp:135-136 | a morning session starts with the morning durations and an evening session with the evening durations |
| Schedule.MorningFiresOnlyAtItsMinute | src/main.cpp:134-135 | a well-formed morning time fires at exactly its own minute of the day |
| Schedule.EveningFiresOnlyAtItsMinute | src/main.cpp:134-136 | a well-formed evening time fires at exactly its own minute, unless it equals the morning time, in which case morning wins |
| Schedule.MalformedTimeNeverFires | src/main.cpp:134-136 | a configured time that is not five characters long never fires |
| Schedule.DefaultSlotExamples | src/main.cpp:134-136 | with the defaults, 07:00 fires morning, 07:01 fires nothing and 18:00 fires evening |
| Schedule.NextTarget | src/main.cpp:74-81 | today's morning time when the current time is before it; otherwise today's evening time when before that; otherwise tomorrow's morning time (string order throughout) |
| Schedule.NextScheduleStr | src/main.cpp:67-85 | the text is the chosen day, the chosen time and the period of `atoi` of the time's first two characters, in the shape `Announce` states |
| Schedule.Announce | src/main.cpp:84 | the text is the day label, " - ", the time, then " (", the period and ")"; its length is the three parts plus six |
| Schedule.PeriodName | src/main.cpp:83 | Night below hour 6, Morning below 12, Afternoon below 17, Evening otherwise |
| Schedule.NextTargetIsEarliestAhead | src/main.cpp:74-81 | when morning is not after evening, the announced time is the earliest time still ahead, or tomorrow's morning |
| Schedule.EveningBeforeMorningSkipsEvening | src/main.cpp:75-78 | with the morning time after the evening time, at 07:00 the text names the morning time, skipping the earlier evening event |
| Schedule.UnpaddedMorningStillAhead | src/main.cpp:75-84 | with an unpadded morning time "7:00", at 08:00 the target is still 7:00 today, because the comparison is on strings, and the text is "Today - 7:00 (Morning)", because `atoi("7:")` is 7 |
| Schedule.HourOfClockStr | src/main.cpp:82 | `atoi(substring(0, 2))` of a well-formed "HH:MM" is its hour |
| Schedule.NextScheduleByMinutes | src/main.cpp:67-85 | for zero-padded times, the string-comparing description equals the reference description that compares minutes since midnight |
| Schedule.AtoiTwoDigits | src/main.cpp:82 | `atoi` of two digit characters is their two-digit value |
| Schedule.BeforeMorningExample | src/main.cpp:75-84 | at 06:59 with the defaults: "Today - 07:00 (Morning)" |
| Schedule.MiddayExample | src/main.cpp:77-84 | at 12:00 with the defaults: "Today - 18:00 (Evening)" |
| Schedule.AfterEveningExample | src/main.cpp:79-84 | at 18:01 with the defaults: "Tomorrow - 07:00 (Morning)" |
| AuditLog.KeepRecent | src/main.cpp:50-52 | at most 25 lines are kept, and they are the most recent ones |
| AuditLog.AppendLog | src/main.cpp:39-57 | the entry becomes the last line, the result is a suffix of the old log plus the entry, nothing is dropped below 25 lines, and at 25 or more exactly the 24 newest old lines are kept with the entry |
| AuditLog.TrimLines | src/main.cpp:50-53 | the rewriting loop keeps exactly the most recent 25 lines, in order |
| AuditLog.ReadLines | src/main.cpp:47 | the lines that reading until each '\n' collects: none exactly for an empty file |
| AuditLog.Render | src/main.cpp:42-52 | what `println` writes: at least the two characters of "\r\n" per line, so a non-empty text as soon as one line is printed |
| AuditLog.AppendAsWritten | src/main.cpp:42-55 | while the text reads back as at most 25 lines, the append only adds the printed entry |
| AuditLog.ReadAllLines | src/main.cpp:46-47 | the reading loop splits the file text at each '\n' |
| AuditLog.ReadRender | src/main.cpp:42-47 | reading back what `println` wrote gives each line with a trailing '\r' |
| AuditLog.RenderAppend | src/main.cpp:42 | printing two runs of lines is printing their concatenation |
| AuditLog.AppendAsWrittenAddsCR | src/main.cpp:42-55 | the file is exact until the first trim; after that every kept line gains one more '\r' |
| AuditLog.AppendAsWrittenTrimmed | src/main.cpp:45-55 | once the log holds 25 lines, the next append rewrites the file with every kept line carrying an extra '\r', so the file no longer matches the line-level log |
| AuditLog.AppendFixedMatchesLog | src/main.cpp:42-55 | writing the kept lines back with "\n" keeps the file equal to the line-level log |
| AuditLog.ReadAfterAppendFixed | src/main.cpp:45-55 | the corrected file reads back as the line-level log with one trailing '\r' per line, as a file written by `println` always does |
| Controller.Max | src/main.cpp:95 | the larger of two durations |
| Controller.Expired | src/main.cpp:363 | the session is over exactly when the current tick has reached the start plus the duration in ms |
| Controller.StartedEntry | src/main.cpp:97 | the entry is the time stamp, " - Started watering (Upper=", the upper duration's digits, "s, Lower=", the lower duration's digits and "s)" |
| Controller.StoppedEntry | src/main.cpp:104 | the entry is the time stamp followed by " - Stopped watering" |
| Controller.ExpiryThreshold | src/main.cpp:363 | a session is over at exactly its planned duration, running 1 ms earlier, and a zero-second session is over at once |
| Controller.WateringController.Boot | src/main.cpp:142-158 | at boot both lines are off and nothing is watering; the stored configuration is loaded, or the defaults are set and written when it is missing or corrupt |
| Controller.WateringController.StartWatering | src/main.cpp:87-98 | the session becomes active with the start time and the longer duration; each line with a positive duration is on; one "Started watering" entry is logged; nothing else changes |
| Controller.WateringController.OpenSession | src/main.cpp:88-96 | each line with a positive duration is switched on and the other left as it was, the start time and the longer duration recorded, the session marked active, the log replaced by the given one, the skip flag, the schedule timer and the configuration untouched |
| Controller.WateringController.StopWatering | src/main.cpp:100-105 | both lines off, not watering, one "Stopped watering" entry logged, nothing else changes |
| Controller.WateringController.CheckSchedule | src/main.cpp:132-138 | nothing changes while watering or while skipping, and the skip flag is never changed; otherwise a session starts exactly when the minute matches a configured time, with that slot's durations |
| Controller.WateringController.ExpireSession | src/main.cpp:363-365 | the session stops iff it is active and `now - start >= duration * 1000`; otherwise nothing changes; right after it, the same check does nothing |
| Controller.WateringController.Loop | src/main.cpp:361-373 | the whole new state after one pass: expiry first, then the schedule check when more than 60000 ms have passed since the last one |
| Controller.WateringController.SaveDefaultConfig | src/main.cpp:329-357 | the configuration in memory and in the file are the defaults, and nothing else changes |
| Controller.WateringController.Trigger | src/main.cpp:253-278 | 400 `Watering already in progress` and no change while watering; otherwise 200 and a started session |
| Controller.WateringController.HandleTrigger | src/main.cpp:253-260 | refused while watering; otherwise a session with both manual durations |
| Controller.WateringController.HandleTriggerUpper | src/main.cpp:262-269 | refused while watering; otherwise a session with the upper manual duration, lower line off |
| Controller.WateringController.HandleTriggerLower | src/main.cpp:271-278 | refused while watering; otherwise a session with the lower manual duration, upper line off |
| Controller.WateringController.HandleStop | src/main.cpp:280-287 | stops a running session with 200; when idle, 400 `Not currently watering` and no change |
| Controller.WateringController.HandleSkip | src/main.cpp:289-292 | sets the skip flag |
| Controller.WateringController.HandleSkipCancel | src/main.cpp:294-297 | clears the skip flag |
| Controller.ScheduleJson | src/main.cpp:300 | the body opens with `{"next_schedule":"`, then the text, then `","skip_next":` and `true}` or `false}` by the flag |
| Controller.StatusJson | src/main.cpp:305 | `{"watering":true}` while watering, `{"watering":false}` otherwise |
| Controller.WateringController.HandleSchedule | src/main.cpp:299-302 | the body carries the next-schedule text for the current "HH:MM" and the skip flag |
| Controller.WateringController.HandleStatus | src/main.cpp:304-307 | the body carries the watering flag |
| Controller.WateringController.HandleGetConfig | src/main.cpp:184-197 | the document is complete and both loading and posting it give the current configuration back |
| Controller.WateringController.HandleConfigReset | src/main.cpp:199-202 | the defaults are set and stored, and the session state is untouched |
| Controller.WateringController.HandleConfigPost | src/main.cpp:204-225 | a parse error gives 400 and no change; otherwise every field is replaced as `FromPost` states and the document is stored as received |

## Left out

- Wi-Fi, WiFiManager, mDNS, the web server and static page serving (src/main.cpp:147-150, 162-182, 309-326) are transport. Each handler is modelled by its effect on the state and the status code and body it sends.
- The early returns of `setup()` when Wi-Fi or LittleFS fail to start are not modelled. `Boot` is the path where both come up.
- LittleFS failures are not modelled: failed opens and writes in `appendLog`, `saveDefaultConfig` and the config POST, the temporary file and the rename. The log append and both config writes always succeed in the model.
- JSON parsing and serialisation are not modelled. A parsed document is given as a record of optional fields. A value of the wrong type counts as absent, and a parse error is `None`.
- Config.FromPost: a posted value of the wrong type is treated like a missing one (0 for a duration, "null" for a time). This is a simplification. The POST handler converts with implicit `as<T>()` (src/main.cpp:211-218), not the `|` fallbacks of `loadConfig`, and the JSON library's own conversion rules, which may turn a number posted as a time into its text, are not part of this model.
- Over-the-air update (src/main.cpp:227-251) is left out: it is a foreign library followed by a restart. Its log entries are not modelled.
- NTP synchronisation, its busy wait and the six-hourly resync (src/main.cpp:127-130, 366-369) are left out, and so are `time()` and `localtime`. The current local time is an input.
- The GET `/watering.log` handler (src/main.cpp:309-317) only streams the file. It is not modelled.
- `delay()` is not modelled. One `nowMs` and one clock value stand for a whole pass of `loop()`, although the firmware reads `millis()` again after each step.
- Controller.WateringController.Loop: `millis()` wrap-around after about 49 days is not modelled. Ticks are unbounded and `Loop` requires that they do not run backwards.
- Controller.WateringController.StartWatering: durations are `nat`, which rules out negative durations. They are not bounded, and overflow is not modelled: the firmware computes `currentWateringDuration * 1000` in a 32-bit `int` (src/main.cpp:22, 363), which overflows above 2147483 seconds, while the model's product is unbounded.
- Controller.WateringController.StartWatering: the `log` field holds the entries as appended, so it does not show the extra '\r' that each trim adds to the kept lines of the file (see Findings and `AuditLog.AppendAsWrittenAddsCR`).
- Text.LexLess: embedded NUL characters, which would end `strcmp` early, are not modelled.
- Text.Atoi: overflow of `atoi` on long digit strings is not modelled, because it only ever reads two characters here.

## Findings

| source | as written | input that shows it | evidently intended | confidence | as-written member | corrected member |
|---|---|---|---|---|---|---|
| src/main.cpp:42-52 | the trim reads each line with `readStringUntil('\n')`, which keeps the '\r' of `println`'s "\r\n", and writes it back with `println`, so every kept line gains another '\r' at each trim | a log of 25 lines plus one more `appendLog`: the 25 kept lines are each rewritten as line + "\r\r\n" | the kept lines are written back unchanged, so the file keeps holding the 25 most recent entries exactly | medium, not executed | AuditLog.AppendAsWrittenAddsCR | AuditLog.AppendFixedMatchesLog |
