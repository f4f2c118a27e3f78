# Hermes 2.0 monitoring core in Dafny

This project models the state logic of the Hermes 2.0 ("ГЕРМЕС") leak-monitoring
front end. Every piece is written as a pure function over immutable values:

- **Event journal** (`Journal`, `EventsManager`). A newest-first list of journal entries
  under the `hermes_events` key, capped at 1000 entries. It has per-type statistics
  (`getStatistics`), a line-oriented CSV export (`exportToCSV`) and the localized
  type labels (`getEventTypeText`).
- **Sensor registry** (`Sensors`, from `DataSimulator`). 24 sensors with ids 1..24, a fixed
  threshold table and a fixed initial-range table per type, the initial draw of
  zone, type and reading, and the natural-drift tick.
- **Test state machine** (`Simulator`, from `DataSimulator`). `startSensorTest`,
  `endSensorTest`, the `checkManualTests` sweep and the pending end-of-test timers.
  It also covers `createEvent` with its 100-entry display buffer and notification
  rule, and `saveEventToJournal`, which files every event in the journal.
- **Report list** (`Reports`, the reports page). Form validation and creation of a
  report, the simulated generation job (ten ticks of +10 %), the status counts,
  clearing the list, deleting one report, and the period and type caption tables.

`Basics`, `Lists`, `Text`, `Decimal` and `Storage` are shared helpers: list operations
with their own lemmas, trimming and joining text, rounding to hundredths
(`toFixed`), and the storage slot.

Conventions of the model:

- **Storage keys.** A key such as `hermes_events`, `hermes_user` or `hermes_reports` is
  a `Slot`: `Missing`, `Corrupt` (text that `JSON.parse` rejects) or `Stored(value)`.
- **Clock and randomness.** The clock is a parameter: a `Clock` or `Stamp` carries
  `Date.now()` and the locale or ISO text of the same instant. Every `Math.random()`
  result is a `Draw`, a real in [0, 1), passed in by the caller.
- **Readings.** Sensor readings are exact reals. `toFixed(2)` is `Decimal.Round2`,
  rounding to the nearest hundredth with ties away from zero.
- **Timers.** A `setTimeout` still pending is an element of `timers`, and
  `Simulator.FireTimer` runs it. A `setInterval` job is a `Job` value advanced by
  `Reports.Tick`.
- **Exceptions.** A JavaScript exception is an explicit outcome: `ThrewTypeError`,
  `ThrewOnUser`, `TickThrew` or `ThrewOnStorage`. The state it carries is the state
  left behind when the exception was raised.

Behaviour of the code worth knowing before reading the model:

- **Ending a test twice.** Ending a test twice emits two `success` events: every
  `endSensorTest` on a known id emits one more, and journals it. The timer
  armed by `startSensorTest` is never cancelled, so it still fires after the sweep
  has ended the test. `Simulator.EndTwiceEmitsTwice`,
  `Simulator.EndTwiceJournalsTwice` and `Simulator.TimerFiresAfterSweep` state this.
- **Unparsable storage.** Each caller handles unparsable storage differently:
  - `EventsManager.getEvents` reads it as an empty journal.
  - `saveEventToJournal` catches the parse error and leaves the journal as it was.
    It does not start an empty one.
  - On the reports page an unparsable `hermes_user` makes `generateReport` throw
    before anything changes (`ThrewOnUser`).
  - An unparsable `hermes_reports` makes `deleteReport` throw before anything
    changes (`ThrewOnStorage`).
- **The `normal` test type.** It never reaches an event. Its branch stores the
  string `getInitialValue` returns, and `toFixed` on that string throws. By then
  the sensor is already marked as under test, with status normal, and its id is in
  the active set (`ThrewTypeError`).

## Model

| member | source | states |
|---|---|---|
| Journal.GetEvents | js/utils/events-manager.js:9-17 | a stored journal reads as its entries, and a missing or unparsable one reads as the empty journal |
| Journal.AddOverCorrupt | js/utils/events-manager.js:9-40 | adding to an unparsable journal starts a fresh one holding just the new entry and reports success |
| Journal.AddEvent | js/utils/events-manager.js:31-40 | the new entry is at index 0, the rest is the old journal in order truncated to the cap, the length is min(old + 1, 1000), and the save reports success |
| Journal.AddManyKeepsNewest | js/utils/events-manager.js:31-37 | after any number of additions to an empty journal it holds exactly the 1000 most recent, newest first, so further additions evict only the oldest |
| Journal.ClearEvents | js/utils/events-manager.js:43-46 | clearing returns true and the journal then reads as empty |
| Journal.ClearResetsStatistics | js/utils/events-manager.js:43-65 | after clearing, all counts are 0, there is no last event and the export is the empty string |
| Journal.GetStatistics | js/utils/events-manager.js:49-59 | total is the length, danger + warning + normal never exceed it, test never exceeds it, and lastEvent is the timestamp of entry 0 and is null exactly when the journal is empty |
| Journal.StatisticsByPosition | js/utils/events-manager.js:52-57 | each bucket is the number of positions with exactly that type; the test bucket counts entries typed "test" or flagged isTest, so it may overlap the others |
| Journal.EventTypeText | js/utils/events-manager.js:95-103 | the four known types map to their non-empty labels and any other key comes back unchanged |
| Journal.TypeLabelsDistinct | js/utils/events-manager.js:96-101 | different known types get different labels |
| Journal.CsvCells | js/utils/events-manager.js:69-85 | a row has one cell per header column |
| Journal.ExportToCsv | js/utils/events-manager.js:63-93 | the export is empty exactly when the journal is empty |
| Journal.ExportLines | js/utils/events-manager.js:87-92 | when no cell holds a line break, splitting a non-empty export at line breaks gives the header line followed by one row per entry in journal order, 1 + n lines in all |
| Journal.LinesSingle | js/utils/events-manager.js:87-90 | when no cell holds a line break, neither the header nor any row does |
| Journal.RowSingleLine | js/utils/events-manager.js:89 | a row whose nine cells hold no line break is itself one line |
| Journal.QuotedRecordAmbiguous | js/utils/events-manager.js:89 | quotes inside a cell are not doubled, so the one cell a","b and the two cells a and b give the same row text |
| Sensors.ParseType | js/simulator.js:63-72 | a key names a type exactly when it is that type's table key |
| Sensors.ThresholdsShape | js/simulator.js:63-73 | every known key gets its table pair and any other key gets the pressure pair; warning is below danger for every key except level, where danger 20 is below warning 30 |
| Sensors.SampleWithin | js/simulator.js:50-60 | every type's draw lies in its range, whose ends have two decimals |
| Sensors.InitialValue | js/simulator.js:50-61 | the initial reading lies in the type's range and has two decimals |
| Sensors.PickIndex | js/simulator.js:40-48 | a random pick is a valid index into the zone or type list |
| Sensors.InitSensors | js/simulator.js:17-38 | exactly 24 sensors, ids 1..24 in order, named by padded id, status normal, not under test, no end time, the thresholds of their type, and a reading inside the type's range |
| Sensors.Drift | js/simulator.js:99-122 | a sensor under test is untouched; any other gets status normal and a reading within 0.8 times the type's minimum and 1.2 times its maximum, and nothing else changes |
| Sensors.UpdateSensors | js/simulator.js:99-123 | the drift tick skips every sensor under test and gives every other sensor status normal and a reading in its drift band |
| Sensors.GetSensorList | js/simulator.js:399-406 | one entry per sensor in registry order, carrying its id, name, zone and type |
| Sensors.FindSensor | js/simulator.js:127 | the position found holds the first sensor with that id; none is found only when no sensor has it |
| Sensors.FindInRegistry | js/simulator.js:21-26 | in a registry, id k in 1..24 is found at position k - 1 and any other id is unknown |
| Simulator.NewSimulator | js/simulator.js:6-14 | a fresh simulator satisfies the invariant, with no events, no active tests and no timers |
| Simulator.DescriptionUnmarked | js/simulator.js:258-267 | no plain description starts with the test marker |
| Simulator.MakeEvent | js/simulator.js:483-496 | the description carries the "[ТЕСТ] " marker exactly when the event is a test, followed by the plain description; the event is unacknowledged and carries the sensor's name and zone, the level, the reading text and the clock's time text |
| Simulator.JournalTypeMapping | js/simulator.js:433-440 | an entry is filed as "test" exactly when it is a test event, and as "normal" exactly when it is a non-test success; any other event keeps its level key |
| Simulator.SaveEventToJournal | js/simulator.js:421-479 | unparsable journal or user text leaves the journal unchanged; otherwise the entry is prepended under the 1000 cap with its type, operator (user name, else "Система") and event fields |
| Simulator.CreateEvent | js/simulator.js:482-520 | the new event heads the display buffer, which keeps its newest 100 in order; it is handed to the journal, and a notification is raised exactly for non-test events and danger-level tests; sensors, active tests and timers are untouched |
| Simulator.ParseTestType | js/simulator.js:142-160 | only "warning", "danger" and "failure" have a branch of their own; every other string reaches the default branch |
| Simulator.TestLevelKey | js/simulator.js:165 | the level of a test event is the test type itself |
| Simulator.TestReading | js/simulator.js:142-162 | warning sets the rounded warning threshold × 1.1 and status warning, danger the rounded danger threshold × 1.2 and status danger, failure reading 0 and status danger; nothing else changes |
| Simulator.StartKnown | js/simulator.js:135-187 | the sensor is marked under test with end time now + d·1000 and its id joins the active set on every branch; known types set reading and status, log one test event, built from the updated sensor, at the type's level (its value is the test reading as toFixed(2) text, its description carries the "[ТЕСТ] " marker) and append one timer; any other type sets status normal and throws with no event and no timer; the logged event is journalled through saveEventToJournal and raises a notice exactly when its level notifies; the stored user is untouched |
| Simulator.StartSensorTest | js/simulator.js:126-188 | an unknown id returns false and changes nothing; true is returned exactly for a known id and a known test type; a known id behaves as StartKnown at the sensor's position |
| Simulator.StartOnRegistry | js/simulator.js:127 | in a registry, starting a test on id k in 1..24 is StartKnown at position k - 1 |
| Simulator.DangerTestOnVibration | js/simulator.js:147-165 | a danger test on a vibration sensor puts 30.00 on the sensor (25 × 1.2), sets it to danger, and logs a marked danger event whose value text is "30.00" |
| Simulator.StartSetsReading | js/simulator.js:143-150 | with table thresholds, a warning test reads exactly warning × 1.1 and a danger test exactly danger × 1.2, with nothing lost to toFixed(2) |
| Simulator.TestReadingsExact | js/simulator.js:144-162 | every table threshold × 1.1 or × 1.2 already has two decimals (a danger test on a vibration sensor reads 30.00) |
| Simulator.RestartActiveOnce | js/simulator.js:138 | starting a test twice on one sensor leaves its id in the active set exactly once |
| Simulator.EndKnown | js/simulator.js:191-206 | the test is cleared, status normal and a fresh reading in the type's range; the id leaves the active set; one success test event built from the restored sensor is emitted and journalled through saveEventToJournal, with no notice; no other sensor changes and timers are untouched |
| Simulator.EndSensorTest | js/simulator.js:191-206 | an unknown id changes nothing; a known id behaves as EndKnown at its position |
| Simulator.EndOnRegistry | js/simulator.js:192-193 | in a registry, ending id k in 1..24 is EndKnown at position k - 1 and any other id changes nothing |
| Simulator.EndInRegistry | js/simulator.js:197-202 | ending a test keeps the registry, ends exactly that sensor and removes exactly that id from the active set |
| Simulator.Sweep | js/simulator.js:209-218 | the sweep keeps ids, types and timers, never adds to the active set, and keeps it free of duplicates and the display buffer within its cap |
| Simulator.SweepSensors | js/simulator.js:212-216 | the sweep ends exactly the listed sensors whose end time has come and leaves every other sensor as it was |
| Simulator.SweepActive | js/simulator.js:212-216 | the sweep removes from the active set exactly the listed ids that were due |
| Simulator.CheckEndsExactlyDue | js/simulator.js:209-218 | checkManualTests ends exactly the sensors under test whose end time is at or before now, leaves every other sensor as it was, and keeps the invariant |
| Simulator.FireTimer | js/simulator.js:183-185 | a firing timer leaves the timer list and calls endSensorTest for its sensor: a known sensor is ended (Ended, its id leaves the active set, one more success test event is emitted and journalled), and an unknown id changes only the timer list |
| Simulator.UpdatePreservesValid | js/simulator.js:99-123 | the drift tick keeps the invariant |
| Simulator.TickPreservesValid | js/simulator.js:80-84 | one period of the simulation interval (drift, then sweep) keeps the invariant |
| Simulator.StartKnownValid | js/simulator.js:135-187 | starting a test on any position keeps the invariant, on the thrown branch too |
| Simulator.StartPreservesValid | js/simulator.js:126-188 | startSensorTest keeps the invariant on every outcome |
| Simulator.EndPreservesValid | js/simulator.js:191-206 | endSensorTest keeps the invariant |
| Simulator.FireTimerPreservesValid | js/simulator.js:183-185 | a timer firing keeps the invariant |
| Simulator.SaveTwice | js/simulator.js:421-479 | two events saved in turn onto readable storage are both in the journal, the later first, and it grows by two up to the cap |
| Simulator.EndTwiceJournalsTwice | js/simulator.js:191-206 | ending the same test twice with readable storage journals two test entries for the sensor, newest first, carrying the two descriptions the display buffer shows |
| Simulator.EndTwiceEmitsTwice | js/simulator.js:191-206 | ending the same test twice is not a no-op: two success events for the sensor head the buffer and the sensor stays ended |
| Simulator.TimerFiresAfterSweep | js/simulator.js:183-185 | after the sweep has ended a due test its timer is still pending, and firing it emits another success event for that sensor |
| Simulator.GetChartData | js/simulator.js:366-396 | 24 points, each carrying the number of sensors in danger, flagged as an anomaly exactly when some sensor is in danger |
| Reports.PeriodText | js/reports.js:407-419 | the table caption for known keys, the formatted date range for "custom", "Произвольный период" otherwise; never empty |
| Reports.PeriodFallbackIffUnknown | js/reports.js:418 | the catch-all period caption comes out exactly for keys with no entry |
| Reports.TypeText | js/reports.js:421-432 | the table caption for known keys, "Общий" otherwise; never empty |
| Reports.TypeFallbackIffUnknown | js/reports.js:431 | the general type caption comes out exactly for keys outside the table |
| Reports.Statistics | js/reports.js:220-224 | total is the length and ready + pending + failed never exceed it |
| Reports.StatisticsByPosition | js/reports.js:221-224 | each count is the number of positions holding exactly that status |
| Reports.Validate | js/reports.js:302-310 | the form passes exactly when the trimmed title is non-empty and both dates are given; a blank title is reported first |
| Reports.ReportId | js/reports.js:317 | the id is "report_" followed by the decimal digits of the creation time, which read back as that time |
| Reports.ReportIdInjective | js/reports.js:317 | reports created at different milliseconds get different ids |
| Reports.StartJob | js/reports.js:355-357 | a job starts at progress 0 on the first report with the id, and no job starts when no report has it |
| Reports.NewReport | js/reports.js:316-330 | a new report has the untrimmed title, the captions of its keys, status "processing", progress 0 and size "0 KB" |
| Reports.Enqueue | js/reports.js:332-351 | the report goes in front of the list, the whole list is saved, the queued notice is shown, and the job starts at position 0 |
| Reports.GenerateReport | js/reports.js:293-352 | a rejected form only adds a warning; an unparsable stored user throws before anything changes; otherwise the report built from the form is queued, with author "Оператор" when no user is stored |
| Reports.GenerateQueuesOne | js/reports.js:316-348 | a successful creation puts exactly one processing report in front, keeps the older reports in order behind it, and adds one to the total and to the pending count |
| Reports.EnqueueAddsPending | js/reports.js:333-348 | queuing a processing report moves the counts by one pending report and leaves ready and failed as they were |
| Reports.ReadySize | js/reports.js:367 | a finished report's size text ends in " MB" |
| Reports.ReadySizeBounds | js/reports.js:367 | the size reads between 1.0 and 6.0 MB |
| Reports.Tick | js/reports.js:360-384 | each tick adds 10 to the progress and writes to the captured position; the report there becomes ready with progress 100 exactly when progress reaches 100; a position past the end throws and the job keeps running |
| Reports.TicksReach | js/reports.js:360-368 | n ticks add 10·n to the progress, the status changes only on the tick that reaches 100, and no other position is touched |
| Reports.TenTicks | js/reports.js:359-368 | after nine ticks the report is still running at 90 with its status untouched; the tenth makes it ready at 100 |
| Reports.CapturedIndexHitsNewerReport | js/reports.js:356-362 | once a second report is queued, the first report's job advances the second one; after its ten ticks the first report is still processing at 0 |
| Reports.TickFirst | js/reports.js:356-368 | ticking the report found by id at its position advances exactly that report by 10, saves the list, and finishes exactly at 100 with the success notice |
| Reports.TickById | js/reports.js:356-368 | looking the report up by id on every tick advances the first report with that id by 10, saves the list, finishes exactly at 100 with the success notice, leaves every report with another id alone, and stops when the report is gone |
| Reports.TickByIdIgnoresNewer | js/reports.js:356-368 | reports with other ids put in front do not change what a tick by id does to the rest of the list |
| Reports.IdJobFollowsItsReport | js/reports.js:356-368 | with lookup by id, the first report's job advances the first report even after another report is queued in front of it |
| Reports.ClearAllReports | js/reports.js:388-404 | an empty list only gets the "nothing to delete" notice; a confirmed clear empties the list and removes the key; a declined one changes nothing |
| Reports.ClearThenClear | js/reports.js:388-396 | after clearing, all counts are zero, and clearing again only reports that there is nothing to delete |
| Reports.DeleteReport | js/reports.js:500-515 | a declined confirm changes nothing and reports `Declined`; a confirmed delete on an unparsable stored list throws (`ThrewOnStorage`) and changes nothing; otherwise it keeps exactly the stored reports whose id differs, a missing key saving an empty list; the in-memory list and the page's notices are untouched |
| Reports.DeleteKeepsOrder | js/reports.js:503-505 | survivors keep their stored order: deleting from a list equals deleting from its two halves and joining them |
| Reports.DeleteTwice | js/reports.js:504 | deleting the same id twice is the same as deleting it once |

## Left out

- **Rendering and glue.** DOM rendering and animation are left out: `renderReports`,
  `updateEventsList`, `updateMapSensors`, `updateAlarmCounter`, `updateCounter`,
  `updateDashboard`, modals, button handlers, `downloadReport`, `viewReport` and
  Toastify styling. They only display data the model already holds.
- **`confirm` answers** are a `confirmed` parameter.
- **Scheduling.** `setInterval`/`setTimeout` scheduling, `startSimulation`/`stopSimulation`,
  `startDataSimulation`, `stopDataSimulation` and `runSensorTest` are left out. Timers
  are explicit values fired by the caller. Their ordering against each other is the
  caller's choice.
- **Unreachable code.** The block at js/simulator.js:166-181 is only reachable when an
  `addTestEventToLog` function exists, and it refers to undefined names.
- **File layout.** As written, js/simulator.js does not parse:
  - The class closes at js/simulator.js:407.
  - `saveEventToJournal` (js/simulator.js:421-479) and the second `createEvent`
    (js/simulator.js:482-520) sit inside the body of the first `startDataSimulation`
    (js/simulator.js:412-558), in method syntax.
  - `let dataSimulator` is declared twice (js/simulator.js:410 and 536).

  The model chooses to treat both functions as `DataSimulator` methods. It takes the
  persisting `createEvent` body (js/simulator.js:482-520) over the first one
  (js/simulator.js:221-256), which does not journal.
- **Rounding.** Floating-point arithmetic is not modelled bit for bit. Readings are exact
  reals, and `toFixed` rounds the exact value half away from zero. The model makes no claim
  about binary rounding artefacts.
- **Chart values.** The sinusoidal chart `value` and the hour labels of `getChartData`
  are left out. Only the alarm fields are modelled.
- **Dates and locales.** `toLocaleDateString`, `toLocaleTimeString` and `toISOString`
  are parameters: formatter functions or pre-rendered text. Their output is opaque.
- **Failing writes.** A `localStorage.setItem` quota failure is not modelled:
  `saveEvents` always reports success. `JSON.stringify` followed by `JSON.parse` is
  taken as the identity on the modelled records, with one exception: the journal
  entry's `timestamp` is `new Date()` (js/simulator.js:447), which the program stores
  as ISO text, so after a reload `timestamp` and the statistics' `lastEvent` are
  strings there. The model keeps that instant as a number of milliseconds.
- **Notification guard.** `createEvent` calls `showNotification` only when that
  function exists (js/simulator.js:510). The model assumes it exists, so every
  notifying event adds a `Notice`.
- **Storage support.** `saveEventToJournal` returns early when `Storage` is undefined
  (js/simulator.js:424). The model assumes `localStorage` is always available.
- **Empty stored text.** A key holding the empty string is none of `Missing`, `Corrupt`
  or `Stored`, and it is not modelled. `deleteReport` reads it as `'[]'` through
  `|| '[]'` (js/reports.js:503), and `getEvents` reads it as an empty journal. In the
  model a `Corrupt` slot always makes `deleteReport` throw (`ThrewOnStorage`).
  Parsable text that is not a list or a record, such as `null`, is not modelled either.
- **Id types.** `startSensorTest` adds the id to the active set exactly as passed.
  A string id such as "5" would sit in the set next to the number 5. Ids are numbers
  here, so that distinction is not modelled.
- **Lookup-table keys.** The lookup tables are plain objects, so keys such as
  "constructor" would hit `Object.prototype`. They are modelled as maps holding only
  their listed keys.
- **Reloading.** `loadReports` and the page's in-memory reload after `deleteReport` are
  left out. Both live inside the page script's closure and are not visible to the
  global `deleteReport`, so the in-memory list stays as it was.
- **Simulator.StartSensorTest** takes the duration as a whole number of seconds. The
  default `durationSeconds = 30` (js/simulator.js:126) is not modelled, because the
  caller always passes a duration. Fractional durations, which give end times
  (js/simulator.js:137) and timer delays (js/simulator.js:185) with fractional
  milliseconds, are not modelled either.
- **Sensors.Drift** states the band [0.8·min, 1.2·max] of the type. It does not state
  the tighter band around the fresh base reading drawn on each tick.
- **Sensors.FindSensor** compares ids with `===` after `parseInt`. `parseInt` on a
  non-numeric string is not modelled.

## Findings

| source | as written | input that shows it | evidently intended | confidence | as-written member | corrected member |
|---|---|---|---|---|---|---|
| js/reports.js:356-368 | the generation job captures the report's list position once and writes to that position on every tick | generate report A at t = 1, then report B at t = 2; A's job runs its ten ticks | each job advances the report it was started for, looked up by id | not executed | Reports.CapturedIndexHitsNewerReport | Reports.IdJobFollowsItsReport |

With the captured position, A's ticks make B ready while A stays `processing` at 0.
`Reports.Tick` models the callback as written, and `Reports.CapturedIndexHitsNewerReport`
proves the mix-up. `Reports.TickById` is the corrected callback.
`Reports.TickByIdIgnoresNewer` and `Reports.IdJobFollowsItsReport` prove that reports
queued later no longer move its target. `GenerateReport` still returns the
position-based job, as the program does.
