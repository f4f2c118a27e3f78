/** `DataSimulator`'s state machine: test overrides on single sensors, the end-of-test
    sweep and timers, event creation with its 100-entry display buffer, and the hand-off
    of every event to the persisted journal. The clock, locale time text and every
    `Math.random()` result are parameters. */
module Simulator {
  import opened Basics
  import opened Storage
  import opened Sensors
  import opened Decimal
  import Lists
  import Journal

  /** Size of the in-memory display buffer `this.events`. */
  const DisplayCap: nat := 100

  /** Event levels. `failure` is not one of the four levels `getEventDescription` names, but a `failure`
      test passes its test type through as the level. */
  datatype Level = DangerLevel | WarningLevel | InfoLevel | SuccessLevel | FailureLevel

  function LevelKey(l: Level): string
  {
    match l
    case DangerLevel => "danger"
    case WarningLevel => "warning"
    case InfoLevel => "info"
    case SuccessLevel => "success"
    case FailureLevel => "failure"
  }

  /** An event as `createEvent` builds it; `value` is the sensor reading's text and
      `timestamp` the locale time text. */
  datatype SimEvent = SimEvent(
    id: int,
    sensorId: int,
    sensorName: string,
    zone: Zone,
    level: Level,
    value: string,
    timestamp: string,
    description: string,
    isTest: bool,
    acknowledged: bool)

  /** A call of the notification sink `showNotification(message, level)`. */
  datatype Notice = Notice(message: string, level: Level)

  /** A pending `setTimeout(() => this.endSensorTest(sensorId), …)`. */
  datatype Timer = Timer(sensorId: int, due: int)

  /** The instant of a call: `Date.now()` in milliseconds and `toLocaleTimeString()`. */
  datatype Clock = Clock(now: int, timeText: string)

  /** Everything the simulator reads or writes: its own fields, the timers it scheduled,
      the notifications it raised (oldest first), and the two storage keys it uses. */
  datatype Simulator = Simulator(
    sensors: seq<Sensor>,
    events: seq<SimEvent>,
    testSensors: seq<int>,
    timers: seq<Timer>,
    notices: seq<Notice>,
    journal: Journal.EventStore,
    user: Slot<UserRecord>)

  /** What the simulator keeps true between calls: the registry of 24 sensors, the
      active-test set holding exactly the ids of the sensors under test, an end time on
      exactly those sensors, and the display buffer within its cap. */
  predicate Valid(sim: Simulator)
  {
    && Registry(sim.sensors)
    && Lists.NoDup(sim.testSensors)
    && (forall x :: x in sim.testSensors ==> 1 <= x <= SensorCount)
    && (forall i :: 0 <= i < |sim.sensors| ==> (sim.sensors[i].isTesting <==> sim.sensors[i].id in sim.testSensors))
    && (forall i :: 0 <= i < |sim.sensors| ==> (sim.sensors[i].isTesting <==> sim.sensors[i].testEndTime.Some?))
    && |sim.events| <= DisplayCap
  }

  /** The constructor: `initSensors`, no events, no active tests. */
  function NewSimulator(draws: seq<InitDraws>, now: int, journal: Journal.EventStore, user: Slot<UserRecord>): (sim: Simulator)
    requires |draws| == SensorCount
    ensures Valid(sim)
    ensures sim.events == [] && sim.testSensors == [] && sim.timers == []
  {
    Simulator(InitSensors(draws, now), [], [], [], [], journal, user)
  }

  /** `getEventDescription`'s level words; any other level reads 'СОБЫТИЕ'. */
  function LevelText(l: Level): string
  {
    match l
    case DangerLevel => "АВАРИЯ"
    case WarningLevel => "ПРЕДУПРЕЖДЕНИЕ"
    case SuccessLevel => "ВОССТАНОВЛЕНИЕ"
    case InfoLevel => "ИНФОРМАЦИЯ"
    case FailureLevel => "СОБЫТИЕ"
  }

  /** `getEventDescription`: level word, sensor name, zone and reading. */
  function EventDescription(s: Sensor, l: Level): string
  {
    LevelText(l) + ": " + s.name + " (" + ZoneKey(s.zone) + ") - " + Fixed(s.value, 2)
  }

  const TestMarker: string := "[ТЕСТ] "

  /** No plain description starts with the test marker, since no level word starts with '['. */
  lemma DescriptionUnmarked(s: Sensor, l: Level)
    ensures !(TestMarker <= EventDescription(s, l))
  {
    var d := EventDescription(s, l);
    assert d[0] == LevelText(l)[0];
    assert TestMarker[0] == '[';
  }

  /** The event record of `createEvent`. Its description carries the test marker exactly
      when it is a test event. */
  function MakeEvent(s: Sensor, level: Level, isTest: bool, clock: Clock): (e: SimEvent)
    ensures TestMarker <= e.description <==> isTest
    ensures !isTest ==> e.description == EventDescription(s, level)
    ensures isTest ==> e.description[|TestMarker|..] == EventDescription(s, level)
    ensures e.sensorId == s.id && e.level == level && e.isTest == isTest && !e.acknowledged
    ensures e.id == clock.now && e.value == Fixed(s.value, 2)
    ensures e.sensorName == s.name && e.zone == s.zone && e.timestamp == clock.timeText
  {
    var plain := EventDescription(s, level);
    DescriptionUnmarked(s, level);
    SimEvent(clock.now, s.id, s.name, s.zone, level, Fixed(s.value, 2), clock.timeText,
             if isTest then TestMarker + plain else plain, isTest, false)
  }

  /** The journal type `saveEventToJournal` files an event under. */
  function JournalType(e: SimEvent): string
  {
    if e.isTest then "test" else if e.level == SuccessLevel then "normal" else LevelKey(e.level)
  }

  /** Test events, and only they, are filed as "test"; "normal" is exactly a non-test
      success; every other event keeps its level key. */
  lemma JournalTypeMapping(e: SimEvent)
    ensures JournalType(e) == "test" <==> e.isTest
    ensures JournalType(e) == "normal" <==> !e.isTest && e.level == SuccessLevel
    ensures !e.isTest && e.level != SuccessLevel ==> JournalType(e) == LevelKey(e.level)
  {
  }

  /** `user.name || 'Система'`. */
  function OperatorName(user: Slot<UserRecord>): string
  {
    match user
    case Stored(UserRecord(Some(name))) => if name == "" then "Система" else name
    case _ => "Система"
  }

  /** `saveEventToJournal`. Unparsable text under either key throws inside the `try`, so
      the journal is left as it was; otherwise the entry is prepended under the
      1000-entry cap, with a missing journal read as empty. */
  function SaveEventToJournal(store: Journal.EventStore, user: Slot<UserRecord>, e: SimEvent, now: int): (r: Journal.EventStore)
    ensures store.Corrupt? || user.Corrupt? ==> r == store
    ensures !store.Corrupt? && !user.Corrupt? ==>
              && r.Stored?
              && |r.value| == Min(|Journal.GetEvents(store)| + 1, Journal.MaxEvents)
              && r.value[1..] == Journal.GetEvents(store)[..|r.value| - 1]
    ensures !store.Corrupt? && !user.Corrupt? ==>
              && r.value[0].id == e.id
              && r.value[0].timestamp == now
              && r.value[0].sensor == e.sensorName
              && r.value[0].zone == ZoneKey(e.zone)
              && r.value[0].eventType == JournalType(e)
              && r.value[0].value == e.value
              && r.value[0].operator == OperatorName(user)
              && r.value[0].description == e.description
              && !r.value[0].acknowledged
              && r.value[0].isTest == e.isTest
  {
    if store.Corrupt? || user.Corrupt? then store
    else
      var entry := Journal.JournalEvent(e.id, now, e.sensorName, ZoneKey(e.zone), JournalType(e), e.value,
                                        OperatorName(user), e.description, false, e.isTest);
      Stored(Lists.PushFront(Journal.GetEvents(store), entry, Journal.MaxEvents))
  }

  /** Whether `createEvent` calls the notification sink: for every real event, and for
      test events only at danger level. */
  predicate Notifies(level: Level, isTest: bool)
  {
    !isTest || level == DangerLevel
  }

  /** `createEvent` (the journal-persisting definition): the new event goes to the front
      of the display buffer, which keeps its newest 100; the event is journaled; and a
      notification is raised when `Notifies` says so. Sensors, active tests and timers are
      untouched. */
  function CreateEvent(sim: Simulator, s: Sensor, level: Level, isTest: bool, clock: Clock): (r: Simulator)
    ensures r.sensors == sim.sensors && r.testSensors == sim.testSensors
    ensures r.timers == sim.timers && r.user == sim.user
    ensures |r.events| == Min(|sim.events| + 1, DisplayCap)
    ensures r.events[0] == MakeEvent(s, level, isTest, clock)
    ensures r.events[1..] == sim.events[..|r.events| - 1]
    ensures r.journal == SaveEventToJournal(sim.journal, sim.user, r.events[0], clock.now)
    ensures Notifies(level, isTest) ==> r.notices == sim.notices + [Notice(r.events[0].description, level)]
    ensures !Notifies(level, isTest) ==> r.notices == sim.notices
  {
    var e := MakeEvent(s, level, isTest, clock);
    sim.(events := Lists.PushFront(sim.events, e, DisplayCap),
         journal := SaveEventToJournal(sim.journal, sim.user, e, clock.now),
         notices := if Notifies(level, isTest) then sim.notices + [Notice(e.description, level)] else sim.notices)
  }

  datatype StartOutcome =
    | Accepted        // returned true
    | UnknownSensor   // returned false
    | ThrewTypeError  // the `normal`/default branch calls `toFixed` on a string

  /** Arms the test on sensor `i` once its reading and status are chosen: event, then timer. */
  function Arm(sim: Simulator, i: nat, armed: Sensor, active: seq<int>, level: Level, sensorId: int, endTime: int, clock: Clock): (r: Simulator)
    requires i < |sim.sensors|
    ensures r.sensors == sim.sensors[i := armed] && r.testSensors == active
    ensures r.timers == sim.timers + [Timer(sensorId, endTime)]
    ensures |r.events| == Min(|sim.events| + 1, DisplayCap)
    ensures r.events[0].isTest && r.events[0].level == level && r.events[0].sensorId == armed.id
    ensures r.events[0] == MakeEvent(armed, level, true, clock)
    ensures r.events[1..] == sim.events[..|r.events| - 1]
    ensures r.user == sim.user
    ensures r.journal == SaveEventToJournal(sim.journal, sim.user, r.events[0], clock.now)
    ensures Notifies(level, true) ==> r.notices == sim.notices + [Notice(r.events[0].description, level)]
    ensures !Notifies(level, true) ==> r.notices == sim.notices
  {
    var logged := CreateEvent(sim.(sensors := sim.sensors[i := armed], testSensors := active), armed, level, true, clock);
    logged.(timers := logged.timers + [Timer(sensorId, endTime)])
  }

  /** The test types `startSensorTest` has a branch for; every other string reaches the
      `normal`/default branch. */
  datatype TestKind = WarningTest | DangerTest | FailureTest | OtherTest

  function ParseTestType(testType: string): (kind: TestKind)
    ensures kind == OtherTest <==> testType !in {"warning", "danger", "failure"}
  {
    if testType == "warning" then WarningTest
    else if testType == "danger" then DangerTest
    else if testType == "failure" then FailureTest
    else OtherTest
  }

  /** The level a test event is raised at: the test type itself. */
  function TestLevel(kind: TestKind): Level
    requires kind != OtherTest
  {
    match kind
    case WarningTest => WarningLevel
    case DangerTest => DangerLevel
    case FailureTest => FailureLevel
  }

  /** The test type flows into the event unchanged: the level's key is the type's name. */
  lemma TestLevelKey(testType: string)
    requires ParseTestType(testType) != OtherTest
    ensures LevelKey(TestLevel(ParseTestType(testType))) == testType
  {
  }

  /** The reading and status a known test type puts on the sensor. */
  function TestReading(s: Sensor, kind: TestKind): (r: Sensor)
    requires kind != OtherTest
    ensures r == s.(value := r.value, status := r.status)
    ensures kind == WarningTest ==> r.value == Round2(s.thresholds.warning * 1.1) && r.status == Warning
    ensures kind == DangerTest ==> r.value == Round2(s.thresholds.danger * 1.2) && r.status == Danger
    ensures kind == FailureTest ==> r.value == 0.0 && r.status == Danger
  {
    match kind
    case WarningTest => s.(value := Round2(s.thresholds.warning * 1.1), status := Warning)
    case DangerTest => s.(value := Round2(s.thresholds.danger * 1.2), status := Danger)
    case FailureTest => s.(value := 0.0, status := Danger)
  }

  /** `startSensorTest` once the sensor at position `i` has been found. The sensor is
      marked as under test with its end time, and its id joins the active set, on every
      branch. The three known types then set the reading and status, log one test event
      at the type's level and schedule the end-of-test timer. Any other type sets the
      status to normal and then throws, so no event and no timer follow. */
  function StartKnown(sim: Simulator, i: nat, kind: TestKind, durationSeconds: int, clock: Clock): (r: (Simulator, StartOutcome))
    requires i < |sim.sensors|
    ensures r.1 == (if kind == OtherTest then ThrewTypeError else Accepted)
    ensures |r.0.sensors| == |sim.sensors|
    ensures forall j :: 0 <= j < |sim.sensors| && j != i ==> r.0.sensors[j] == sim.sensors[j]
    ensures r.0.sensors[i] == sim.sensors[i].(isTesting := true, testEndTime := Some(clock.now + durationSeconds * 1000),
                                              value := r.0.sensors[i].value, status := r.0.sensors[i].status)
    ensures r.0.testSensors == Lists.SetAdd(sim.testSensors, sim.sensors[i].id)
    ensures r.0.user == sim.user
    ensures kind == OtherTest ==>
              && r.0.sensors[i].status == Normal && r.0.sensors[i].value == sim.sensors[i].value
              && r.0.events == sim.events && r.0.timers == sim.timers && r.0.journal == sim.journal
              && r.0.notices == sim.notices
    ensures kind != OtherTest ==>
              r.0.sensors[i] == TestReading(sim.sensors[i].(isTesting := true, testEndTime := Some(clock.now + durationSeconds * 1000)), kind)
    ensures kind != OtherTest ==>
              && |r.0.events| == Min(|sim.events| + 1, DisplayCap)
              && r.0.events[1..] == sim.events[..|r.0.events| - 1]
              && r.0.events[0].isTest && r.0.events[0].level == TestLevel(kind)
              && r.0.events[0].sensorId == sim.sensors[i].id
              && r.0.timers == sim.timers + [Timer(sim.sensors[i].id, clock.now + durationSeconds * 1000)]
    ensures kind != OtherTest ==> r.0.events[0] == MakeEvent(r.0.sensors[i], TestLevel(kind), true, clock)
    ensures kind != OtherTest ==>
              r.0.journal == SaveEventToJournal(sim.journal, sim.user, r.0.events[0], clock.now)
    ensures kind != OtherTest && Notifies(TestLevel(kind), true) ==>
              r.0.notices == sim.notices + [Notice(r.0.events[0].description, TestLevel(kind))]
    ensures kind != OtherTest && !Notifies(TestLevel(kind), true) ==> r.0.notices == sim.notices
  {
    var s := sim.sensors[i];
    var endTime := clock.now + durationSeconds * 1000;
    var marked := s.(isTesting := true, testEndTime := Some(endTime));
    var active := Lists.SetAdd(sim.testSensors, s.id);
    if kind == OtherTest then
      (sim.(sensors := sim.sensors[i := marked.(status := Normal)], testSensors := active), ThrewTypeError)
    else
      var armed := TestReading(marked, kind);
      var a := Arm(sim, i, armed, active, TestLevel(kind), s.id, endTime, clock);
      assert a.sensors[i] == armed && a.events[0] == MakeEvent(armed, TestLevel(kind), true, clock);
      (a, Accepted)
  }

  /** `startSensorTest(sensorId, testType, durationSeconds)`: an unknown id returns false
      and changes nothing; a known one goes through `StartKnown`. */
  function StartSensorTest(sim: Simulator, sensorId: int, testType: string, durationSeconds: int, clock: Clock): (r: (Simulator, StartOutcome))
    ensures FindSensor(sim.sensors, sensorId).None? <==> r.1 == UnknownSensor
    ensures r.1 == UnknownSensor ==> r.0 == sim
    ensures r.1 == Accepted <==> FindSensor(sim.sensors, sensorId).Some? && testType in {"warning", "danger", "failure"}
    ensures FindSensor(sim.sensors, sensorId).Some? ==>
              r == StartKnown(sim, FindSensor(sim.sensors, sensorId).value, ParseTestType(testType), durationSeconds, clock)
  {
    match FindSensor(sim.sensors, sensorId)
    case None => (sim, UnknownSensor)
    case Some(i) => StartKnown(sim, i, ParseTestType(testType), durationSeconds, clock)
  }

  /** In a registry, starting a test on id `k` in 1..24 is `StartKnown` at position `k - 1`. */
  lemma StartOnRegistry(sim: Simulator, sensorId: int, testType: string, durationSeconds: int, clock: Clock)
    requires Registry(sim.sensors)
    requires 1 <= sensorId <= SensorCount
    ensures sim.sensors[sensorId - 1].id == sensorId
    ensures StartSensorTest(sim, sensorId, testType, durationSeconds, clock)
         == StartKnown(sim, sensorId - 1, ParseTestType(testType), durationSeconds, clock)
  {
    FindInRegistry(sim.sensors, sensorId);
  }

  /** `after` is `before` with its test ended: not testing, no end time, status normal and a
      fresh reading from the type's range; nothing else differs. */
  predicate Ended(before: Sensor, after: Sensor)
  {
    && after == before.(isTesting := false, testEndTime := None, status := Normal, value := after.value)
    && TypeRange(before.kind).min <= after.value <= TypeRange(before.kind).max
  }

  /** `endSensorTest` once the sensor at position `i` has been found. The test is ended
      whether or not one is running: the sensor gets a fresh reading from its type's range
      and status normal, its id leaves the active set, and one success test event is
      emitted every time. Timers are not touched. */
  function EndKnown(sim: Simulator, i: nat, clock: Clock, u: Draw): (r: Simulator)
    requires i < |sim.sensors|
    ensures r.timers == sim.timers && r.user == sim.user
    ensures |r.sensors| == |sim.sensors|
    ensures Ended(sim.sensors[i], r.sensors[i])
    ensures forall j :: 0 <= j < |sim.sensors| && j != i ==> r.sensors[j] == sim.sensors[j]
    ensures r.testSensors == Lists.SetDelete(sim.testSensors, sim.sensors[i].id)
    ensures |r.events| == Min(|sim.events| + 1, DisplayCap)
    ensures r.events[1..] == sim.events[..|r.events| - 1]
    ensures r.events[0].level == SuccessLevel && r.events[0].isTest && r.events[0].sensorId == sim.sensors[i].id
    ensures r.events[0] == MakeEvent(r.sensors[i], SuccessLevel, true, clock)
    ensures r.journal == SaveEventToJournal(sim.journal, sim.user, r.events[0], clock.now)
    ensures r.notices == sim.notices
  {
    var s := sim.sensors[i];
    var ended := s.(isTesting := false, testEndTime := None, status := Normal, value := InitialValue(s.kind, u));
    var cleared := sim.(sensors := sim.sensors[i := ended], testSensors := Lists.SetDelete(sim.testSensors, s.id));
    CreateEvent(cleared, ended, SuccessLevel, true, clock)
  }

  /** `endSensorTest(sensorId)`: an unknown id changes nothing; a known one goes through
      `EndKnown`. */
  function EndSensorTest(sim: Simulator, sensorId: int, clock: Clock, u: Draw): (r: Simulator)
    ensures FindSensor(sim.sensors, sensorId).None? ==> r == sim
    ensures FindSensor(sim.sensors, sensorId).Some? ==> r == EndKnown(sim, FindSensor(sim.sensors, sensorId).value, clock, u)
  {
    match FindSensor(sim.sensors, sensorId)
    case None => sim
    case Some(i) => EndKnown(sim, i, clock, u)
  }

  /** In a registry, ending the test of id `k` in 1..24 is `EndKnown` at position `k - 1`,
      and an id outside 1..24 changes nothing. */
  lemma EndOnRegistry(sim: Simulator, sensorId: int, clock: Clock, u: Draw)
    requires Registry(sim.sensors)
    ensures 1 <= sensorId <= SensorCount ==> sim.sensors[sensorId - 1].id == sensorId
    ensures 1 <= sensorId <= SensorCount ==> EndSensorTest(sim, sensorId, clock, u) == EndKnown(sim, sensorId - 1, clock, u)
    ensures !(1 <= sensorId <= SensorCount) ==> EndSensorTest(sim, sensorId, clock, u) == sim
  {
    FindInRegistry(sim.sensors, sensorId);
  }

  /** The sensor's test end time has been reached. */
  predicate Due(s: Sensor, now: int)
  {
    s.testEndTime.Some? && now >= s.testEndTime.value
  }

  /** `sensor && sensor.testEndTime && now >= sensor.testEndTime` for the id. */
  predicate DueId(sensors: seq<Sensor>, id: int, now: int)
  {
    match FindSensor(sensors, id)
    case Some(i) => Due(sensors[i], now)
    case None => false
  }

  /** The `forEach` of `checkManualTests` over the active-test ids in insertion order; the
      sensor ended during a visit is the only one deleted, so visiting a snapshot of the
      ids is the same. Each ended sensor consumes one draw. */
  function Sweep(sim: Simulator, ids: seq<int>, draws: seq<Draw>, clock: Clock): (r: Simulator)
    requires |draws| == |ids|
    ensures r.timers == sim.timers && r.user == sim.user
    ensures |r.sensors| == |sim.sensors|
    ensures forall j :: 0 <= j < |sim.sensors| ==> r.sensors[j].id == sim.sensors[j].id && r.sensors[j].kind == sim.sensors[j].kind
    ensures Lists.NoDup(sim.testSensors) ==> Lists.NoDup(r.testSensors)
    ensures forall x :: x in r.testSensors ==> x in sim.testSensors
    ensures |sim.events| <= DisplayCap ==> |r.events| <= DisplayCap
    decreases |ids|
  {
    if |ids| == 0 then sim
    else
      var next := if DueId(sim.sensors, ids[0], clock.now) then EndSensorTest(sim, ids[0], clock, draws[0]) else sim;
      Sweep(next, ids[1..], draws[1..], clock)
  }

  /** `checkManualTests`: one draw per active test. */
  function CheckManualTests(sim: Simulator, clock: Clock, draws: seq<Draw>): Simulator
    requires |draws| == |sim.testSensors|
  {
    Sweep(sim, sim.testSensors, draws, clock)
  }

  /** Ending a test in a registry keeps it a registry and touches that one sensor and
      that one id. */
  lemma EndInRegistry(sim: Simulator, id: int, clock: Clock, u: Draw)
    requires Registry(sim.sensors)
    requires 1 <= id <= SensorCount
    ensures var next := EndSensorTest(sim, id, clock, u);
            && Registry(next.sensors)
            && Ended(sim.sensors[id - 1], next.sensors[id - 1])
            && (forall j :: 0 <= j < |sim.sensors| && j != id - 1 ==> next.sensors[j] == sim.sensors[j])
            && (forall x :: x in next.testSensors <==> x in sim.testSensors && x != id)
  {
    EndOnRegistry(sim, id, clock, u);
    var next := EndKnown(sim, id - 1, clock, u);
    forall j | 0 <= j < |next.sensors|
      ensures next.sensors[j].id == j + 1
      ensures next.sensors[j].thresholds == TypeThresholds(next.sensors[j].kind)
    {
      if j != id - 1 {
        assert next.sensors[j] == sim.sensors[j];
      }
    }
  }

  lemma DueIdSameSensor(a: seq<Sensor>, b: seq<Sensor>, x: int, now: int)
    requires Registry(a) && Registry(b)
    requires 1 <= x <= SensorCount ==> a[x - 1] == b[x - 1]
    ensures DueId(a, x, now) == DueId(b, x, now)
  {
    FindInRegistry(a, x);
    FindInRegistry(b, x);
  }

  /** The sweep ends exactly the listed sensors whose end time has come and leaves every
      other sensor as it was. */
  lemma {:induction false} SweepSensors(sim: Simulator, ids: seq<int>, draws: seq<Draw>, clock: Clock)
    requires |draws| == |ids|
    requires Registry(sim.sensors)
    requires Lists.NoDup(ids)
    ensures var r := Sweep(sim, ids, draws, clock);
            && Registry(r.sensors)
            && (forall j :: 0 <= j < |sim.sensors| && sim.sensors[j].id in ids && Due(sim.sensors[j], clock.now) ==>
                  Ended(sim.sensors[j], r.sensors[j]))
            && (forall j :: 0 <= j < |sim.sensors| && !(sim.sensors[j].id in ids && Due(sim.sensors[j], clock.now)) ==>
                  r.sensors[j] == sim.sensors[j])
    decreases |ids|
  {
    if |ids| > 0 {
      var id := ids[0];
      var rest := ids[1..];
      assert Lists.NoDup(rest);
      assert id !in rest;
      FindInRegistry(sim.sensors, id);
      if DueId(sim.sensors, id, clock.now) {
        var next := EndSensorTest(sim, id, clock, draws[0]);
        EndInRegistry(sim, id, clock, draws[0]);
        SweepSensors(next, rest, draws[1..], clock);
        var r := Sweep(next, rest, draws[1..], clock);
        assert Sweep(sim, ids, draws, clock) == r;
        forall j | 0 <= j < |sim.sensors|
          ensures sim.sensors[j].id in ids && Due(sim.sensors[j], clock.now) ==> Ended(sim.sensors[j], r.sensors[j])
          ensures !(sim.sensors[j].id in ids && Due(sim.sensors[j], clock.now)) ==> r.sensors[j] == sim.sensors[j]
        {
          if j == id - 1 {
            assert next.sensors[j].id == id;
          } else {
            assert next.sensors[j] == sim.sensors[j];
          }
        }
      } else {
        SweepSensors(sim, rest, draws[1..], clock);
      }
    }
  }

  /** The sweep removes from the active-test set exactly the listed ids that were due. */
  lemma {:induction false} SweepActive(sim: Simulator, ids: seq<int>, draws: seq<Draw>, clock: Clock)
    requires |draws| == |ids|
    requires Registry(sim.sensors)
    requires Lists.NoDup(ids)
    ensures forall x :: x in Sweep(sim, ids, draws, clock).testSensors <==>
              x in sim.testSensors && !(x in ids && DueId(sim.sensors, x, clock.now))
    decreases |ids|
  {
    if |ids| > 0 {
      var id := ids[0];
      var rest := ids[1..];
      assert Lists.NoDup(rest);
      if DueId(sim.sensors, id, clock.now) {
        FindInRegistry(sim.sensors, id);
        var next := EndSensorTest(sim, id, clock, draws[0]);
        EndInRegistry(sim, id, clock, draws[0]);
        SweepActive(next, rest, draws[1..], clock);
        forall x | x != id
          ensures DueId(next.sensors, x, clock.now) == DueId(sim.sensors, x, clock.now)
        {
          DueIdSameSensor(next.sensors, sim.sensors, x, clock.now);
        }
      } else {
        SweepActive(sim, rest, draws[1..], clock);
      }
    }
  }

  /** `checkManualTests` ends exactly the sensors under test whose end time has come,
      leaves every other sensor (and every other test) as it was, and keeps the
      simulator's invariant. */
  lemma CheckEndsExactlyDue(sim: Simulator, clock: Clock, draws: seq<Draw>)
    requires Valid(sim)
    requires |draws| == |sim.testSensors|
    ensures var r := CheckManualTests(sim, clock, draws);
            && Valid(r)
            && (forall j :: 0 <= j < |sim.sensors| && sim.sensors[j].isTesting && Due(sim.sensors[j], clock.now) ==>
                  Ended(sim.sensors[j], r.sensors[j]))
            && (forall j :: 0 <= j < |sim.sensors| && !(sim.sensors[j].isTesting && Due(sim.sensors[j], clock.now)) ==>
                  r.sensors[j] == sim.sensors[j])
  {
    var r := CheckManualTests(sim, clock, draws);
    SweepSensors(sim, sim.testSensors, draws, clock);
    SweepActive(sim, sim.testSensors, draws, clock);
    forall j | 0 <= j < |r.sensors|
      ensures r.sensors[j].isTesting <==> r.sensors[j].id in r.testSensors
      ensures r.sensors[j].isTesting <==> r.sensors[j].testEndTime.Some?
    {
      FindInRegistry(sim.sensors, sim.sensors[j].id);
    }
  }

  /** A pending end-of-test timer fires: it leaves the timer list and calls
      `endSensorTest` for its sensor, whether or not that test is still running. */
  function FireTimer(sim: Simulator, k: nat, clock: Clock, u: Draw): (r: Simulator)
    requires k < |sim.timers|
    ensures r.timers == sim.timers[..k] + sim.timers[k + 1..]
    ensures |r.sensors| == |sim.sensors|
    ensures FindSensor(sim.sensors, sim.timers[k].sensorId).None? ==> r == sim.(timers := sim.timers[..k] + sim.timers[k + 1..])
    ensures FindSensor(sim.sensors, sim.timers[k].sensorId).Some? ==>
              && |r.events| == Min(|sim.events| + 1, DisplayCap)
              && r.events[0].level == SuccessLevel && r.events[0].isTest
              && r.events[0].sensorId == sim.timers[k].sensorId
    ensures FindSensor(sim.sensors, sim.timers[k].sensorId).Some? ==>
              var i := FindSensor(sim.sensors, sim.timers[k].sensorId).value;
              && Ended(sim.sensors[i], r.sensors[i])
              && r.testSensors == Lists.SetDelete(sim.testSensors, sim.timers[k].sensorId)
              && r.journal == SaveEventToJournal(sim.journal, sim.user, r.events[0], clock.now)
              && r == EndKnown(sim.(timers := sim.timers[..k] + sim.timers[k + 1..]), i, clock, u)
  {
    EndSensorTest(sim.(timers := sim.timers[..k] + sim.timers[k + 1..]), sim.timers[k].sensorId, clock, u)
  }

  /** One period of the simulation interval: the drift tick, then the sweep, on one clock. */
  function SimulationTick(sim: Simulator, drift: seq<DriftDraws>, sweep: seq<Draw>, clock: Clock): Simulator
    requires |drift| == |sim.sensors|
    requires |sweep| == |sim.testSensors|
  {
    CheckManualTests(sim.(sensors := UpdateSensors(sim.sensors, drift, clock.now)), clock, sweep)
  }

  lemma UpdatePreservesValid(sim: Simulator, drift: seq<DriftDraws>, now: int)
    requires Valid(sim)
    requires |drift| == |sim.sensors|
    ensures Valid(sim.(sensors := UpdateSensors(sim.sensors, drift, now)))
  {
  }

  /** A full interval period keeps the invariant. */
  lemma TickPreservesValid(sim: Simulator, drift: seq<DriftDraws>, sweep: seq<Draw>, clock: Clock)
    requires Valid(sim)
    requires |drift| == |sim.sensors|
    requires |sweep| == |sim.testSensors|
    ensures Valid(SimulationTick(sim, drift, sweep, clock))
  {
    var drifted := sim.(sensors := UpdateSensors(sim.sensors, drift, clock.now));
    UpdatePreservesValid(sim, drift, clock.now);
    CheckEndsExactlyDue(drifted, clock, sweep);
  }

  /** Arming a test on a registry sensor keeps the invariant, on the thrown branch too. */
  lemma StartKnownValid(sim: Simulator, i: nat, kind: TestKind, durationSeconds: int, clock: Clock)
    requires Valid(sim)
    requires i < |sim.sensors|
    ensures Valid(StartKnown(sim, i, kind, durationSeconds, clock).0)
  {
    var r := StartKnown(sim, i, kind, durationSeconds, clock).0;
    forall j | 0 <= j < |r.sensors|
      ensures r.sensors[j].id == j + 1
      ensures r.sensors[j].thresholds == TypeThresholds(r.sensors[j].kind)
      ensures r.sensors[j].isTesting <==> r.sensors[j].id in r.testSensors
      ensures r.sensors[j].isTesting <==> r.sensors[j].testEndTime.Some?
    {
      if j != i {
        assert r.sensors[j] == sim.sensors[j];
      }
    }
  }

  /** `startSensorTest` keeps the invariant on every outcome, including the thrown one. */
  lemma StartPreservesValid(sim: Simulator, sensorId: int, testType: string, durationSeconds: int, clock: Clock)
    requires Valid(sim)
    ensures Valid(StartSensorTest(sim, sensorId, testType, durationSeconds, clock).0)
  {
    FindInRegistry(sim.sensors, sensorId);
    if 1 <= sensorId <= SensorCount {
      StartKnownValid(sim, sensorId - 1, ParseTestType(testType), durationSeconds, clock);
    }
  }

  /** `endSensorTest` keeps the invariant. */
  lemma EndPreservesValid(sim: Simulator, sensorId: int, clock: Clock, u: Draw)
    requires Valid(sim)
    ensures Valid(EndSensorTest(sim, sensorId, clock, u))
  {
    EndOnRegistry(sim, sensorId, clock, u);
    if 1 <= sensorId <= SensorCount {
      var r := EndSensorTest(sim, sensorId, clock, u);
      EndInRegistry(sim, sensorId, clock, u);
      forall j | 0 <= j < |r.sensors|
        ensures r.sensors[j].isTesting <==> r.sensors[j].id in r.testSensors
        ensures r.sensors[j].isTesting <==> r.sensors[j].testEndTime.Some?
      {
        if j != sensorId - 1 {
          assert r.sensors[j] == sim.sensors[j];
        }
      }
    }
  }

  /** A timer firing keeps the invariant. */
  lemma FireTimerPreservesValid(sim: Simulator, k: nat, clock: Clock, u: Draw)
    requires Valid(sim)
    requires k < |sim.timers|
    ensures Valid(FireTimer(sim, k, clock, u))
  {
    EndPreservesValid(sim.(timers := sim.timers[..k] + sim.timers[k + 1..]), sim.timers[k].sensorId, clock, u);
  }

  /** Ending the same test twice is not a no-op: the second call emits a second success
      event, and the sensor stays ended. */
  lemma EndTwiceEmitsTwice(sim: Simulator, sensorId: int, c1: Clock, u1: Draw, c2: Clock, u2: Draw)
    requires Valid(sim)
    requires 1 <= sensorId <= SensorCount
    ensures var once := EndSensorTest(sim, sensorId, c1, u1);
            var twice := EndSensorTest(once, sensorId, c2, u2);
            && |twice.events| == Min(|sim.events| + 2, DisplayCap)
            && twice.events[0].level == SuccessLevel && twice.events[0].sensorId == sensorId
            && twice.events[1].level == SuccessLevel && twice.events[1].sensorId == sensorId
            && !twice.sensors[sensorId - 1].isTesting
            && sensorId !in twice.testSensors
  {
    var i := sensorId - 1;
    EndOnRegistry(sim, sensorId, c1, u1);
    EndInRegistry(sim, sensorId, c1, u1);
    var once := EndKnown(sim, i, c1, u1);
    EndOnRegistry(once, sensorId, c2, u2);
    var twice := EndKnown(once, i, c2, u2);
    assert twice.events[1] == once.events[0];
  }

  /** A journal entry filed for display event `e`: its type, sensor name and description. */
  predicate Filed(entry: Journal.JournalEvent, e: SimEvent)
  {
    entry.eventType == JournalType(e) && entry.sensor == e.sensorName && entry.description == e.description
  }

  /** Two events saved one after the other onto readable storage both land in the
      journal, the later one first. */
  lemma SaveTwice(store: Journal.EventStore, user: Slot<UserRecord>, e1: SimEvent, n1: int, e2: SimEvent, n2: int)
    requires !store.Corrupt? && !user.Corrupt?
    ensures var journal := Journal.GetEvents(SaveEventToJournal(SaveEventToJournal(store, user, e1, n1), user, e2, n2));
            && |journal| == Min(|Journal.GetEvents(store)| + 2, Journal.MaxEvents)
            && Filed(journal[0], e2) && Filed(journal[1], e1)
  {
    var once := SaveEventToJournal(store, user, e1, n1);
    var twice := SaveEventToJournal(once, user, e2, n2);
    assert twice.value[1] == once.value[0];
  }

  /** Both success events of a doubly ended test reach the persisted journal when its
      storage is readable: the journal grows by two test entries for the sensor, newest
      first, carrying the two descriptions the display buffer shows. */
  lemma EndTwiceJournalsTwice(sim: Simulator, sensorId: int, c1: Clock, u1: Draw, c2: Clock, u2: Draw)
    requires Valid(sim)
    requires 1 <= sensorId <= SensorCount
    requires !sim.journal.Corrupt? && !sim.user.Corrupt?
    ensures var once := EndSensorTest(sim, sensorId, c1, u1);
            var twice := EndSensorTest(once, sensorId, c2, u2);
            var journal := Journal.GetEvents(twice.journal);
            && |journal| == Min(|Journal.GetEvents(sim.journal)| + 2, Journal.MaxEvents)
            && |twice.events| >= 2
            && Filed(journal[0], twice.events[0]) && Filed(journal[1], twice.events[1])
            && journal[0].eventType == "test" && journal[1].eventType == "test"
  {
    var i := sensorId - 1;
    EndOnRegistry(sim, sensorId, c1, u1);
    EndInRegistry(sim, sensorId, c1, u1);
    var once := EndKnown(sim, i, c1, u1);
    EndOnRegistry(once, sensorId, c2, u2);
    var twice := EndKnown(once, i, c2, u2);
    assert twice.events[1] == once.events[0];
    SaveTwice(sim.journal, sim.user, once.events[0], c1.now, twice.events[0], c2.now);
  }

  /** The sweep does not cancel the timer `startSensorTest` scheduled: when a test has been
      ended by `checkManualTests`, its timer still fires later and emits another success
      event for the same sensor. */
  lemma TimerFiresAfterSweep(sim: Simulator, clock: Clock, draws: seq<Draw>, k: nat, later: Clock, u: Draw)
    requires Valid(sim)
    requires |draws| == |sim.testSensors|
    requires k < |sim.timers|
    requires 1 <= sim.timers[k].sensorId <= SensorCount
    requires sim.sensors[sim.timers[k].sensorId - 1].isTesting
    requires Due(sim.sensors[sim.timers[k].sensorId - 1], clock.now)
    ensures var swept := CheckManualTests(sim, clock, draws);
            var fired := FireTimer(swept, k, later, u);
            && !swept.sensors[sim.timers[k].sensorId - 1].isTesting
            && swept.timers == sim.timers
            && fired.events[0].level == SuccessLevel
            && fired.events[0].sensorId == sim.timers[k].sensorId
            && |fired.events| == Min(|swept.events| + 1, DisplayCap)
  {
    var swept := CheckManualTests(sim, clock, draws);
    CheckEndsExactlyDue(sim, clock, draws);
    FindInRegistry(swept.sensors, sim.timers[k].sensorId);
  }

  /** The test readings are exact: every table threshold times 1.1 or 1.2 already has two
      decimals, so `toFixed(2)` changes nothing (a danger test on a vibration sensor,
      threshold 25, reads 30.00). */
  lemma TestReadingsExact(t: SensorType)
    ensures Round2(TypeThresholds(t).warning * 1.1) == TypeThresholds(t).warning * 1.1
    ensures Round2(TypeThresholds(t).danger * 1.2) == TypeThresholds(t).danger * 1.2
    ensures TypeThresholds(Vibration).danger * 1.2 == 30.0
  {
    var th := TypeThresholds(t);
    assert Hundredths(th.warning * 1.1) && Hundredths(th.danger * 1.2) by {
      match t
      case Pressure =>
      case Leak =>
      case Temperature =>
      case Vibration =>
      case Level =>
    }
    RoundKeepsHundredths(th.warning * 1.1);
    RoundKeepsHundredths(th.danger * 1.2);
  }

  /** A warning or danger test puts the exact reading its type calls for on a sensor that
      carries its type's table thresholds: warning threshold × 1.1 or danger threshold × 1.2,
      with nothing lost to `toFixed(2)`. */
  lemma StartSetsReading(s: Sensor, kind: TestKind)
    requires s.thresholds == TypeThresholds(s.kind)
    requires kind == WarningTest || kind == DangerTest
    ensures kind == WarningTest ==> TestReading(s, kind).value == TypeThresholds(s.kind).warning * 1.1
    ensures kind == DangerTest ==> TestReading(s, kind).value == TypeThresholds(s.kind).danger * 1.2
  {
    TestReadingsExact(s.kind);
  }

  /** A danger test on a vibration sensor with its table thresholds puts 30.00 on the
      sensor and shows it in a marked danger event: 25 × 1.2, with nothing lost to
      `toFixed(2)`. */
  lemma DangerTestOnVibration(sim: Simulator, i: nat, durationSeconds: int, clock: Clock)
    requires i < |sim.sensors|
    requires sim.sensors[i].kind == Vibration && sim.sensors[i].thresholds == TypeThresholds(Vibration)
    ensures var r := StartKnown(sim, i, DangerTest, durationSeconds, clock).0;
            && r.sensors[i].value == 30.0 && r.sensors[i].status == Danger
            && r.events[0].value == "30.00" && r.events[0].level == DangerLevel
            && TestMarker <= r.events[0].description
  {
    var marked := sim.sensors[i].(isTesting := true, testEndTime := Some(clock.now + durationSeconds * 1000));
    var r := StartKnown(sim, i, DangerTest, durationSeconds, clock).0;
    StartSetsReading(marked, DangerTest);
    var s := r.sensors[i];
    assert s == TestReading(marked, DangerTest);
    assert s.value == 30.0 && s.status == Danger;
    var e := r.events[0];
    assert e == MakeEvent(s, DangerLevel, true, clock);
    Decimal.FixedThirty();
  }

  /** Starting a test on a sensor already under test does not list its id twice: after two
      starts the id is in the active set exactly once. */
  lemma RestartActiveOnce(sim: Simulator, i: nat, k1: TestKind, d1: int, c1: Clock, k2: TestKind, d2: int, c2: Clock)
    requires i < |sim.sensors|
    requires Lists.NoDup(sim.testSensors)
    ensures var first := StartKnown(sim, i, k1, d1, c1).0;
            var second := StartKnown(first, i, k2, d2, c2).0;
            Lists.Count(second.testSensors, (x: int) => x == sim.sensors[i].id) == 1
  {
    var id := sim.sensors[i].id;
    var first := StartKnown(sim, i, k1, d1, c1).0;
    AddTwiceOnce(sim.testSensors, id, first.sensors[i].id);
  }

  /** Adding the same id twice to a duplicate-free active set leaves it there once. */
  lemma AddTwiceOnce(xs: seq<int>, id: int, id2: int)
    requires Lists.NoDup(xs) && id2 == id
    ensures Lists.Count(Lists.SetAdd(Lists.SetAdd(xs, id), id2), (x: int) => x == id) == 1
  {
    OccursOnce(Lists.SetAdd(Lists.SetAdd(xs, id), id2), id);
  }

  lemma {:induction false} OccursOnce(xs: seq<int>, x: int)
    requires Lists.NoDup(xs) && x in xs
    ensures Lists.Count(xs, (y: int) => y == x) == 1
    decreases |xs|
  {
    var n := |xs| - 1;
    assert Lists.NoDup(xs[..n]);
    if xs[n] == x {
      assert x !in xs[..n];
      Lists.CountPositiveIffExists(xs[..n], (y: int) => y == x);
    } else {
      assert x in xs[..n] by {
        var i :| 0 <= i < |xs| && xs[i] == x;
        assert xs[..n][i] == x;
      }
      OccursOnce(xs[..n], x);
    }
  }

  predicate IsAlarmed(s: Sensor)
  {
    s.status == Danger
  }

  /** The alarm part of one chart point. */
  datatype ChartBucket = ChartBucket(alerts: nat, isAnomaly: bool)

  /** `getChartData` (alarm fields only): 24 hourly points, each carrying the current number
      of sensors in danger and flagged as an anomaly exactly when some sensor is in danger. */
  function GetChartData(sensors: seq<Sensor>): (data: seq<ChartBucket>)
    ensures |data| == 24
    ensures forall k :: 0 <= k < |data| ==> data[k].alerts == |set j | 0 <= j < |sensors| && sensors[j].status == Danger|
    ensures forall k :: 0 <= k < |data| ==> (data[k].isAnomaly <==> exists j :: 0 <= j < |sensors| && sensors[j].status == Danger)
  {
    var alarmed := Lists.Count(sensors, IsAlarmed);
    Lists.CountPositiveIffExists(sensors, IsAlarmed);
    Lists.CountIsIndexSet(sensors, IsAlarmed);
    assert Lists.IndicesWhere(sensors, IsAlarmed) == set j | 0 <= j < |sensors| && sensors[j].status == Danger;
    seq(24, k => ChartBucket(alarmed, alarmed > 0))
  }
}
