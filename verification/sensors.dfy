/** The sensor registry of `DataSimulator`: 24 sensors, the fixed per-type tables, the
    initial draw of zone, type and reading, and the natural-drift tick. */
module Sensors {
  import opened Basics
  import opened Decimal
  import Text
  import Lists

  const SensorCount: nat := 24

  datatype SensorType = Pressure | Leak | Temperature | Vibration | Level
  datatype Zone = A1 | A2 | B1 | B2 | C1 | C2 | D1 | D2
  datatype Status = Normal | Warning | Danger

  datatype Thresholds = Thresholds(warning: real, danger: real)
  datatype Range = Range(min: real, max: real)

  /** A sensor record. `value` is the reading the source keeps as `toFixed(2)` text, held
      here as the exact number that text denotes; times are milliseconds. */
  datatype Sensor = Sensor(
    id: int,
    name: string,
    zone: Zone,
    kind: SensorType,
    value: real,
    status: Status,
    lastUpdate: int,
    thresholds: Thresholds,
    isTesting: bool,
    testEndTime: Option<int>)

  /** The zone and type lists the random picks index into, in source order. */
  const Zones: seq<Zone> := [A1, A2, B1, B2, C1, C2, D1, D2]
  const Types: seq<SensorType> := [Pressure, Leak, Temperature, Vibration, Level]

  function TypeKey(t: SensorType): string
  {
    match t
    case Pressure => "pressure"
    case Leak => "leak"
    case Temperature => "temperature"
    case Vibration => "vibration"
    case Level => "level"
  }

  function ZoneKey(z: Zone): string
  {
    match z
    case A1 => "A1"
    case A2 => "A2"
    case B1 => "B1"
    case B2 => "B2"
    case C1 => "C1"
    case C2 => "C2"
    case D1 => "D1"
    case D2 => "D2"
  }

  /** The type a `type` string names, if any. */
  function ParseType(key: string): (t: Option<SensorType>)
    ensures t.Some? ==> TypeKey(t.value) == key
    ensures t.None? ==> forall k :: TypeKey(k) != key
  {
    if key == "pressure" then Some(Pressure)
    else if key == "leak" then Some(Leak)
    else if key == "temperature" then Some(Temperature)
    else if key == "vibration" then Some(Vibration)
    else if key == "level" then Some(Level)
    else None
  }

  /** The threshold table, one entry per type. */
  function TypeThresholds(t: SensorType): Thresholds
  {
    match t
    case Pressure => Thresholds(3.8, 4.5)
    case Leak => Thresholds(0.8, 1.5)
    case Temperature => Thresholds(40.0, 55.0)
    case Vibration => Thresholds(15.0, 25.0)
    case Level => Thresholds(30.0, 20.0)
  }

  /** `getThresholds`: the table entry for the key, the pressure entry for any other key. */
  function ThresholdsFor(key: string): Thresholds
  {
    match ParseType(key)
    case Some(t) => TypeThresholds(t)
    case None => TypeThresholds(Pressure)
  }

  /** Reading the key of a type back gives that type. */
  lemma ParseTypeKey(t: SensorType)
    ensures ParseType(TypeKey(t)) == Some(t)
  {
  }

  /** The table is fixed per type: every type but `level` alarms above its thresholds
      (warning below danger), while `level` alarms on low readings (danger 20 below
      warning 30); unknown keys get the pressure pair. */
  lemma ThresholdsShape(key: string)
    ensures ThresholdsFor(key).danger > 0.0 && ThresholdsFor(key).warning > 0.0
    ensures key == "level" ==> ThresholdsFor(key) == Thresholds(30.0, 20.0)
    ensures key != "level" ==> ThresholdsFor(key).warning < ThresholdsFor(key).danger
    ensures (forall t :: key != TypeKey(t)) ==> ThresholdsFor(key) == ThresholdsFor("pressure")
    ensures forall t :: ThresholdsFor(TypeKey(t)) == TypeThresholds(t)
  {
    forall t ensures ThresholdsFor(TypeKey(t)) == TypeThresholds(t) {
      ParseTypeKey(t);
    }
  }

  /** The ranges `getInitialValue` draws from, one per type. */
  function TypeRange(t: SensorType): Range
  {
    match t
    case Pressure => Range(2.5, 3.5)
    case Leak => Range(0.0, 0.5)
    case Temperature => Range(20.0, 30.0)
    case Vibration => Range(0.0, 10.0)
    case Level => Range(50.0, 100.0)
  }

  /** Every type's draw `u * (max - min) + min` lies in its range, whose ends have two decimals. */
  lemma SampleWithin(t: SensorType, u: Draw)
    ensures 0.0 <= TypeRange(t).min <= TypeRange(t).max
    ensures Hundredths(TypeRange(t).min) && Hundredths(TypeRange(t).max)
    ensures TypeRange(t).min <= u * (TypeRange(t).max - TypeRange(t).min) + TypeRange(t).min <= TypeRange(t).max
  {
    match t
    case Pressure =>
    case Leak =>
    case Temperature =>
    case Vibration =>
    case Level =>
  }

  /** `getInitialValue(type)`: a uniform draw over the type's range, rounded to hundredths. */
  function InitialValue(t: SensorType, u: Draw): (v: real)
    ensures TypeRange(t).min <= v <= TypeRange(t).max
    ensures Hundredths(v)
  {
    var range := TypeRange(t);
    var x := u * (range.max - range.min) + range.min;
    SampleWithin(t, u);
    RoundWithin(x, range.min, range.max);
    Round2(x)
  }

  /** `Math.floor(Math.random() * n)`: a valid index into a list of `n` elements. */
  function PickIndex(u: Draw, n: nat): (i: nat)
    requires n > 0
    ensures i < n
  {
    assert u * (n as real) < n as real;
    (u * (n as real)).Floor
  }

  /** `'Датчик СОР-' + id.toString().padStart(3, '0')`. */
  function SensorName(id: nat): string
  {
    "Датчик СОР-" + Text.PadLeft(Text.NatText(id), 3, '0')
  }

  /** The three `Math.random()` results one sensor consumes at start-up: zone, type, reading. */
  datatype InitDraws = InitDraws(zone: Draw, kind: Draw, value: Draw)

  function NewSensor(id: nat, d: InitDraws, now: int): Sensor
  {
    var kind := Types[PickIndex(d.kind, |Types|)];
    Sensor(id, SensorName(id), Zones[PickIndex(d.zone, |Zones|)], kind, InitialValue(kind, d.value),
           Normal, now, TypeThresholds(kind), false, None)
  }

  /** Fresh registry invariant: ids 1..24 at positions 0..23, thresholds from the table. */
  predicate Registry(sensors: seq<Sensor>)
  {
    && |sensors| == SensorCount
    && (forall i :: 0 <= i < |sensors| ==> sensors[i].id == i + 1)
    && (forall i :: 0 <= i < |sensors| ==> sensors[i].thresholds == TypeThresholds(sensors[i].kind))
  }

  /** `initSensors`: exactly 24 sensors with ids 1..24 in order, all normal and not under
      test, with the table thresholds of their type and a reading inside its range. */
  function InitSensors(draws: seq<InitDraws>, now: int): (sensors: seq<Sensor>)
    requires |draws| == SensorCount
    ensures Registry(sensors)
    ensures forall i :: 0 <= i < |sensors| ==>
              && sensors[i].name == SensorName(i + 1)
              && sensors[i].status == Normal
              && !sensors[i].isTesting
              && sensors[i].testEndTime == None
              && sensors[i].lastUpdate == now
              && TypeRange(sensors[i].kind).min <= sensors[i].value <= TypeRange(sensors[i].kind).max
  {
    seq(SensorCount, i requires 0 <= i < SensorCount => NewSensor(i + 1, draws[i], now))
  }

  /** The interval the drift tick keeps an idle sensor in: 80 % of the lowest to 120 % of
      the highest reading `getInitialValue` can return for the type. */
  function DriftBand(t: SensorType): Range
  {
    var range := TypeRange(t);
    Range(0.8 * range.min, 1.2 * range.max)
  }

  lemma DriftBandHundredths(t: SensorType)
    ensures 0.0 <= DriftBand(t).min <= DriftBand(t).max
    ensures Hundredths(DriftBand(t).min) && Hundredths(DriftBand(t).max)
  {
    match t
    case Pressure => assert DriftBand(t) == Range(2.0, 4.2);
    case Leak => assert DriftBand(t) == Range(0.0, 0.6);
    case Temperature => assert DriftBand(t) == Range(16.0, 36.0);
    case Vibration => assert DriftBand(t) == Range(0.0, 12.0);
    case Level => assert DriftBand(t) == Range(40.0, 120.0);
  }

  /** The two `Math.random()` results one idle sensor consumes per tick: the perturbation
      and the fresh base reading of the clamp. */
  datatype DriftDraws = DriftDraws(change: Draw, base: Draw)

  /** One sensor's share of `updateSensors`. A sensor under test is returned untouched;
      any other gets a reading inside its type's drift band, status normal and the tick
      time, and nothing else changes. */
  function Drift(s: Sensor, d: DriftDraws, now: int): (r: Sensor)
    ensures s.isTesting ==> r == s
    ensures !s.isTesting ==> r == s.(value := r.value, status := Normal, lastUpdate := now)
    ensures !s.isTesting ==> DriftBand(s.kind).min <= r.value <= DriftBand(s.kind).max
  {
    if s.isTesting then s
    else
      var change := (d.change - 0.5) * 0.05;
      var newValue := s.value + change;
      var base := InitialValue(s.kind, d.base);
      var clamped := MaxReal(base * 0.8, MinReal(base * 1.2, newValue));
      SampleWithin(s.kind, d.base);
      DriftBandHundredths(s.kind);
      RoundWithin(clamped, DriftBand(s.kind).min, DriftBand(s.kind).max);
      s.(value := Round2(clamped), status := Normal, lastUpdate := now)
  }

  /** `updateSensors`: one drift step for every sensor, with one pair of draws per position. */
  function UpdateSensors(sensors: seq<Sensor>, draws: seq<DriftDraws>, now: int): (r: seq<Sensor>)
    requires |draws| == |sensors|
    ensures |r| == |sensors|
    ensures forall i :: 0 <= i < |r| && sensors[i].isTesting ==> r[i] == sensors[i]
    ensures forall i :: 0 <= i < |r| && !sensors[i].isTesting ==>
              && r[i] == sensors[i].(value := r[i].value, status := Normal, lastUpdate := now)
              && DriftBand(sensors[i].kind).min <= r[i].value <= DriftBand(sensors[i].kind).max
  {
    seq(|sensors|, i requires 0 <= i < |sensors| => Drift(sensors[i], draws[i], now))
  }

  /** The read-only projection `getSensorList` hands to the UI. */
  datatype SensorInfo = SensorInfo(id: int, name: string, zone: Zone, kind: SensorType)

  /** `getSensorList`: one entry per sensor, in registry order, carrying its id, name,
      zone and type. */
  function GetSensorList(sensors: seq<Sensor>): (list: seq<SensorInfo>)
    ensures |list| == |sensors|
    ensures forall i :: 0 <= i < |list| ==>
              list[i] == SensorInfo(sensors[i].id, sensors[i].name, sensors[i].zone, sensors[i].kind)
  {
    seq(|sensors|, i requires 0 <= i < |sensors| => SensorInfo(sensors[i].id, sensors[i].name, sensors[i].zone, sensors[i].kind))
  }

  /** `this.sensors.find(s => s.id === id)`: position of the first sensor with that id. */
  function FindSensor(sensors: seq<Sensor>, id: int): (r: Option<nat>)
    ensures r.Some? ==> r.value < |sensors| && sensors[r.value].id == id
    ensures r.Some? ==> forall j :: 0 <= j < r.value ==> sensors[j].id != id
    ensures r.None? ==> forall j :: 0 <= j < |sensors| ==> sensors[j].id != id
  {
    Lists.FirstIndex(sensors, (s: Sensor) => s.id == id)
  }

  /** In a registry the sensor with id `k` sits at position `k - 1`, and ids outside
      1..24 are unknown. */
  lemma FindInRegistry(sensors: seq<Sensor>, id: int)
    requires Registry(sensors)
    ensures FindSensor(sensors, id) == if 1 <= id <= SensorCount then Some(id - 1) else None
  {
    var r := FindSensor(sensors, id);
    if 1 <= id <= SensorCount {
      assert sensors[id - 1].id == id;
      if r.None? {
        assert false;
      }
    }
  }
}
