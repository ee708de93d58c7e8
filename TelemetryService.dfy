/** The backend telemetry simulation
    (backend/.../service/VehicleTelemetryService.java): one simulated reading
    per vehicle per run, derived from the vehicle's previous reading, the
    maintenance classification and alert of a reading, the run that stores
    the readings and copies them onto the vehicles, and the per-status
    counts. The eight `Random.nextDouble` draws of a reading are a
    parameter. */
module TelemetryService {
  import opened Wrappers
  import opened Seqs
  import opened Text
  import opened BackendModel
  import opened TelemetryRepository

  /** The uniform draws in [0, 1) one reading consumes. `due` is the draw
      of the maintenance classification, used only when no threshold
      decides. */
  datatype SimulationDraw = SimulationDraw(
    latitude: real,
    longitude: real,
    speed: real,
    fuel: real,
    battery: real,
    due: real,
    engineTemperature: real,
    tirePressure: real)

  predicate Unit(x: real)
  {
    0.0 <= x < 1.0
  }

  predicate ValidDraw(d: SimulationDraw)
  {
    Unit(d.latitude) && Unit(d.longitude) && Unit(d.speed) && Unit(d.fuel) && Unit(d.battery)
    && Unit(d.due) && Unit(d.engineTemperature) && Unit(d.tirePressure)
  }

  function Max(a: real, b: real): real
  {
    if a >= b then a else b
  }

  /** The previous reading's value, or the fallback when there is none. */
  function PreviousOr(prev: Option<Telemetry>, field: Telemetry -> real, fallback: real): real
  {
    if prev.Some? then field(prev.value) else fallback
  }

  function BaseLatitude(prev: Option<Telemetry>, v: Vehicle): real
  {
    PreviousOr(prev, (t: Telemetry) => t.latitude, v.latitude)
  }

  function BaseLongitude(prev: Option<Telemetry>, v: Vehicle): real
  {
    PreviousOr(prev, (t: Telemetry) => t.longitude, v.longitude)
  }

  /** The vehicle's own mileage is not consulted. */
  function BaseMileage(prev: Option<Telemetry>): real
  {
    PreviousOr(prev, (t: Telemetry) => t.mileage, 0.0)
  }

  function BaseFuel(prev: Option<Telemetry>): real
  {
    PreviousOr(prev, (t: Telemetry) => t.fuelLevel, 100.0)
  }

  function BaseBattery(prev: Option<Telemetry>): real
  {
    PreviousOr(prev, (t: Telemetry) => t.batteryLevel, 100.0)
  }

  /** The simulated speed depends on the status alone. */
  function SimulatedSpeed(status: VehicleStatus, draw: real): (speed: real)
    ensures Unit(draw) && status == EN_ROUTE ==> 20.0 <= speed < 80.0
    ensures Unit(draw) && status == LOADING ==> 0.0 <= speed < 5.0
    ensures status !in {EN_ROUTE, LOADING} ==> speed == 0.0
  {
    if status == EN_ROUTE then 20.0 + draw * 60.0
    else if status == LOADING then draw * 5.0
    else 0.0
  }

  predicate CriticalCondition(fuel: real, battery: real, mileage: real)
  {
    fuel < 15.0 || battery < 20.0 || mileage > 50000.0
  }

  predicate DueCondition(fuel: real, battery: real, mileage: real, dueDraw: real)
  {
    fuel < 30.0 || battery < 40.0 || mileage > 30000.0 || dueDraw < 0.1
  }

  /** `determineMaintenanceStatus`: critical thresholds first, then the due
      thresholds or a one-in-ten draw. The speed argument is not used. */
  function DetermineMaintenanceStatus(fuel: real, battery: real, mileage: real, speed: real, dueDraw: real)
    : (s: MaintenanceStatus)
    ensures s == CRITICAL <==> CriticalCondition(fuel, battery, mileage)
    ensures s == DUE <==> !CriticalCondition(fuel, battery, mileage) && DueCondition(fuel, battery, mileage, dueDraw)
    ensures s == HEALTHY <==> !CriticalCondition(fuel, battery, mileage) && !DueCondition(fuel, battery, mileage, dueDraw)
  {
    if fuel < 15.0 || battery < 20.0 || mileage > 50000.0 then CRITICAL
    else if fuel < 30.0 || battery < 40.0 || mileage > 30000.0 || dueDraw < 0.1 then DUE
    else HEALTHY
  }

  /** `generateCriticalAlert`: low fuel wins over low battery, which wins
      over the generic message. */
  function CriticalAlert(fuel: real, battery: real): (a: Alert)
    ensures a.LowFuel? <==> fuel < 15.0
    ensures a.LowBattery? <==> fuel >= 15.0 && battery < 20.0
    ensures a == ImmediateMaintenance <==> fuel >= 15.0 && battery >= 20.0
    ensures a.LowFuel? ==> a.fuelLevel == fuel
    ensures a.LowBattery? ==> a.batteryLevel == battery
  {
    if fuel < 15.0 then LowFuel(fuel)
    else if battery < 20.0 then LowBattery(battery)
    else ImmediateMaintenance
  }

  /** The alert attached to a reading: only critical and due readings carry
      one. */
  function AlertFor(s: MaintenanceStatus, fuel: real, battery: real): (a: Option<Alert>)
    ensures a.None? <==> s == HEALTHY
    ensures s == CRITICAL ==> a == Some(CriticalAlert(fuel, battery))
    ensures s == DUE ==> a == Some(MaintenanceDueSoon)
  {
    match s
    case CRITICAL => Some(CriticalAlert(fuel, battery))
    case DUE => Some(MaintenanceDueSoon)
    case HEALTHY => None
  }

  /** `String.format("%.1f", x)`: one decimal, half away from zero. */
  function FormatOneDecimal(x: real): (r: string)
    ensures |r| >= 3 && r[|r| - 2] == '.' && '0' <= r[|r| - 1] <= '9'
    ensures x < 0.0 <==> r[0] == '-'
    ensures var d := if x < 0.0 then r[1..] else r;
      |d| >= 3 && (forall i :: 0 <= i < |d| - 2 ==> '0' <= d[i] <= '9') &&
      DecimalValue(d[..|d| - 2]) * 10 + DigitValue(d[|d| - 1]) == ((if x < 0.0 then -x else x) * 10.0 + 0.5).Floor
  {
    var magnitude := if x < 0.0 then -x else x;
    var tenths := (magnitude * 10.0 + 0.5).Floor;
    assert tenths >= 0;
    var digits := NatToString(tenths / 10) + "." + [DigitChar(tenths % 10)];
    assert digits[..|digits| - 2] == NatToString(tenths / 10);
    var r := if x < 0.0 then "-" + digits else digits;
    assert (if x < 0.0 then r[1..] else r) == digits;
    r
  }

  const CRITICAL_PREFIX: string := "Critical: "

  /** The message text stored in `alertMessage`. */
  function AlertText(a: Alert): (r: string)
    ensures CRITICAL_PREFIX <= r <==> !a.MaintenanceDueSoon?
    ensures a.LowFuel? ==> CRITICAL_PREFIX + "Low fuel level - " <= r
    ensures a.LowBattery? ==> CRITICAL_PREFIX + "Low battery level - " <= r
    ensures a.ImmediateMaintenance? ==> r == CRITICAL_PREFIX + "Immediate maintenance required"
    ensures a.MaintenanceDueSoon? ==> r == "Scheduled maintenance due soon"
    ensures a.LowFuel? ==>
      var tail := FormatOneDecimal(a.fuelLevel) + "%"; |r| >= |tail| && r[|r| - |tail|..] == tail
    ensures a.LowBattery? ==>
      var tail := FormatOneDecimal(a.batteryLevel) + "%"; |r| >= |tail| && r[|r| - |tail|..] == tail
  {
    match a
    case LowFuel(level) =>
      Framed(CRITICAL_PREFIX, "Low fuel level - ", FormatOneDecimal(level) + "%");
      CRITICAL_PREFIX + "Low fuel level - " + (FormatOneDecimal(level) + "%")
    case LowBattery(level) =>
      Framed(CRITICAL_PREFIX, "Low battery level - ", FormatOneDecimal(level) + "%");
      CRITICAL_PREFIX + "Low battery level - " + (FormatOneDecimal(level) + "%")
    case ImmediateMaintenance =>
      Framed(CRITICAL_PREFIX, "Immediate maintenance required", "");
      CRITICAL_PREFIX + "Immediate maintenance required" + ""
    case MaintenanceDueSoon =>
      var r := "Scheduled maintenance due soon";
      assert r[0] != CRITICAL_PREFIX[0];
      r
  }

  /** The text starts with "Critical: " exactly for the alerts of critical
      readings. */
  lemma CriticalTextsAreMarked(s: MaintenanceStatus, fuel: real, battery: real)
    requires s != HEALTHY
    ensures CRITICAL_PREFIX <= AlertText(AlertFor(s, fuel, battery).value) <==> s == CRITICAL
  {
  }

  /** `generateSimulatedTelemetry` for vehicle `v` whose latest stored
      reading is `prev`, at instant `now`. */
  function GenerateSimulatedTelemetry(v: Vehicle, prev: Option<Telemetry>, d: SimulationDraw, now: int)
    : (t: Telemetry)
    ensures t.vehicleId == v.vehicleId && t.timestamp == now
  {
    var latitude := BaseLatitude(prev, v) + (d.latitude - 0.5) * 0.01;
    var longitude := BaseLongitude(prev, v) + (d.longitude - 0.5) * 0.01;
    var speed := SimulatedSpeed(v.status, d.speed);
    var fuel := Max(10.0, BaseFuel(prev) - d.fuel * 2.0);
    var battery := if v.isElectric then Max(15.0, BaseBattery(prev) - d.battery * 3.0) else 100.0;
    var mileage := BaseMileage(prev) + speed * (5.0 / 3600.0);
    var status := DetermineMaintenanceStatus(fuel, battery, mileage, speed, d.due);
    Telemetry(v.vehicleId, speed, fuel, battery, mileage, latitude, longitude, now, Some(status),
              Some(80.0 + d.engineTemperature * 40.0), Some(30.0 + d.tirePressure * 10.0),
              AlertFor(status, fuel, battery))
  }

  /** What `generateSimulatedTelemetry` promises about a reading: the
      position moves by at most 0.005 in each coordinate, the speed follows
      the status, fuel drops by less than 2 but not below 10, an electric
      battery drops by less than 3 but not below 15 and any other battery
      reads 100, the mileage grows by the distance driven in five seconds,
      and the status and alert are those of the new values. */
  lemma SimulatedReadingBounds(v: Vehicle, prev: Option<Telemetry>, d: SimulationDraw, now: int)
    requires ValidDraw(d)
    ensures var t := GenerateSimulatedTelemetry(v, prev, d, now);
      && (-0.005 <= t.latitude - BaseLatitude(prev, v) < 0.005)
      && (-0.005 <= t.longitude - BaseLongitude(prev, v) < 0.005)
      && (v.status == EN_ROUTE ==> 20.0 <= t.speed < 80.0)
      && (v.status == LOADING ==> 0.0 <= t.speed < 5.0)
      && (v.status !in {EN_ROUTE, LOADING} ==> t.speed == 0.0)
      && 10.0 <= t.fuelLevel && BaseFuel(prev) - 2.0 < t.fuelLevel
      && (t.fuelLevel <= BaseFuel(prev) || t.fuelLevel == 10.0)
      && (v.isElectric ==> 15.0 <= t.batteryLevel && BaseBattery(prev) - 3.0 < t.batteryLevel)
      && (v.isElectric ==> t.batteryLevel <= BaseBattery(prev) || t.batteryLevel == 15.0)
      && (!v.isElectric ==> t.batteryLevel == 100.0)
      && t.mileage == BaseMileage(prev) + t.speed * (5.0 / 3600.0)
      && BaseMileage(prev) <= t.mileage < BaseMileage(prev) + 1.0 / 9.0
      && (t.mileage == BaseMileage(prev) <==> t.speed == 0.0)
      && t.maintenanceStatus == Some(DetermineMaintenanceStatus(t.fuelLevel, t.batteryLevel, t.mileage, t.speed, d.due))
      && t.alertMessage == AlertFor(t.maintenanceStatus.value, t.fuelLevel, t.batteryLevel)
      && t.engineTemperature.Some? && 80.0 <= t.engineTemperature.value < 120.0
      && t.tirePressure.Some? && 30.0 <= t.tirePressure.value < 40.0
  {
  }

  /** Only an electric vehicle's reading can be critical or due because of
      its battery: a combustion vehicle's reading never carries the
      low-battery alert. */
  lemma NoBatteryAlertWithoutBattery(v: Vehicle, prev: Option<Telemetry>, d: SimulationDraw, now: int)
    requires ValidDraw(d) && !v.isElectric
    ensures var t := GenerateSimulatedTelemetry(v, prev, d, now);
      !(t.alertMessage.Some? && t.alertMessage.value.LowBattery?)
  {
  }

  /** The first reading of a parked combustion vehicle: it stays where the
      vehicle is registered (give or take 0.005), with fuel just below 100,
      full battery and no mileage, and is healthy unless the one-in-ten due
      draw fires. */
  lemma FirstReadingOfParkedVehicle(v: Vehicle, d: SimulationDraw, now: int)
    requires ValidDraw(d) && !v.isElectric && v.status !in {EN_ROUTE, LOADING}
    ensures var t := GenerateSimulatedTelemetry(v, None, d, now);
      && 98.0 < t.fuelLevel <= 100.0 && t.batteryLevel == 100.0 && t.mileage == 0.0 && t.speed == 0.0
      && (t.maintenanceStatus == Some(DUE) <==> d.due < 0.1)
      && (t.maintenanceStatus == Some(HEALTHY) <==> d.due >= 0.1)
  {
    var t := GenerateSimulatedTelemetry(v, None, d, now);
    assert BaseFuel(None) == 100.0 && BaseMileage(None) == 0.0;
    assert !CriticalCondition(t.fuelLevel, t.batteryLevel, t.mileage);
  }

  /** Java's `(int)` narrowing of a double: truncation toward zero. */
  function TruncateToInt(x: real): (n: int)
    ensures x >= 0.0 ==> 0 <= n && n as real <= x < n as real + 1.0
    ensures x < 0.0 ==> n <= 0 && n as real - 1.0 < x <= n as real
  {
    if x >= 0.0 then x.Floor else -((-x).Floor)
  }

  /** What the simulation run copies from a reading onto its vehicle. */
  function MirrorReading(v: Vehicle, t: Telemetry, now: int): (r: Vehicle)
    ensures r.id == v.id && r.vehicleId == v.vehicleId
  {
    v.(latitude := t.latitude, longitude := t.longitude, speed := Some(t.speed),
       batteryLevel := Some(TruncateToInt(t.batteryLevel)), fuelLevel := Some(t.fuelLevel),
       lastUpdated := now)
  }

  /** Mirroring changes position, speed, battery, fuel and `lastUpdated`
      and nothing else; a simulated battery level lands on its integer
      part. */
  lemma MirrorChangesOnlySensors(v: Vehicle, t: Telemetry, now: int)
    ensures MirrorReading(v, t, now).(latitude := v.latitude, longitude := v.longitude, speed := v.speed,
      batteryLevel := v.batteryLevel, fuelLevel := v.fuelLevel, lastUpdated := v.lastUpdated) == v
    ensures 15.0 <= t.batteryLevel <= 100.0 ==>
      15 <= MirrorReading(v, t, now).batteryLevel.value <= 100
  {
  }

  /** How a run turns a vehicle, the telemetry table and its draws into a
      new reading. */
  type Generator = (Vehicle, seq<Telemetry>, SimulationDraw) -> Telemetry

  /** The generator of the service, for a run at instant `now`: the
      vehicle's latest reading in the table is the previous one. */
  function SimulatorAt(now: int): Generator
  {
    (v: Vehicle, ts: seq<Telemetry>, d: SimulationDraw) =>
      GenerateSimulatedTelemetry(v, LatestByVehicleId(ts, v.vehicleId), d, now)
  }

  /** A generated reading belongs to the vehicle it was generated for. */
  ghost predicate KeepsVehicleId(gen: Generator)
  {
    forall v: Vehicle, ts: seq<Telemetry>, d: SimulationDraw :: gen(v, ts, d).vehicleId == v.vehicleId
  }

  /** Readings of other vehicles appended to the table do not change the
      reading generated for a vehicle. */
  ghost predicate IgnoresOtherVehicles(gen: Generator)
  {
    forall v: Vehicle, ts: seq<Telemetry>, extra: seq<Telemetry>, d: SimulationDraw ::
      (forall i :: 0 <= i < |extra| ==> extra[i].vehicleId != v.vehicleId) ==> gen(v, ts + extra, d) == gen(v, ts, d)
  }

  /** The service's generator reads only the vehicle's own readings. */
  lemma SimulatorReadsOwnReadings(now: int)
    ensures KeepsVehicleId(SimulatorAt(now))
    ensures IgnoresOtherVehicles(SimulatorAt(now))
  {
    forall v: Vehicle, ts: seq<Telemetry>, extra: seq<Telemetry>, d: SimulationDraw |
      forall i :: 0 <= i < |extra| ==> extra[i].vehicleId != v.vehicleId
      ensures SimulatorAt(now)(v, ts + extra, d) == SimulatorAt(now)(v, ts, d)
    {
      LatestIgnoresOtherVehicles(ts, extra, v.vehicleId);
    }
  }

  /** The reading generated for each vehicle from the table `ts`, keyed
      like the vehicles. */
  function SimulatedReadings(vs: map<int, Vehicle>, ts: seq<Telemetry>, gen: Generator, draws: map<int, SimulationDraw>)
    : (readings: map<int, Telemetry>)
    requires vs.Keys <= draws.Keys
    ensures readings.Keys == vs.Keys
    ensures KeepsVehicleId(gen) ==> forall k :: k in readings ==> readings[k].vehicleId == vs[k].vehicleId
  {
    map k | k in vs :: gen(vs[k], ts, draws[k])
  }

  /** The vehicles after the run: each with its own reading copied onto
      it. */
  function SimulatedVehicles(vs: map<int, Vehicle>, readings: map<int, Telemetry>, now: int): (r: map<int, Vehicle>)
    requires vs.Keys <= readings.Keys
    ensures r.Keys == vs.Keys
    ensures forall k :: k in r ==> r[k].id == vs[k].id && r[k].vehicleId == vs[k].vehicleId
  {
    map k | k in vs :: MirrorReading(vs[k], readings[k], now)
  }

  /** The readings of the vehicles under the keys in `order`, in that
      order. */
  function Batch(readings: map<int, Telemetry>, order: seq<int>): (batch: seq<Telemetry>)
    requires forall i :: 0 <= i < |order| ==> order[i] in readings
    ensures |batch| == |order|
    ensures forall i :: 0 <= i < |order| ==> batch[i] == readings[order[i]]
  {
    if order == [] then []
    else Batch(readings, order[..|order| - 1]) + [readings[order[|order| - 1]]]
  }

  /** The readings of the vehicles visited so far belong to other vehicles
      than one not yet visited. */
  lemma BatchOfOthers(vs: map<int, Vehicle>, readings: map<int, Telemetry>, order: seq<int>, k: int)
    requires vs.Keys == readings.Keys && forall j :: j in readings ==> readings[j].vehicleId == vs[j].vehicleId
    requires forall i :: 0 <= i < |order| ==> order[i] in vs
    requires UniqueVehicleIds(vs) && k in vs && k !in order
    ensures forall i :: 0 <= i < |order| ==> Batch(readings, order)[i].vehicleId != vs[k].vehicleId
  {
    forall i | 0 <= i < |order|
      ensures Batch(readings, order)[i].vehicleId != vs[k].vehicleId
    {
      assert order[i] != k;
    }
  }

  /** The vehicles and the telemetry table while a run is in progress. */
  datatype RunState = RunState(vehicles: map<int, Vehicle>, table: seq<Telemetry>)

  /** One visit of the loop: the vehicle under `k` gets a reading generated
      from its latest reading in the table as it stands; the reading is
      saved and copied onto the vehicle. */
  function Visit(s: RunState, gen: Generator, draws: map<int, SimulationDraw>, now: int, k: int): (r: RunState)
    requires k in s.vehicles && k in draws
    ensures r.vehicles.Keys == s.vehicles.Keys
    ensures |r.table| == |s.table| + 1 && r.table[..|s.table|] == s.table
    ensures forall j :: j in s.vehicles && j != k ==> r.vehicles[j] == s.vehicles[j]
  {
    var v := s.vehicles[k];
    var t := gen(v, s.table, draws[k]);
    RunState(s.vehicles[k := MirrorReading(v, t, now)], s.table + [t])
  }

  /** The loop run over the keys in `order`, one visit after the other. */
  function Run(s: RunState, gen: Generator, draws: map<int, SimulationDraw>, now: int, order: seq<int>): (r: RunState)
    requires forall i :: 0 <= i < |order| ==> order[i] in s.vehicles
    requires s.vehicles.Keys <= draws.Keys
    ensures r.vehicles.Keys == s.vehicles.Keys
    ensures |r.table| == |s.table| + |order|
    decreases |order|
  {
    if order == [] then s
    else Visit(Run(s, gen, draws, now, order[..|order| - 1]), gen, draws, now, order[|order| - 1])
  }

  /** A vehicle the run does not visit is left as it was. */
  lemma {:induction false} RunLeavesUnvisited(s: RunState, gen: Generator, draws: map<int, SimulationDraw>, now: int,
                                              order: seq<int>, k: int)
    requires forall i :: 0 <= i < |order| ==> order[i] in s.vehicles
    requires s.vehicles.Keys <= draws.Keys
    requires k in s.vehicles && k !in order
    ensures Run(s, gen, draws, now, order).vehicles[k] == s.vehicles[k]
    decreases |order|
  {
    if order != [] {
      SplitLast(order);
      RunLeavesUnvisited(s, gen, draws, now, order[..|order| - 1], k);
    }
  }

  /** The reading a run generates for the last vehicle of `order` is the
      one generated from the table before the run, provided the run over
      the earlier vehicles appended their readings. */
  lemma NextReading(vs0: map<int, Vehicle>, ts0: seq<Telemetry>, gen: Generator,
                    draws: map<int, SimulationDraw>, now: int, order: seq<int>)
    requires UniqueVehicleIds(vs0) && KeepsVehicleId(gen) && IgnoresOtherVehicles(gen) && vs0.Keys <= draws.Keys
    requires forall i :: 0 <= i < |order| ==> order[i] in vs0
    requires forall i, j :: 0 <= i < j < |order| ==> order[i] != order[j]
    requires order != []
    requires Run(RunState(vs0, ts0), gen, draws, now, order[..|order| - 1]).table
      == ts0 + Batch(SimulatedReadings(vs0, ts0, gen, draws), order[..|order| - 1])
    ensures var before := Run(RunState(vs0, ts0), gen, draws, now, order[..|order| - 1]);
      var k := order[|order| - 1];
      before.vehicles[k] == vs0[k] && gen(vs0[k], before.table, draws[k]) == SimulatedReadings(vs0, ts0, gen, draws)[k]
  {
    var readings := SimulatedReadings(vs0, ts0, gen, draws);
    var n := |order| - 1;
    var prefix, k := order[..n], order[n];
    assert k !in prefix;
    RunLeavesUnvisited(RunState(vs0, ts0), gen, draws, now, prefix, k);
    BatchOfOthers(vs0, readings, prefix, k);
  }

  /** Since vehicle ids are unique, a run in any order that visits each
      vehicle at most once appends, for each visited vehicle in turn, the
      reading generated from the table before the run. */
  lemma {:induction false} RunAppendsReadings(vs0: map<int, Vehicle>, ts0: seq<Telemetry>, gen: Generator,
                                              draws: map<int, SimulationDraw>, now: int, order: seq<int>)
    requires UniqueVehicleIds(vs0) && KeepsVehicleId(gen) && IgnoresOtherVehicles(gen) && vs0.Keys <= draws.Keys
    requires forall i :: 0 <= i < |order| ==> order[i] in vs0
    requires forall i, j :: 0 <= i < j < |order| ==> order[i] != order[j]
    ensures Run(RunState(vs0, ts0), gen, draws, now, order).table == ts0 + Batch(SimulatedReadings(vs0, ts0, gen, draws), order)
    decreases |order|
  {
    if order != [] {
      var readings := SimulatedReadings(vs0, ts0, gen, draws);
      var n := |order| - 1;
      var prefix, k := order[..n], order[n];
      RunAppendsReadings(vs0, ts0, gen, draws, now, prefix);
      NextReading(vs0, ts0, gen, draws, now, order);
      var before := Run(RunState(vs0, ts0), gen, draws, now, prefix);
      assert Run(RunState(vs0, ts0), gen, draws, now, order).table == before.table + [readings[k]];
      assert Batch(readings, order) == Batch(readings, prefix) + [readings[k]];
      AppendAssoc(ts0, Batch(readings, prefix), [readings[k]]);
    }
  }

  /** After a run that visits each vehicle at most once, each visited
      vehicle carries the reading generated from the table before the run
      and every other vehicle is as it was. */
  lemma {:induction false} RunMirrorsReadings(vs0: map<int, Vehicle>, ts0: seq<Telemetry>, gen: Generator,
                                              draws: map<int, SimulationDraw>, now: int, order: seq<int>)
    requires UniqueVehicleIds(vs0) && KeepsVehicleId(gen) && IgnoresOtherVehicles(gen) && vs0.Keys <= draws.Keys
    requires forall i :: 0 <= i < |order| ==> order[i] in vs0
    requires forall i, j :: 0 <= i < j < |order| ==> order[i] != order[j]
    ensures forall k :: k in vs0 ==> (Run(RunState(vs0, ts0), gen, draws, now, order).vehicles[k] ==
      if k in order then MirrorReading(vs0[k], SimulatedReadings(vs0, ts0, gen, draws)[k], now) else vs0[k])
    decreases |order|
  {
    if order != [] {
      var readings := SimulatedReadings(vs0, ts0, gen, draws);
      var n := |order| - 1;
      var prefix, k := order[..n], order[n];
      SplitLast(order);
      RunMirrorsReadings(vs0, ts0, gen, draws, now, prefix);
      RunAppendsReadings(vs0, ts0, gen, draws, now, prefix);
      NextReading(vs0, ts0, gen, draws, now, order);
      var after := Run(RunState(vs0, ts0), gen, draws, now, order);
      assert after.vehicles[k] == MirrorReading(vs0[k], readings[k], now);
    }
  }

  /** Once every vehicle has been visited, each carries its own reading. */
  lemma AllVisited(vs0: map<int, Vehicle>, vs: map<int, Vehicle>, readings: map<int, Telemetry>, now: int)
    requires vs0.Keys <= readings.Keys && vs.Keys == vs0.Keys
    requires forall k :: k in vs0 ==> vs[k] == MirrorReading(vs0[k], readings[k], now)
    ensures vs == SimulatedVehicles(vs0, readings, now)
  {
    var target := SimulatedVehicles(vs0, readings, now);
    assert vs.Keys == target.Keys;
    forall k | k in vs
      ensures vs[k] == target[k]
    {
    }
  }

  /** A non-empty set of keys has a member. */
  lemma NonEmptyHasKey(s: set<int>)
    requires s != {}
    ensures exists k :: k in s
  {
    if forall k :: k !in s {
      assert false;
    }
  }

  /** The rows `findAll` returns, as keys: every key once, in an order the
      repository leaves unspecified (chosen freely here). */
  method FindAllOrder(keys: set<int>) returns (order: seq<int>)
    ensures forall i :: 0 <= i < |order| ==> order[i] in keys
    ensures forall k :: k in keys ==> k in order
    ensures forall i, j :: 0 <= i < j < |order| ==> order[i] != order[j]
  {
    order := [];
    var remaining := keys;
    while remaining != {}
      invariant remaining <= keys
      invariant forall i :: 0 <= i < |order| ==> order[i] in keys && order[i] !in remaining
      invariant forall k :: k in keys && k !in remaining ==> k in order
      invariant forall i, j :: 0 <= i < j < |order| ==> order[i] != order[j]
      decreases remaining
    {
      NonEmptyHasKey(remaining);
      var k :| k in remaining;
      order := order + [k];
      remaining := remaining - {k};
    }
  }

  /** The loop of `simulateTelemetryData` over the vehicles `findAll`
      returns: each vehicle's reading is generated from the table as it
      stands, appended to it, and copied onto the vehicle. The result does
      not depend on the order: each reading is the one generated from the
      table before the run. */
  method SimulateAll(vs0: map<int, Vehicle>, ts0: seq<Telemetry>, draws: map<int, SimulationDraw>, now: int)
    returns (vs: map<int, Vehicle>, ts: seq<Telemetry>, order: seq<int>)
    requires UniqueVehicleIds(vs0)
    requires vs0.Keys <= draws.Keys
    ensures forall i :: 0 <= i < |order| ==> order[i] in vs0
    ensures forall k :: k in vs0 ==> k in order
    ensures forall i, j :: 0 <= i < j < |order| ==> order[i] != order[j]
    ensures RunState(vs, ts) == Run(RunState(vs0, ts0), SimulatorAt(now), draws, now, order)
    ensures ts == ts0 + Batch(SimulatedReadings(vs0, ts0, SimulatorAt(now), draws), order)
    ensures vs == SimulatedVehicles(vs0, SimulatedReadings(vs0, ts0, SimulatorAt(now), draws), now)
  {
    order := FindAllOrder(vs0.Keys);
    vs, ts := vs0, ts0;
    for n := 0 to |order|
      invariant RunState(vs, ts) == Run(RunState(vs0, ts0), SimulatorAt(now), draws, now, order[..n])
    {
      var k := order[n];
      var v := vs[k];
      var t := GenerateSimulatedTelemetry(v, LatestByVehicleId(ts, v.vehicleId), draws[k], now);
      ts := ts + [t];
      vs := vs[k := MirrorReading(v, t, now)];
      PrefixStep(order, n);
    }
    assert order[..|order|] == order;
    SimulatorReadsOwnReadings(now);
    RunAppendsReadings(vs0, ts0, SimulatorAt(now), draws, now, order);
    RunMirrorsReadings(vs0, ts0, SimulatorAt(now), draws, now, order);
    AllVisited(vs0, vs, SimulatedReadings(vs0, ts0, SimulatorAt(now), draws), now);
  }

  /** `simulateTelemetryData`: the run stores one reading per vehicle and
      copies it onto the vehicle; keys, ids and users stay as they were. */
  method SimulateTelemetryData(db: Database, draws: map<int, SimulationDraw>, now: int) returns (order: seq<int>)
    requires db.Valid()
    requires db.vehicles.Keys <= draws.Keys
    modifies db
    ensures db.Valid()
    ensures db.users == old(db.users) && db.nextVehicleKey == old(db.nextVehicleKey)
    ensures forall i :: 0 <= i < |order| ==> order[i] in old(db.vehicles)
    ensures forall k :: k in old(db.vehicles) ==> k in order
    ensures forall i, j :: 0 <= i < j < |order| ==> order[i] != order[j]
    ensures db.telemetry == old(db.telemetry) + Batch(SimulatedReadings(old(db.vehicles), old(db.telemetry), SimulatorAt(now), draws), order)
    ensures db.vehicles == SimulatedVehicles(old(db.vehicles), SimulatedReadings(old(db.vehicles), old(db.telemetry), SimulatorAt(now), draws), now)
  {
    var vs, ts;
    vs, ts, order := SimulateAll(db.vehicles, db.telemetry, draws, now);
    assert UniqueVehicleIds(vs) by {
      forall a, b | a in vs && b in vs && vs[a].vehicleId == vs[b].vehicleId
        ensures a == b
      {
        assert db.vehicles[a].vehicleId == db.vehicles[b].vehicleId;
      }
    }
    db.telemetry := ts;
    db.vehicles := vs;
  }

  /** The three counts keyed by status name. */
  function CountsByName(healthy: nat, due: nat, critical: nat): (counts: map<string, nat>)
    ensures counts.Keys == {"HEALTHY", "DUE", "CRITICAL"}
    ensures counts["HEALTHY"] == healthy && counts["DUE"] == due && counts["CRITICAL"] == critical
  {
    map["HEALTHY" := healthy, "DUE" := due, "CRITICAL" := critical]
  }

  /** `getMaintenanceStatusCounts`: the count of each status, by name. */
  function MaintenanceStatusCounts(ts: seq<Telemetry>): (counts: map<string, nat>)
    ensures counts.Keys == {"HEALTHY", "DUE", "CRITICAL"}
    ensures counts["HEALTHY"] + counts["DUE"] + counts["CRITICAL"] <= |ts|
    ensures counts["CRITICAL"] == 0 <==> forall t :: t in ts ==> t.maintenanceStatus != Some(CRITICAL)
    ensures counts["HEALTHY"] == CountByMaintenanceStatus(ts, HEALTHY)
    ensures counts["DUE"] == CountByMaintenanceStatus(ts, DUE)
    ensures counts["CRITICAL"] == CountByMaintenanceStatus(ts, CRITICAL)
  {
    CountsCoverTable(ts);
    CountsByName(CountByMaintenanceStatus(ts, HEALTHY), CountByMaintenanceStatus(ts, DUE), CountByMaintenanceStatus(ts, CRITICAL))
  }
}
