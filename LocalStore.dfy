/** The browser-side fleet store (src/services/localStore.ts): the vehicle,
    telemetry and booking collections, the current-user slot, the CRUD
    operations, the two aggregate queries and one tick of the telemetry
    simulation.

    Numbers are reals, instants are integers in milliseconds since the epoch,
    and every `Math.random()` the source calls is a parameter in [0, 1).
    The collections live in fields of one `Store` object instead of being
    re-read from `localStorage` on every call. */
module LocalStore {
  import opened Wrappers
  import opened Seqs
  import opened Text

  datatype Status = ACTIVE | MAINTENANCE | INACTIVE

  function StatusName(s: Status): string
  {
    match s
    case ACTIVE => "ACTIVE"
    case MAINTENANCE => "MAINTENANCE"
    case INACTIVE => "INACTIVE"
  }

  /** A vehicle record. `vehicleType` is the source's `type`; dates are the
      instants their ISO strings denote, and `None` stands for an absent or
      empty field. */
  datatype Vehicle = Vehicle(
    id: string,
    registrationNumber: string,
    vehicleType: string,
    model: string,
    status: Status,
    assignedDriverId: Option<string>,
    currentLocationLat: Option<real>,
    currentLocationLng: Option<real>,
    fuelLevel: real,
    mileage: real,
    lastMaintenanceDate: Option<int>,
    nextMaintenanceDate: Option<int>,
    capacity: real,
    createdAt: int,
    updatedAt: int)

  /** A vehicle's fields as `createVehicle` receives them (everything but
      `id`, `createdAt` and `updatedAt`). */
  datatype NewVehicle = NewVehicle(
    registrationNumber: string,
    vehicleType: string,
    model: string,
    status: Status,
    assignedDriverId: Option<string>,
    currentLocationLat: Option<real>,
    currentLocationLng: Option<real>,
    fuelLevel: real,
    mileage: real,
    lastMaintenanceDate: Option<int>,
    nextMaintenanceDate: Option<int>,
    capacity: real)

  /** One telemetry reading. */
  datatype Telemetry = Telemetry(
    id: string,
    vehicleId: string,
    speed: real,
    fuelLevel: real,
    engineTemperature: real,
    tirePressure: real,
    locationLat: real,
    locationLng: real,
    odometer: real,
    batteryVoltage: real,
    coolantTemperature: real,
    oilPressure: real,
    timestamp: int)

  datatype Role = FLEET_MANAGER | DRIVER | CUSTOMER

  datatype User = User(id: string, email: string, fullName: string, role: Role, phone: Option<string>)

  datatype BookingStatus = PENDING | CONFIRMED | IN_PROGRESS | COMPLETED | CANCELLED

  datatype Booking = Booking(
    id: string,
    customerId: string,
    vehicleId: Option<string>,
    pickupLocation: string,
    deliveryLocation: string,
    pickupLat: Option<real>,
    pickupLng: Option<real>,
    deliveryLat: Option<real>,
    deliveryLng: Option<real>,
    status: BookingStatus,
    scheduledPickupTime: Option<string>,
    actualPickupTime: Option<string>,
    estimatedDeliveryTime: Option<string>,
    actualDeliveryTime: Option<string>,
    cargoWeight: Option<real>,
    cargoDescription: Option<string>,
    price: Option<real>,
    rating: Option<real>,
    notes: Option<string>,
    createdAt: int,
    updatedAt: int)

  /** The base coordinate used wherever a location is missing. */
  const DEFAULT_LAT: real := 40.7128
  const DEFAULT_LNG: real := -74.0060
  /** The speed a tick starts from when there is no usable previous one. */
  const DEFAULT_SPEED: real := 50.0
  /** Period of the simulation timer. */
  const TICK_INTERVAL_MS: nat := 3000
  const MS_PER_DAY: nat := 1000 * 60 * 60 * 24
  /** Horizon of the "upcoming maintenance" count. */
  const UPCOMING_WINDOW_DAYS: real := 30.0

  /** JavaScript's `x || fallback` on an optional number: `undefined` and
      `0` are both falsy, so both give `fallback`. */
  function OrElse(x: Option<real>, fallback: real): (r: real)
    ensures x.Some? && x.value != 0.0 ==> r == x.value
    ensures x.None? || x.value == 0.0 ==> r == fallback
  {
    if x.Some? && x.value != 0.0 then x.value else fallback
  }

  function Max(a: real, b: real): (m: real)
    ensures m >= a && m >= b && (m == a || m == b)
  {
    if a >= b then a else b
  }

  /** JavaScript's `Math.round`: the nearest integer, halves rounded up. */
  function Round(x: real): (r: int)
    ensures x - 0.5 < r as real <= x + 0.5
  {
    (x + 0.5).Floor
  }

  // ---------------------------------------------------------------------
  // Lookups and filters over the collections

  function HasId(id: string): Vehicle -> bool
  {
    (v: Vehicle) => v.id == id
  }

  function LacksId(id: string): Vehicle -> bool
  {
    (v: Vehicle) => v.id != id
  }

  function HasStatus(s: Status): Vehicle -> bool
  {
    (v: Vehicle) => v.status == s
  }

  function ForVehicle(vehicleId: string): Telemetry -> bool
  {
    (t: Telemetry) => t.vehicleId == vehicleId
  }

  /** `getVehicleById`: the first vehicle with this id, if any. */
  function VehicleById(vs: seq<Vehicle>, id: string): (r: Option<Vehicle>)
    ensures r.None? <==> forall i :: 0 <= i < |vs| ==> vs[i].id != id
    ensures r.Some? ==> r.value.id == id && exists i :: 0 <= i < |vs| && vs[i] == r.value && forall j :: 0 <= j < i ==> vs[j].id != id
  {
    Find(vs, HasId(id))
  }

  /** `getTelemetryByVehicleId`: the first reading for this vehicle, if any. */
  function TelemetryFor(snapshot: seq<Telemetry>, vehicleId: string): (r: Option<Telemetry>)
    ensures r.None? <==> forall i :: 0 <= i < |snapshot| ==> snapshot[i].vehicleId != vehicleId
    ensures r.Some? ==> r.value.vehicleId == vehicleId && exists i :: 0 <= i < |snapshot| && snapshot[i] == r.value && forall j :: 0 <= j < i ==> snapshot[j].vehicleId != vehicleId
  {
    Find(snapshot, ForVehicle(vehicleId))
  }

  /** The vehicles in a given status, in list order. */
  function WithStatus(vs: seq<Vehicle>, s: Status): (r: seq<Vehicle>)
    ensures forall i :: 0 <= i < |r| ==> r[i] in vs && r[i].status == s
    ensures forall i :: 0 <= i < |vs| && vs[i].status == s ==> vs[i] in r
    ensures IsSubsequence(r, vs)
    ensures forall x :: x in vs ==> multiset(r)[x] == if x.status == s then multiset(vs)[x] else 0
  {
    FilterMultiplicity(vs, HasStatus(s));
    Filter(vs, HasStatus(s))
  }

  /** As many vehicles are in status `s` as there are positions of `vs`
      holding a vehicle in that status. */
  lemma WithStatusCount(vs: seq<Vehicle>, s: Status)
    ensures |WithStatus(vs, s)| == |set i | 0 <= i < |vs| && vs[i].status == s|
  {
    FilterCount(vs, HasStatus(s));
    assert PositionsWhere(vs, HasStatus(s)) == set i | 0 <= i < |vs| && vs[i].status == s;
  }

  /** What `deleteVehicle` keeps: every record without this id, in order. */
  function Without(vs: seq<Vehicle>, id: string): (r: seq<Vehicle>)
    ensures forall i :: 0 <= i < |r| ==> r[i].id != id
    ensures forall i :: 0 <= i < |vs| && vs[i].id != id ==> vs[i] in r
    ensures IsSubsequence(r, vs)
    ensures |r| == |vs| <==> forall i :: 0 <= i < |vs| ==> vs[i].id != id
    ensures forall x :: x in vs ==> multiset(r)[x] == if x.id != id then multiset(vs)[x] else 0
  {
    FilterKeepsAll(vs, LacksId(id));
    FilterMultiplicity(vs, LacksId(id));
    assert (forall x :: x in vs ==> LacksId(id)(x)) <==> forall i :: 0 <= i < |vs| ==> vs[i].id != id;
    Filter(vs, LacksId(id))
  }

  predicate UniqueIds(vs: seq<Vehicle>)
  {
    forall i, j :: 0 <= i < |vs| && 0 <= j < |vs| && vs[i].id == vs[j].id ==> i == j
  }

  // ---------------------------------------------------------------------
  // Record construction and merging

  /** The record `createVehicle` stores: the given fields plus an id and
      both timestamps. */
  function WithIdentity(f: NewVehicle, id: string, now: int): (v: Vehicle)
    ensures v.id == id && v.createdAt == now && v.updatedAt == now
    ensures Fields(v) == f
  {
    Vehicle(id, f.registrationNumber, f.vehicleType, f.model, f.status, f.assignedDriverId,
            f.currentLocationLat, f.currentLocationLng, f.fuelLevel, f.mileage,
            f.lastMaintenanceDate, f.nextMaintenanceDate, f.capacity, now, now)
  }

  /** The inverse view: a record's fields without its identity. */
  function Fields(v: Vehicle): NewVehicle
  {
    NewVehicle(v.registrationNumber, v.vehicleType, v.model, v.status, v.assignedDriverId,
               v.currentLocationLat, v.currentLocationLng, v.fuelLevel, v.mileage,
               v.lastMaintenanceDate, v.nextMaintenanceDate, v.capacity)
  }

  /** One property of a `Partial<Vehicle>`: absent (`Keep`) or present with
      a value, which may itself be `undefined` for an optional field. */
  datatype Patch<T> = Keep | Put(value: T) {
    /** The property after spreading this patch over `current`. */
    function Over(current: T): (r: T)
      ensures Put? ==> r == value
      ensures Keep? ==> r == current
    {
      if Put? then value else current
    }

    /** Spreading the same patch twice is spreading it once. */
    lemma OverTwice(current: T)
      ensures Over(Over(current)) == Over(current)
    {
    }
  }

  datatype VehiclePatch = VehiclePatch(
    id: Patch<string>,
    registrationNumber: Patch<string>,
    vehicleType: Patch<string>,
    model: Patch<string>,
    status: Patch<Status>,
    assignedDriverId: Patch<Option<string>>,
    currentLocationLat: Patch<Option<real>>,
    currentLocationLng: Patch<Option<real>>,
    fuelLevel: Patch<real>,
    mileage: Patch<real>,
    lastMaintenanceDate: Patch<Option<int>>,
    nextMaintenanceDate: Patch<Option<int>>,
    capacity: Patch<real>,
    createdAt: Patch<int>,
    updatedAt: Patch<int>)

  const NoChanges: VehiclePatch := VehiclePatch(Keep, Keep, Keep, Keep, Keep, Keep, Keep, Keep, Keep, Keep, Keep, Keep, Keep, Keep, Keep)

  /** `{ ...v, ...updates, updatedAt: now }`. */
  function Merge(v: Vehicle, p: VehiclePatch, now: int): (r: Vehicle)
    ensures r.updatedAt == now
    ensures r.id == (if p.id.Put? then p.id.value else v.id)
    ensures r.createdAt == (if p.createdAt.Put? then p.createdAt.value else v.createdAt)
    ensures p.status.Put? ==> r.status == p.status.value
    ensures p.status.Keep? ==> r.status == v.status
    ensures r.registrationNumber == p.registrationNumber.Over(v.registrationNumber)
    ensures r.vehicleType == p.vehicleType.Over(v.vehicleType)
    ensures r.model == p.model.Over(v.model)
    ensures r.assignedDriverId == p.assignedDriverId.Over(v.assignedDriverId)
    ensures r.currentLocationLat == p.currentLocationLat.Over(v.currentLocationLat)
    ensures r.currentLocationLng == p.currentLocationLng.Over(v.currentLocationLng)
    ensures r.fuelLevel == p.fuelLevel.Over(v.fuelLevel)
    ensures r.mileage == p.mileage.Over(v.mileage)
    ensures r.lastMaintenanceDate == p.lastMaintenanceDate.Over(v.lastMaintenanceDate)
    ensures r.nextMaintenanceDate == p.nextMaintenanceDate.Over(v.nextMaintenanceDate)
    ensures r.capacity == p.capacity.Over(v.capacity)
  {
    Vehicle(p.id.Over(v.id), p.registrationNumber.Over(v.registrationNumber),
            p.vehicleType.Over(v.vehicleType), p.model.Over(v.model), p.status.Over(v.status),
            p.assignedDriverId.Over(v.assignedDriverId), p.currentLocationLat.Over(v.currentLocationLat),
            p.currentLocationLng.Over(v.currentLocationLng), p.fuelLevel.Over(v.fuelLevel),
            p.mileage.Over(v.mileage), p.lastMaintenanceDate.Over(v.lastMaintenanceDate),
            p.nextMaintenanceDate.Over(v.nextMaintenanceDate), p.capacity.Over(v.capacity),
            p.createdAt.Over(v.createdAt), now)
  }

  /** The timestamp written last wins over any `updatedAt` in the patch, an
      absent property keeps the old value, a present one replaces it, and
      applying the same patch twice is the same as applying it once. */
  lemma MergeSemantics(v: Vehicle, p: VehiclePatch, now: int)
    ensures Merge(v, p, now).updatedAt == now
    ensures Merge(v, NoChanges, now) == v.(updatedAt := now)
    ensures p.status.Keep? ==> Merge(v, p, now).status == v.status
    ensures p.status.Put? ==> Merge(v, p, now).status == p.status.value
    ensures p.mileage.Keep? ==> Merge(v, p, now).mileage == v.mileage
  {
  }

  /** Applying the same patch twice is the same as applying it once. */
  lemma MergeIdempotent(v: Vehicle, p: VehiclePatch, now: int)
    ensures Merge(Merge(v, p, now), p, now) == Merge(v, p, now)
  {
    var once := Merge(v, p, now);
    p.id.OverTwice(v.id);
    p.registrationNumber.OverTwice(v.registrationNumber);
    p.vehicleType.OverTwice(v.vehicleType);
    p.model.OverTwice(v.model);
    p.status.OverTwice(v.status);
    p.assignedDriverId.OverTwice(v.assignedDriverId);
    p.currentLocationLat.OverTwice(v.currentLocationLat);
    p.currentLocationLng.OverTwice(v.currentLocationLng);
    p.fuelLevel.OverTwice(v.fuelLevel);
    p.mileage.OverTwice(v.mileage);
    p.lastMaintenanceDate.OverTwice(v.lastMaintenanceDate);
    p.nextMaintenanceDate.OverTwice(v.nextMaintenanceDate);
    p.capacity.OverTwice(v.capacity);
    p.createdAt.OverTwice(v.createdAt);
  }

  /** A patch carrying only a fuel level changes the fuel level and
      `updatedAt`, and nothing else. */
  lemma MergeFuelOnly(v: Vehicle, fuel: real, now: int)
    ensures Merge(v, NoChanges.(fuelLevel := Put(fuel)), now) == v.(fuelLevel := fuel, updatedAt := now)
  {
  }

  /** A patch carrying only coordinates changes them and `updatedAt`, and
      nothing else. */
  lemma MergeLocationOnly(v: Vehicle, lat: Option<real>, lng: Option<real>, now: int)
    ensures Merge(v, NoChanges.(currentLocationLat := Put(lat), currentLocationLng := Put(lng)), now)
      == v.(currentLocationLat := lat, currentLocationLng := lng, updatedAt := now)
  {
  }

  // ---------------------------------------------------------------------
  // Seed data (initializeData)

  function InitialVehicles(now: int): (vs: seq<Vehicle>)
    ensures |vs| == 3 && UniqueIds(vs)
    ensures forall i :: 0 <= i < |vs| ==> 0.0 <= vs[i].fuelLevel <= 100.0 && vs[i].createdAt == now
  {
    var vs := [
      Vehicle("1", "TRK-001", "TRUCK", "Volvo FH16", ACTIVE, None, Some(40.7128), Some(-74.0060),
              85.0, 125000.0, Some(1726358400000), Some(1731628800000), 25.0, now, now),
      Vehicle("2", "VAN-002", "VAN", "Mercedes Sprinter", ACTIVE, None, Some(40.7589), Some(-73.9851),
              65.0, 85000.0, Some(1726790400000), Some(1732060800000), 3.5, now, now),
      Vehicle("3", "TRK-003", "TRUCK", "Scania R500", MAINTENANCE, None, Some(40.7282), Some(-73.7949),
              45.0, 150000.0, Some(1727740800000), Some(1728950400000), 28.0, now, now)
    ];
    vs
  }

  predicate Unit(r: real)
  {
    0.0 <= r < 1.0
  }

  /** The five sensor values every reading redraws from scratch. */
  datatype SensorDraw = SensorDraw(engineTemperature: real, tirePressure: real, batteryVoltage: real,
                                   coolantTemperature: real, oilPressure: real)

  predicate ValidSensorDraw(d: SensorDraw)
  {
    Unit(d.engineTemperature) && Unit(d.tirePressure) && Unit(d.batteryVoltage)
    && Unit(d.coolantTemperature) && Unit(d.oilPressure)
  }

  /** The fixed ranges the redrawn sensors fall in. */
  predicate SensorsInRange(t: Telemetry)
  {
    && 85.0 <= t.engineTemperature < 95.0
    && 30.0 <= t.tirePressure < 35.0
    && 12.5 <= t.batteryVoltage < 13.0
    && 80.0 <= t.coolantTemperature < 90.0
    && 28.0 <= t.oilPressure < 32.0
  }

  datatype SeedDraw = SeedDraw(speed: real, sensors: SensorDraw)

  predicate ValidSeedDraws(ds: seq<SeedDraw>)
  {
    forall i :: 0 <= i < |ds| ==> Unit(ds[i].speed) && ValidSensorDraw(ds[i].sensors)
  }

  /** The reading `initializeData` seeds for one vehicle. */
  function SeedReading(v: Vehicle, d: SeedDraw, now: int): (t: Telemetry)
    requires Unit(d.speed) && ValidSensorDraw(d.sensors)
    ensures t.vehicleId == v.id && t.timestamp == now
    ensures 0.0 <= t.speed < 80.0 && SensorsInRange(t)
    ensures t.fuelLevel == v.fuelLevel && t.odometer == v.mileage
    ensures t.locationLat == OrElse(v.currentLocationLat, DEFAULT_LAT)
    ensures t.locationLng == OrElse(v.currentLocationLng, DEFAULT_LNG)
  {
    Telemetry(
      "tel-" + v.id, v.id,
      d.speed * 80.0,
      v.fuelLevel,
      85.0 + d.sensors.engineTemperature * 10.0,
      30.0 + d.sensors.tirePressure * 5.0,
      OrElse(v.currentLocationLat, DEFAULT_LAT),
      OrElse(v.currentLocationLng, DEFAULT_LNG),
      v.mileage,
      12.5 + d.sensors.batteryVoltage * 0.5,
      80.0 + d.sensors.coolantTemperature * 10.0,
      28.0 + d.sensors.oilPressure * 4.0,
      now)
  }

  /** The seeded snapshot: one reading per stored vehicle, in order. */
  function SeedTelemetry(vs: seq<Vehicle>, draws: seq<SeedDraw>, now: int): (r: seq<Telemetry>)
    requires |draws| == |vs| && ValidSeedDraws(draws)
    ensures |r| == |vs|
    ensures forall i :: 0 <= i < |r| ==> r[i].vehicleId == vs[i].id && SensorsInRange(r[i])
  {
    seq(|vs|, i requires 0 <= i < |vs| => SeedReading(vs[i], draws[i], now))
  }

  // ---------------------------------------------------------------------
  // One simulation tick

  datatype TickDraw = TickDraw(speed: real, fuel: real, lat: real, lng: real, odometer: real, sensors: SensorDraw)

  predicate ValidTickDraws(ds: seq<TickDraw>)
  {
    forall i :: 0 <= i < |ds| ==>
      Unit(ds[i].speed) && Unit(ds[i].fuel) && Unit(ds[i].lat) && Unit(ds[i].lng)
      && Unit(ds[i].odometer) && ValidSensorDraw(ds[i].sensors)
  }

  function PrevSpeed(prev: Option<Telemetry>): Option<real>
  {
    if prev.Some? then Some(prev.value.speed) else None
  }

  function PrevFuel(prev: Option<Telemetry>): Option<real>
  {
    if prev.Some? then Some(prev.value.fuelLevel) else None
  }

  function PrevLat(prev: Option<Telemetry>): Option<real>
  {
    if prev.Some? then Some(prev.value.locationLat) else None
  }

  function PrevLng(prev: Option<Telemetry>): Option<real>
  {
    if prev.Some? then Some(prev.value.locationLng) else None
  }

  function PrevOdometer(prev: Option<Telemetry>): Option<real>
  {
    if prev.Some? then Some(prev.value.odometer) else None
  }

  /** The speed a tick perturbs: the previous speed unless it is absent or
      zero, then 50. */
  function SpeedBase(prev: Option<Telemetry>): (b: real)
    ensures prev.Some? && prev.value.speed != 0.0 ==> b == prev.value.speed
    ensures prev.None? || prev.value.speed == 0.0 ==> b == DEFAULT_SPEED
  {
    OrElse(PrevSpeed(prev), DEFAULT_SPEED)
  }

  /** The fuel level a tick drains: the previous reading's unless it is
      absent or zero, then the vehicle's own. */
  function FuelBase(v: Vehicle, prev: Option<Telemetry>): (b: real)
    ensures prev.Some? && prev.value.fuelLevel != 0.0 ==> b == prev.value.fuelLevel
    ensures prev.None? || prev.value.fuelLevel == 0.0 ==> b == v.fuelLevel
  {
    OrElse(PrevFuel(prev), v.fuelLevel)
  }

  /** The latitude a tick jitters: previous reading, else the vehicle's,
      else the base coordinate, each skipped when absent or zero. */
  function LatBase(v: Vehicle, prev: Option<Telemetry>): (b: real)
    ensures prev.Some? && prev.value.locationLat != 0.0 ==> b == prev.value.locationLat
    ensures (prev.None? || prev.value.locationLat == 0.0) && v.currentLocationLat.Some? && v.currentLocationLat.value != 0.0 ==> b == v.currentLocationLat.value
    ensures (prev.None? || prev.value.locationLat == 0.0) && (v.currentLocationLat.None? || v.currentLocationLat.value == 0.0) ==> b == DEFAULT_LAT
  {
    OrElse(PrevLat(prev), OrElse(v.currentLocationLat, DEFAULT_LAT))
  }

  function LngBase(v: Vehicle, prev: Option<Telemetry>): (b: real)
    ensures prev.Some? && prev.value.locationLng != 0.0 ==> b == prev.value.locationLng
    ensures (prev.None? || prev.value.locationLng == 0.0) && v.currentLocationLng.Some? && v.currentLocationLng.value != 0.0 ==> b == v.currentLocationLng.value
    ensures (prev.None? || prev.value.locationLng == 0.0) && (v.currentLocationLng.None? || v.currentLocationLng.value == 0.0) ==> b == DEFAULT_LNG
  {
    OrElse(PrevLng(prev), OrElse(v.currentLocationLng, DEFAULT_LNG))
  }

  /** The odometer a tick advances: the previous reading's unless it is
      absent or zero, then the vehicle's mileage. */
  function OdometerBase(v: Vehicle, prev: Option<Telemetry>): (b: real)
    ensures prev.Some? && prev.value.odometer != 0.0 ==> b == prev.value.odometer
    ensures prev.None? || prev.value.odometer == 0.0 ==> b == v.mileage
  {
    OrElse(PrevOdometer(prev), v.mileage)
  }

  /** The reading a tick derives for one ACTIVE vehicle from its previous
      reading: bounded steps from the bases, sensors redrawn. */
  function NextReading(v: Vehicle, prev: Option<Telemetry>, d: TickDraw, now: nat): (t: Telemetry)
    requires Unit(d.speed) && Unit(d.fuel) && Unit(d.lat) && Unit(d.lng) && Unit(d.odometer) && ValidSensorDraw(d.sensors)
    ensures t.vehicleId == v.id && t.timestamp == now
    ensures 0.0 <= t.speed && SpeedBase(prev) - 5.0 <= t.speed
    ensures t.speed < SpeedBase(prev) + 5.0 || t.speed == 0.0
    ensures 0.0 <= t.fuelLevel && FuelBase(v, prev) - 0.1 < t.fuelLevel
    ensures t.fuelLevel <= FuelBase(v, prev) || t.fuelLevel == 0.0
    ensures OdometerBase(v, prev) <= t.odometer < OdometerBase(v, prev) + 0.5
    ensures LatBase(v, prev) - 0.0005 <= t.locationLat < LatBase(v, prev) + 0.0005
    ensures LngBase(v, prev) - 0.0005 <= t.locationLng < LngBase(v, prev) + 0.0005
    ensures SensorsInRange(t)
  {
    Telemetry(
      "tel-" + v.id + "-" + NatToString(now), v.id,
      Max(0.0, SpeedBase(prev) + (d.speed - 0.5) * 10.0),
      Max(0.0, FuelBase(v, prev) - d.fuel * 0.1),
      85.0 + d.sensors.engineTemperature * 10.0,
      30.0 + d.sensors.tirePressure * 5.0,
      LatBase(v, prev) + (d.lat - 0.5) * 0.001,
      LngBase(v, prev) + (d.lng - 0.5) * 0.001,
      OdometerBase(v, prev) + d.odometer * 0.5,
      12.5 + d.sensors.batteryVoltage * 0.5,
      80.0 + d.sensors.coolantTemperature * 10.0,
      28.0 + d.sensors.oilPressure * 4.0,
      now)
  }

  /** The snapshot one tick writes: a fresh reading for each ACTIVE vehicle,
      in vehicle-list order, derived from the old snapshot; `draws[k]` are
      the random numbers spent on the k-th ACTIVE vehicle. */
  function TickSnapshot(vs: seq<Vehicle>, old_: seq<Telemetry>, draws: seq<TickDraw>, now: nat): (r: seq<Telemetry>)
    requires |draws| == |WithStatus(vs, ACTIVE)| && ValidTickDraws(draws)
    ensures |r| == |WithStatus(vs, ACTIVE)|
    ensures forall k :: 0 <= k < |r| ==>
      r[k] == NextReading(WithStatus(vs, ACTIVE)[k], TelemetryFor(old_, WithStatus(vs, ACTIVE)[k].id), draws[k], now)
  {
    var active := WithStatus(vs, ACTIVE);
    seq(|active|, k requires 0 <= k < |active| =>
      NextReading(active[k], TelemetryFor(old_, active[k].id), draws[k], now))
  }

  /** Each reading of a tick belongs to an ACTIVE vehicle. */
  lemma {:induction false} TickReadingIsActive(vs: seq<Vehicle>, old_: seq<Telemetry>, draws: seq<TickDraw>, now: nat, k: nat)
    requires |draws| == |WithStatus(vs, ACTIVE)| && ValidTickDraws(draws)
    requires k < |TickSnapshot(vs, old_, draws, now)|
    ensures exists i :: 0 <= i < |vs| && vs[i].status == ACTIVE && vs[i].id == TickSnapshot(vs, old_, draws, now)[k].vehicleId
  {
    var active := WithStatus(vs, ACTIVE);
    assert TickSnapshot(vs, old_, draws, now)[k].vehicleId == active[k].id;
    assert active[k] in vs;
    var i :| 0 <= i < |vs| && vs[i] == active[k];
  }

  /** Every ACTIVE vehicle has a reading after a tick. */
  lemma {:induction false} TickCoversActive(vs: seq<Vehicle>, old_: seq<Telemetry>, draws: seq<TickDraw>, now: nat, i: nat)
    requires |draws| == |WithStatus(vs, ACTIVE)| && ValidTickDraws(draws)
    requires i < |vs| && vs[i].status == ACTIVE
    ensures TelemetryFor(TickSnapshot(vs, old_, draws, now), vs[i].id).Some?
  {
    var active := WithStatus(vs, ACTIVE);
    var r := TickSnapshot(vs, old_, draws, now);
    assert vs[i] in active;
    var k :| 0 <= k < |active| && active[k] == vs[i];
    assert r[k].vehicleId == vs[i].id;
  }

  /** A tick drops readings of vehicles that are not ACTIVE: an id that no
      ACTIVE vehicle carries has no reading afterwards, even if the old
      snapshot had one. */
  lemma {:induction false} TickDropsInactive(vs: seq<Vehicle>, old_: seq<Telemetry>, draws: seq<TickDraw>, now: nat, id: string)
    requires |draws| == |WithStatus(vs, ACTIVE)| && ValidTickDraws(draws)
    requires forall i :: 0 <= i < |vs| && vs[i].id == id ==> vs[i].status != ACTIVE
    ensures TelemetryFor(TickSnapshot(vs, old_, draws, now), id).None?
  {
    var r := TickSnapshot(vs, old_, draws, now);
    forall k | 0 <= k < |r|
      ensures r[k].vehicleId != id
    {
      TickReadingIsActive(vs, old_, draws, now, k);
    }
  }

  /** `tel ? { ...v, lat, lng, fuelLevel, updatedAt: now } : v` — what the
      tick's `forEach` does to one vehicle. */
  function MirrorOne(v: Vehicle, tel: Option<Telemetry>, now: int): Vehicle
  {
    match tel
    case None => v
    case Some(t) => v.(currentLocationLat := Some(t.locationLat), currentLocationLng := Some(t.locationLng),
                       fuelLevel := t.fuelLevel, updatedAt := now)
  }

  /** The vehicle list after the tick's `forEach`. */
  function MirrorAll(vs: seq<Vehicle>, snapshot: seq<Telemetry>, now: int): (r: seq<Vehicle>)
    ensures |r| == |vs|
  {
    seq(|vs|, i requires 0 <= i < |vs| => MirrorOne(vs[i], TelemetryFor(snapshot, vs[i].id), now))
  }

  /** The tick's `forEach`: each vehicle with a reading in the snapshot
      gets that reading copied onto it, in list order. */
  method MirrorEach(vs: seq<Vehicle>, snapshot: seq<Telemetry>, now: int) returns (updated: seq<Vehicle>)
    ensures updated == MirrorAll(vs, snapshot, now)
  {
    updated := vs;
    var i := 0;
    while i < |vs|
      invariant 0 <= i <= |vs| && |updated| == |vs|
      invariant forall j :: 0 <= j < i ==> updated[j] == MirrorOne(vs[j], TelemetryFor(snapshot, vs[j].id), now)
      invariant forall j :: i <= j < |vs| ==> updated[j] == vs[j]
    {
      var tel := TelemetryFor(snapshot, vs[i].id);
      if tel.Some? {
        updated := updated[i := MirrorOne(updated[i], tel, now)];
      }
      i := i + 1;
    }
  }

  /** Mirroring copies location and fuel from the vehicle's reading and
      refreshes `updatedAt`; mileage, status and every other field stay;
      a vehicle without a reading is untouched. */
  lemma MirrorChangesOnlyLocationAndFuel(vs: seq<Vehicle>, snapshot: seq<Telemetry>, now: int, i: nat)
    requires i < |vs|
    ensures var w := MirrorAll(vs, snapshot, now)[i];
      && w.id == vs[i].id && w.mileage == vs[i].mileage && w.status == vs[i].status
      && w.(currentLocationLat := vs[i].currentLocationLat, currentLocationLng := vs[i].currentLocationLng,
            fuelLevel := vs[i].fuelLevel, updatedAt := vs[i].updatedAt) == vs[i]
    ensures TelemetryFor(snapshot, vs[i].id).None? ==> MirrorAll(vs, snapshot, now)[i] == vs[i]
    ensures match TelemetryFor(snapshot, vs[i].id)
      case None => true
      case Some(t) =>
        var w := MirrorAll(vs, snapshot, now)[i];
        w.currentLocationLat == Some(t.locationLat) && w.currentLocationLng == Some(t.locationLng)
        && w.fuelLevel == t.fuelLevel && w.updatedAt == now
  {
  }

  /** With unique ids, a tick gives each ACTIVE vehicle its own fresh
      reading's location and fuel, so its fuel never rises above the base it
      drained from and never drops below 0; every other vehicle is left as
      it was. */
  lemma {:induction false} TickMirrorsOwnReading(vs: seq<Vehicle>, old_: seq<Telemetry>, draws: seq<TickDraw>, now: nat, i: nat)
    requires |draws| == |WithStatus(vs, ACTIVE)| && ValidTickDraws(draws)
    requires UniqueIds(vs) && i < |vs|
    ensures vs[i].status != ACTIVE ==> MirrorAll(vs, TickSnapshot(vs, old_, draws, now), now)[i] == vs[i]
    ensures vs[i].status == ACTIVE ==> exists k :: (0 <= k < |draws| &&
      MirrorAll(vs, TickSnapshot(vs, old_, draws, now), now)[i]
        == MirrorOne(vs[i], Some(NextReading(vs[i], TelemetryFor(old_, vs[i].id), draws[k], now)), now))
    ensures vs[i].status == ACTIVE ==>
      var w := MirrorAll(vs, TickSnapshot(vs, old_, draws, now), now)[i];
      0.0 <= w.fuelLevel && (w.fuelLevel <= FuelBase(vs[i], TelemetryFor(old_, vs[i].id)) || w.fuelLevel == 0.0)
  {
    var active := WithStatus(vs, ACTIVE);
    var r := TickSnapshot(vs, old_, draws, now);
    var found := TelemetryFor(r, vs[i].id);
    if vs[i].status != ACTIVE {
      TickDropsInactive(vs, old_, draws, now, vs[i].id);
    } else {
      TickCoversActive(vs, old_, draws, now, i);
      var k :| 0 <= k < |r| && r[k] == found.value;
      assert r[k].vehicleId == active[k].id;
      assert active[k] in vs;
      var j :| 0 <= j < |vs| && vs[j] == active[k];
      assert j == i;
      assert found.value == NextReading(vs[i], TelemetryFor(old_, vs[i].id), draws[k], now);
    }
  }

  // ---------------------------------------------------------------------
  // Aggregates

  datatype VehicleStats = VehicleStats(total: nat, active: nat, maintenance: nat, inactive: nat,
                                       avgFuelLevel: Option<int>, totalMileage: int)

  function TotalFuel(vs: seq<Vehicle>): real
  {
    Sum(vs, (v: Vehicle) => v.fuelLevel)
  }

  function TotalMileage(vs: seq<Vehicle>): real
  {
    Sum(vs, (v: Vehicle) => v.mileage)
  }

  /** `getVehicleStats`. An empty fleet divides by zero; its average is
      `None` (the source's NaN). */
  function GetVehicleStats(vs: seq<Vehicle>): (r: VehicleStats)
    ensures r.total == |vs|
    ensures r.active == |set i | 0 <= i < |vs| && vs[i].status == ACTIVE|
    ensures r.maintenance == |set i | 0 <= i < |vs| && vs[i].status == MAINTENANCE|
    ensures r.inactive == |set i | 0 <= i < |vs| && vs[i].status == INACTIVE|
    ensures r.active + r.maintenance + r.inactive == r.total
    ensures r.avgFuelLevel.None? <==> vs == []
    ensures vs != [] ==> r.avgFuelLevel == Some(Round(TotalFuel(vs) / |vs| as real))
    ensures r.totalMileage == Round(TotalMileage(vs))
    ensures vs != [] && (forall i :: 0 <= i < |vs| ==> 0.0 <= vs[i].fuelLevel <= 100.0) ==>
      0 <= r.avgFuelLevel.value <= 100
  {
    FilterPartition3(vs, HasStatus(ACTIVE), HasStatus(MAINTENANCE), HasStatus(INACTIVE));
    WithStatusCount(vs, ACTIVE);
    WithStatusCount(vs, MAINTENANCE);
    WithStatusCount(vs, INACTIVE);
    if vs != [] && (forall i :: 0 <= i < |vs| ==> 0.0 <= vs[i].fuelLevel <= 100.0) then
      AverageWithin(vs, 0.0, 100.0);
      StatsOf(vs)
    else
      StatsOf(vs)
  }

  function StatsOf(vs: seq<Vehicle>): VehicleStats
  {
    VehicleStats(
      |vs|,
      |WithStatus(vs, ACTIVE)|,
      |WithStatus(vs, MAINTENANCE)|,
      |WithStatus(vs, INACTIVE)|,
      if vs == [] then None else Some(Round(TotalFuel(vs) / |vs| as real)),
      Round(TotalMileage(vs)))
  }

  lemma AverageWithin(vs: seq<Vehicle>, lo: real, hi: real)
    requires vs != [] && forall i :: 0 <= i < |vs| ==> lo <= vs[i].fuelLevel <= hi
    ensures lo <= TotalFuel(vs) / |vs| as real <= hi
  {
    SumBounds(vs, (v: Vehicle) => v.fuelLevel, lo, hi);
    var n := |vs| as real;
    var avg := TotalFuel(vs) / n;
    assert avg * n == TotalFuel(vs);
  }

  /** Next maintenance strictly before now. */
  function IsOverdue(now: int): Vehicle -> bool
  {
    (v: Vehicle) => v.nextMaintenanceDate.Some? && v.nextMaintenanceDate.value < now
  }

  /** Next maintenance more than 0 and at most 30 days ahead. */
  function IsUpcoming(now: int): Vehicle -> bool
  {
    (v: Vehicle) => v.nextMaintenanceDate.Some? &&
      var daysUntil := (v.nextMaintenanceDate.value - now) as real / MS_PER_DAY as real;
      daysUntil <= UPCOMING_WINDOW_DAYS && daysUntil > 0.0
  }

  /** The day-fraction test is the same as comparing instants: upcoming
      means `now < next <= now + 30 days`. */
  lemma UpcomingWindow(v: Vehicle, now: int)
    ensures IsUpcoming(now)(v) <==>
      (v.nextMaintenanceDate.Some? && now < v.nextMaintenanceDate.value <= now + 30 * MS_PER_DAY)
  {
    if v.nextMaintenanceDate.Some? {
      var diff := (v.nextMaintenanceDate.value - now) as real;
      var d := MS_PER_DAY as real;
      var days := diff / d;
      assert days * d == diff;
      if diff <= 30.0 * d {
        assert days <= 30.0;
      }
      if days <= 30.0 {
        assert diff <= 30.0 * d;
      }
    }
  }

  datatype MaintenanceStats = MaintenanceStats(inMaintenance: nat, upcoming: nat, overdue: nat)

  /** `getMaintenanceStats`. */
  function GetMaintenanceStats(vs: seq<Vehicle>, now: int): (r: MaintenanceStats)
    ensures r.inMaintenance == |set i | 0 <= i < |vs| && vs[i].status == MAINTENANCE|
    ensures r.overdue == |set i | 0 <= i < |vs| && vs[i].nextMaintenanceDate.Some? && vs[i].nextMaintenanceDate.value < now|
    ensures r.upcoming == |set i | 0 <= i < |vs| && vs[i].nextMaintenanceDate.Some?
                                 && now < vs[i].nextMaintenanceDate.value <= now + 30 * MS_PER_DAY|
    ensures r.upcoming + r.overdue <= |vs|
  {
    forall v: Vehicle
      ensures !(IsUpcoming(now)(v) && IsOverdue(now)(v))
    {
      UpcomingWindow(v, now);
    }
    FilterDisjoint(vs, IsUpcoming(now), IsOverdue(now));
    WithStatusCount(vs, MAINTENANCE);
    FilterCount(vs, IsOverdue(now));
    FilterCount(vs, IsUpcoming(now));
    assert PositionsWhere(vs, IsOverdue(now)) ==
      set i | 0 <= i < |vs| && vs[i].nextMaintenanceDate.Some? && vs[i].nextMaintenanceDate.value < now;
    assert PositionsWhere(vs, IsUpcoming(now)) ==
      set i | 0 <= i < |vs| && vs[i].nextMaintenanceDate.Some? && now < vs[i].nextMaintenanceDate.value <= now + 30 * MS_PER_DAY
    by {
      forall i | 0 <= i < |vs|
        ensures IsUpcoming(now)(vs[i]) <==>
          vs[i].nextMaintenanceDate.Some? && now < vs[i].nextMaintenanceDate.value <= now + 30 * MS_PER_DAY
      {
        UpcomingWindow(vs[i], now);
      }
    }
    MaintenanceStats(|WithStatus(vs, MAINTENANCE)|, |Filter(vs, IsUpcoming(now))|, |Filter(vs, IsOverdue(now))|)
  }

  /** The boundaries: a vehicle due exactly now, or with no date, counts in
      neither bucket; one due in 10 days is upcoming, one due in 40 days is
      not, and one due a day ago is overdue. */
  lemma MaintenanceBoundaries(v: Vehicle, now: int)
    ensures v.nextMaintenanceDate == Some(now) ==> !IsUpcoming(now)(v) && !IsOverdue(now)(v)
    ensures v.nextMaintenanceDate.None? ==> !IsUpcoming(now)(v) && !IsOverdue(now)(v)
    ensures v.nextMaintenanceDate == Some(now + 10 * MS_PER_DAY) ==> IsUpcoming(now)(v) && !IsOverdue(now)(v)
    ensures v.nextMaintenanceDate == Some(now + 40 * MS_PER_DAY) ==> !IsUpcoming(now)(v) && !IsOverdue(now)(v)
    ensures v.nextMaintenanceDate == Some(now - MS_PER_DAY) ==> IsOverdue(now)(v) && !IsUpcoming(now)(v)
  {
    UpcomingWindow(v, now);
  }

  // ---------------------------------------------------------------------
  // The store object

  class Store {
    var vehicles: seq<Vehicle>
    var telemetry: seq<Telemetry>
    var bookings: seq<Booking>
    var currentUser: Option<User>
    /** The handle of the armed simulation timer, `None` once stopped. */
    var telemetrySimulation: Option<nat>
    /** Every batch the simulation has announced, oldest first. */
    ghost var published: seq<seq<Telemetry>>

    /** Construct the store over what storage already holds (`None` for a
        missing key): seed the three sample vehicles when there are no
        vehicles, seed one reading per vehicle when there is no telemetry,
        then arm the simulation timer. */
    constructor (storedVehicles: Option<seq<Vehicle>>, storedTelemetry: Option<seq<Telemetry>>,
                 storedBookings: seq<Booking>, storedUser: Option<User>,
                 seedDraws: seq<SeedDraw>, now: nat, timer: nat)
      requires storedTelemetry.None? ==>
        |seedDraws| == |storedVehicles.GetOr(InitialVehicles(now))| && ValidSeedDraws(seedDraws)
      ensures vehicles == storedVehicles.GetOr(InitialVehicles(now))
      ensures telemetry == if storedTelemetry.Some? then storedTelemetry.value
                           else SeedTelemetry(vehicles, seedDraws, now)
      ensures bookings == storedBookings && currentUser == storedUser
      ensures telemetrySimulation == Some(timer) && published == []
    {
      var vs := storedVehicles.GetOr(InitialVehicles(now));
      vehicles := vs;
      telemetry := if storedTelemetry.Some? then storedTelemetry.value else SeedTelemetry(vs, seedDraws, now);
      bookings := storedBookings;
      currentUser := storedUser;
      telemetrySimulation := Some(timer);
      published := [];
    }

    /** The body of the simulation timer: derive the new snapshot, replace
        the old one with it, mirror each reading onto its vehicle, and
        publish the batch. */
    method Tick(draws: seq<TickDraw>, now: nat)
      requires telemetrySimulation.Some?
      requires |draws| == |WithStatus(vehicles, ACTIVE)| && ValidTickDraws(draws)
      modifies this`vehicles, this`telemetry, this`published
      ensures telemetry == TickSnapshot(old(vehicles), old(telemetry), draws, now)
      ensures vehicles == MirrorAll(old(vehicles), telemetry, now)
      ensures published == old(published) + [telemetry]
    {
      var snapshot := TickSnapshot(vehicles, telemetry, draws, now);
      telemetry := snapshot;
      vehicles := MirrorEach(vehicles, snapshot, now);
      published := published + [snapshot];
    }

    /** `stopTelemetrySimulation`: disarm the timer if it is armed. */
    method StopTelemetrySimulation()
      modifies this`telemetrySimulation
      ensures telemetrySimulation == None
    {
      if telemetrySimulation.Some? {
        telemetrySimulation := None;
      }
    }

    /** `createVehicle`: append a record whose id is the current instant in
        decimal; the id is not checked against existing ones. */
    method CreateVehicle(fields: NewVehicle, now: nat) returns (v: Vehicle)
      modifies this`vehicles
      ensures v.id == NatToString(now) && v.createdAt == now && v.updatedAt == now && Fields(v) == fields
      ensures vehicles == old(vehicles) + [v]
    {
      v := WithIdentity(fields, NatToString(now), now);
      vehicles := vehicles + [v];
    }

    /** `updateVehicle`: merge the patch into the first record with this id,
        or report `None` and write nothing. */
    method UpdateVehicle(id: string, updates: VehiclePatch, now: int) returns (r: Option<Vehicle>)
      modifies this`vehicles
      ensures r.None? <==> forall i :: 0 <= i < |old(vehicles)| ==> old(vehicles)[i].id != id
      ensures r.None? ==> vehicles == old(vehicles)
      ensures r.Some? ==> exists i :: (0 <= i < |old(vehicles)| && old(vehicles)[i].id == id
        && (forall j :: 0 <= j < i ==> old(vehicles)[j].id != id)
        && vehicles == old(vehicles)[i := Merge(old(vehicles)[i], updates, now)]
        && r.value == vehicles[i])
    {
      var index := FirstIndex(vehicles, HasId(id));
      if index.None? {
        return None;
      }
      var i := index.value;
      vehicles := vehicles[i := Merge(vehicles[i], updates, now)];
      r := Some(vehicles[i]);
    }

    /** `deleteVehicle`: drop every record with this id; report whether
        there was one. */
    method DeleteVehicle(id: string) returns (removed: bool)
      modifies this`vehicles
      ensures removed <==> exists i :: 0 <= i < |old(vehicles)| && old(vehicles)[i].id == id
      ensures vehicles == Without(old(vehicles), id)
      ensures !removed ==> vehicles == old(vehicles)
    {
      var filtered := Without(vehicles, id);
      if |filtered| == |vehicles| {
        FilterKeepsAll(vehicles, LacksId(id));
        return false;
      }
      vehicles := filtered;
      return true;
    }

    /** `setCurrentUser`: store the user, or clear the slot for `null`. */
    method SetCurrentUser(user: Option<User>)
      modifies this`currentUser
      ensures currentUser == user
    {
      currentUser := user;
    }
  }

  /** Deleting the same id twice reports `true` and then `false`. */
  method DeleteTwice(store: Store, id: string) returns (first: bool, second: bool)
    requires exists i :: 0 <= i < |store.vehicles| && store.vehicles[i].id == id
    modifies store
    ensures first && !second
  {
    first := store.DeleteVehicle(id);
    second := store.DeleteVehicle(id);
  }
}
