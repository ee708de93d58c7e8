/** The shaping layer over the browser store (src/services/api.ts): the
    defaults `createVehicle` fills in, the location update, the filter
    queries, the telemetry dashboard figures and booking creation. The
    artificial delays and promise wrapping are not modelled. */
module Api {
  import opened Wrappers
  import opened Seqs
  import opened Text
  import opened LocalStore

  /** The loosely typed body `createVehicle` receives. An absent property
      and an empty status string are `None`. */
  datatype VehicleInput = VehicleInput(
    registrationNumber: string,
    vehicleType: string,
    model: string,
    status: Option<Status>,
    assignedDriverId: Option<string>,
    currentLocationLat: Option<real>,
    currentLocationLng: Option<real>,
    fuelLevel: Option<real>,
    mileage: Option<real>,
    lastMaintenanceDate: Option<int>,
    nextMaintenanceDate: Option<int>,
    capacity: real)

  const DEFAULT_FUEL: real := 100.0

  /** The record fields `createVehicle` hands to the store: a missing
      status becomes ACTIVE; a missing or zero coordinate becomes the base
      coordinate; a missing or zero fuel level becomes 100; a missing
      mileage becomes 0; everything else is passed through. */
  function NewVehicleFrom(d: VehicleInput): (f: NewVehicle)
    ensures f.status == d.status.GetOr(ACTIVE)
    ensures f.currentLocationLat.Some? && f.currentLocationLng.Some?
    ensures f.currentLocationLat.value != 0.0 && f.currentLocationLng.value != 0.0
    ensures d.currentLocationLat.Some? && d.currentLocationLat.value != 0.0 ==> f.currentLocationLat == d.currentLocationLat
    ensures d.currentLocationLat.None? || d.currentLocationLat.value == 0.0 ==> f.currentLocationLat == Some(DEFAULT_LAT)
    ensures d.currentLocationLng.Some? && d.currentLocationLng.value != 0.0 ==> f.currentLocationLng == d.currentLocationLng
    ensures d.currentLocationLng.None? || d.currentLocationLng.value == 0.0 ==> f.currentLocationLng == Some(DEFAULT_LNG)
    ensures f.fuelLevel != 0.0
    ensures d.fuelLevel.Some? && d.fuelLevel.value != 0.0 ==> f.fuelLevel == d.fuelLevel.value
    ensures d.fuelLevel.None? || d.fuelLevel.value == 0.0 ==> f.fuelLevel == DEFAULT_FUEL
    ensures f.mileage == (if d.mileage.Some? then d.mileage.value else 0.0)
    ensures f.registrationNumber == d.registrationNumber && f.vehicleType == d.vehicleType && f.model == d.model
    ensures f.assignedDriverId == d.assignedDriverId && f.capacity == d.capacity
    ensures f.lastMaintenanceDate == d.lastMaintenanceDate && f.nextMaintenanceDate == d.nextMaintenanceDate
  {
    NewVehicle(
      d.registrationNumber, d.vehicleType, d.model,
      d.status.GetOr(ACTIVE),
      d.assignedDriverId,
      Some(OrElse(d.currentLocationLat, DEFAULT_LAT)),
      Some(OrElse(d.currentLocationLng, DEFAULT_LNG)),
      OrElse(d.fuelLevel, DEFAULT_FUEL),
      OrElse(d.mileage, 0.0),
      d.lastMaintenanceDate, d.nextMaintenanceDate,
      d.capacity)
  }

  /** The body that would resubmit a record's fields unchanged. */
  function InputOf(f: NewVehicle): VehicleInput
  {
    VehicleInput(f.registrationNumber, f.vehicleType, f.model, Some(f.status), f.assignedDriverId,
                 f.currentLocationLat, f.currentLocationLng, Some(f.fuelLevel), Some(f.mileage),
                 f.lastMaintenanceDate, f.nextMaintenanceDate, f.capacity)
  }

  /** Defaulting is idempotent: resubmitting what `createVehicle` stored
      yields the same fields again, since every default it fills in is
      itself kept. */
  lemma DefaultsIdempotent(d: VehicleInput)
    ensures NewVehicleFrom(InputOf(NewVehicleFrom(d))) == NewVehicleFrom(d)
  {
  }

  /** A submitted fuel level of 0 and a submitted coordinate of 0 are
      treated as missing. */
  lemma ZeroIsMissing(d: VehicleInput)
    requires d.fuelLevel == Some(0.0) && d.currentLocationLat == Some(0.0)
    ensures NewVehicleFrom(d).fuelLevel == 100.0
    ensures NewVehicleFrom(d).currentLocationLat == Some(40.7128)
  {
  }

  /** `vehicleAPI.createVehicle`: default the body, then append through the
      store. */
  method CreateVehicle(store: Store, d: VehicleInput, now: nat) returns (v: Vehicle)
    modifies store`vehicles
    ensures v.id == NatToString(now) && Fields(v) == NewVehicleFrom(d)
    ensures v.createdAt == now && v.updatedAt == now
    ensures store.vehicles == old(store.vehicles) + [v]
  {
    v := store.CreateVehicle(NewVehicleFrom(d), now);
  }

  /** The partial update `updateVehicleLocation` sends: both coordinate
      properties present, either possibly `undefined`. */
  function LocationPatch(lat: Option<real>, lng: Option<real>): VehiclePatch
  {
    NoChanges.(currentLocationLat := Put(lat), currentLocationLng := Put(lng))
  }

  /** Merging a location patch changes the coordinates and `updatedAt` and
      nothing else. */
  lemma LocationPatchChangesOnlyLocation(v: Vehicle, lat: Option<real>, lng: Option<real>, now: int)
    ensures Merge(v, LocationPatch(lat, lng), now)
      == v.(currentLocationLat := lat, currentLocationLng := lng, updatedAt := now)
  {
  }

  /** `vehicleAPI.updateVehicleLocation`: `None` and no write for an unknown
      id; otherwise the first record with the id gets the new coordinates
      and a fresh `updatedAt`, and nothing else changes. */
  method UpdateVehicleLocation(store: Store, vehicleId: string, lat: Option<real>, lng: Option<real>, now: int)
    returns (r: Option<Vehicle>)
    modifies store`vehicles
    ensures r.None? <==> forall i :: 0 <= i < |old(store.vehicles)| ==> old(store.vehicles)[i].id != vehicleId
    ensures r.None? ==> store.vehicles == old(store.vehicles)
    ensures r.Some? ==> exists i :: (0 <= i < |old(store.vehicles)| && old(store.vehicles)[i].id == vehicleId
      && (forall j :: 0 <= j < i ==> old(store.vehicles)[j].id != vehicleId)
      && store.vehicles == old(store.vehicles)[i := old(store.vehicles)[i].(currentLocationLat := lat,
                                                   currentLocationLng := lng, updatedAt := now)]
      && r.value == store.vehicles[i])
  {
    r := store.UpdateVehicle(vehicleId, LocationPatch(lat, lng), now);
    if r.Some? {
      ghost var i :| 0 <= i < |old(store.vehicles)| && old(store.vehicles)[i].id == vehicleId
        && (forall j :: 0 <= j < i ==> old(store.vehicles)[j].id != vehicleId)
        && store.vehicles == old(store.vehicles)[i := Merge(old(store.vehicles)[i], LocationPatch(lat, lng), now)]
        && r.value == store.vehicles[i];
      LocationPatchChangesOnlyLocation(old(store.vehicles)[i], lat, lng, now);
    }
  }

  /** `vehicleAPI.deleteVehicle`: `success` is the store's answer. */
  method DeleteVehicle(store: Store, id: string) returns (success: bool)
    modifies store`vehicles
    ensures success <==> exists i :: 0 <= i < |old(store.vehicles)| && old(store.vehicles)[i].id == id
    ensures store.vehicles == Without(old(store.vehicles), id)
  {
    success := store.DeleteVehicle(id);
  }

  function AssignedTo(driverId: string): Vehicle -> bool
  {
    (v: Vehicle) => v.assignedDriverId == Some(driverId)
  }

  /** `vehicleAPI.getVehiclesByDriver`: the vehicles whose driver id is the
      decimal rendering of `driverId`, in list order. */
  function VehiclesByDriver(vs: seq<Vehicle>, driverId: int): (r: seq<Vehicle>)
    ensures forall i :: 0 <= i < |r| ==> r[i] in vs && r[i].assignedDriverId == Some(IntToString(driverId))
    ensures forall i :: 0 <= i < |vs| && vs[i].assignedDriverId == Some(IntToString(driverId)) ==> vs[i] in r
    ensures IsSubsequence(r, vs)
    ensures forall x :: x in vs ==>
      multiset(r)[x] == if x.assignedDriverId == Some(IntToString(driverId)) then multiset(vs)[x] else 0
  {
    FilterMultiplicity(vs, AssignedTo(IntToString(driverId)));
    Filter(vs, AssignedTo(IntToString(driverId)))
  }

  /** `vehicleAPI.getAvailableVehicles`: the ACTIVE vehicles, in list order;
      a vehicle list with nothing but ACTIVE vehicles comes back whole. */
  function AvailableVehicles(vs: seq<Vehicle>): (r: seq<Vehicle>)
    ensures forall i :: 0 <= i < |r| ==> r[i] in vs && r[i].status == ACTIVE
    ensures forall i :: 0 <= i < |vs| && vs[i].status == ACTIVE ==> vs[i] in r
    ensures IsSubsequence(r, vs)
    ensures (forall i :: 0 <= i < |vs| ==> vs[i].status == ACTIVE) ==> r == vs
    ensures forall x :: x in vs ==> multiset(r)[x] == if x.status == ACTIVE then multiset(vs)[x] else 0
  {
    FilterKeepsAll(vs, HasStatus(ACTIVE));
    WithStatus(vs, ACTIVE)
  }

  datatype TelemetryDashboardStats = TelemetryDashboardStats(
    criticalAlerts: nat,
    warningAlerts: nat,
    healthyVehicles: int,
    avgTemperature: real,
    avgFuelLevel: Option<int>)

  const AVG_TEMPERATURE: real := 88.0

  /** `telemetryAPI.getDashboardStats`: critical alerts are the overdue
      vehicles, warnings the upcoming ones, and "healthy" is the ACTIVE
      count minus both; the temperature is a constant and the fuel average
      is the store's (absent for an empty fleet). */
  function TelemetryDashboard(vs: seq<Vehicle>, now: int): (r: TelemetryDashboardStats)
    ensures r.criticalAlerts + r.warningAlerts + r.healthyVehicles == |WithStatus(vs, ACTIVE)|
    ensures r.healthyVehicles >= |WithStatus(vs, ACTIVE)| - |vs|
    ensures r.healthyVehicles <= |WithStatus(vs, ACTIVE)|
    ensures r.avgTemperature == 88.0
    ensures r.avgFuelLevel.None? <==> vs == []
    ensures r.criticalAlerts == GetMaintenanceStats(vs, now).overdue
    ensures r.warningAlerts == GetMaintenanceStats(vs, now).upcoming
    ensures r.avgFuelLevel == GetVehicleStats(vs).avgFuelLevel
    ensures r.criticalAlerts == |set i | 0 <= i < |vs| && vs[i].nextMaintenanceDate.Some? && vs[i].nextMaintenanceDate.value < now|
  {
    var m := GetMaintenanceStats(vs, now);
    TelemetryDashboardStats(m.overdue, m.upcoming, |WithStatus(vs, ACTIVE)| - m.upcoming - m.overdue,
                            AVG_TEMPERATURE, GetVehicleStats(vs).avgFuelLevel)
  }

  /** The healthy count is not bounded below by 0: an overdue vehicle in
      MAINTENANCE still subtracts from the ACTIVE count. */
  lemma HealthyCanBeNegative(v: Vehicle, now: int)
    requires v.status == MAINTENANCE && v.nextMaintenanceDate == Some(now - 1)
    ensures TelemetryDashboard([v], now).healthyVehicles == -1
    ensures TelemetryDashboard([v], now).criticalAlerts == 1
  {
    assert Filter([v][1..], IsOverdue(now)) == [];
    assert Filter([v][1..], IsUpcoming(now)) == [];
    assert Filter([v][1..], HasStatus(ACTIVE)) == [];
    MaintenanceBoundaries(v, now);
    UpcomingWindow(v, now);
  }

  /** `telemetryAPI.getTelemetryByVehicleId`: always a one-element list,
      whose element is the first reading of the vehicle in the snapshot, or
      undefined when the vehicle has no reading. */
  function TelemetryByVehicleId(snapshot: seq<Telemetry>, vehicleId: string): (r: seq<Option<Telemetry>>)
    ensures |r| == 1
    ensures r[0].None? <==> forall i :: 0 <= i < |snapshot| ==> snapshot[i].vehicleId != vehicleId
    ensures r[0].Some? ==> r[0].value in snapshot && r[0].value.vehicleId == vehicleId
    ensures r[0].Some? ==>
      exists i :: 0 <= i < |snapshot| && snapshot[i] == r[0].value &&
        forall j :: 0 <= j < i ==> snapshot[j].vehicleId != vehicleId
  {
    [TelemetryFor(snapshot, vehicleId)]
  }

  /** The booking body `createBooking` receives. */
  datatype BookingInput = BookingInput(
    vehicleId: Option<string>,
    pickupLocation: string,
    deliveryLocation: string,
    pickupLat: Option<real>,
    pickupLng: Option<real>,
    deliveryLat: Option<real>,
    deliveryLng: Option<real>,
    scheduledPickupTime: Option<string>,
    estimatedDeliveryTime: Option<string>,
    cargoWeight: Option<real>,
    cargoDescription: Option<string>,
    price: Option<real>,
    notes: Option<string>)

  /** `getCurrentUser()?.id || '1'`: the signed-in user's id unless there is
      none or it is empty. */
  function CustomerId(user: Option<User>): (r: string)
    ensures user.Some? && user.value.id != "" ==> r == user.value.id
    ensures user.None? || user.value.id == "" ==> r == "1"
    ensures r != ""
  {
    if user.Some? && user.value.id != "" then user.value.id else "1"
  }

  /** The booking `createBooking` builds: PENDING, stamped with the current
      instant as id and both timestamps, with no actual times and no
      rating yet. */
  function NewBooking(b: BookingInput, user: Option<User>, now: nat): (r: Booking)
    ensures r.status == PENDING && r.id == NatToString(now) && r.customerId == CustomerId(user)
    ensures r.actualPickupTime.None? && r.actualDeliveryTime.None? && r.rating.None?
    ensures r.createdAt == now && r.updatedAt == now
    ensures r.vehicleId == b.vehicleId && r.pickupLocation == b.pickupLocation && r.deliveryLocation == b.deliveryLocation
    ensures r.pickupLat == b.pickupLat && r.pickupLng == b.pickupLng
    ensures r.deliveryLat == b.deliveryLat && r.deliveryLng == b.deliveryLng
    ensures r.scheduledPickupTime == b.scheduledPickupTime && r.estimatedDeliveryTime == b.estimatedDeliveryTime
    ensures r.cargoWeight == b.cargoWeight && r.cargoDescription == b.cargoDescription
    ensures r.price == b.price && r.notes == b.notes
  {
    Booking(NatToString(now), CustomerId(user), b.vehicleId, b.pickupLocation, b.deliveryLocation,
            b.pickupLat, b.pickupLng, b.deliveryLat, b.deliveryLng, PENDING,
            b.scheduledPickupTime, None, b.estimatedDeliveryTime, None,
            b.cargoWeight, b.cargoDescription, b.price, None, b.notes, now, now)
  }

  /** `customerAPI.createBooking`: append the new booking at the end. */
  method CreateBooking(store: Store, b: BookingInput, now: nat) returns (booking: Booking)
    modifies store`bookings
    ensures booking == NewBooking(b, store.currentUser, now)
    ensures store.bookings == old(store.bookings) + [booking]
  {
    booking := NewBooking(b, store.currentUser, now);
    store.bookings := store.bookings + [booking];
  }
}
