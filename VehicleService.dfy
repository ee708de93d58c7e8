/** backend/.../service/VehicleService.java: creating, updating, moving and
    deleting rows of the `vehicles` table, and listing the available ones.
    Each guard that throws in the service is a `Failure` here; the service
    is not transactional and throws before `save`, so a failure leaves the
    tables as they were. */
module VehicleService {
  import opened Wrappers
  import opened Text
  import opened BackendModel

  /** The exceptions the service throws: a duplicate `vehicleId`, a missing
      row, and `VehicleStatus.valueOf` on an unknown name. */
  datatype ServiceError = VehicleIdExists(vehicleId: string) | VehicleNotFound | UnknownStatus(name: string)

  const DRIVER_TYPE: string := "driver"
  const ELECTRIC: string := "electric"

  /** `vehicleRepository.findByVehicleId(vehicleId).isPresent()`. */
  predicate VehicleIdTaken(vs: map<int, Vehicle>, vehicleId: string)
  {
    exists k :: k in vs && vs[k].vehicleId == vehicleId
  }

  /** `findByStatus(AVAILABLE)`: exactly the rows whose status is
      AVAILABLE, unchanged. */
  function AvailableVehicles(vs: map<int, Vehicle>): (r: map<int, Vehicle>)
    ensures forall k :: k in r <==> k in vs && vs[k].status == AVAILABLE
    ensures forall k :: k in r ==> r[k] == vs[k]
  {
    map k | k in vs && vs[k].status == AVAILABLE :: vs[k]
  }

  /** The status a request sets: the constant named by `name` when one is
      given, failing as `valueOf` does on an unknown name, and `fallback`
      when the request carries none. */
  function RequestedStatus(name: Option<string>, fallback: VehicleStatus): (r: Result<VehicleStatus, ServiceError>)
    ensures name.None? ==> r == Success(fallback)
    ensures name.Some? ==> (r.Success? <==> exists s :: StatusName(s) == name.value)
    ensures name.Some? && r.Success? ==> StatusName(r.value) == name.value
    ensures r.Failure? ==> name.Some? && r.error == UnknownStatus(name.value)
  {
    match name
    case None => Success(fallback)
    case Some(n) =>
      match ParseStatus(n)
      case Some(s) => Success(s)
      case None => Failure(UnknownStatus(n))
  }

  /** `userRepository.findById(id)` is present and its `userType` is
      exactly "driver" (a null type is not). */
  predicate IsDriver(users: map<int, User>, id: int)
  {
    id in users && users[id].userType == Some(DRIVER_TYPE)
  }

  function DriverName(u: User): string
  {
    u.firstName + " " + u.lastName
  }

  /** The row `createVehicle` saves under the key `key`: the request's
      fields, the given status, the driver only when the id names a driver,
      and both timestamps at `now`. */
  function NewVehicle(req: VehicleRequest, status: VehicleStatus, users: map<int, User>, key: int, now: int): Vehicle
  {
    var driver := if req.assignedDriverId.Some? && IsDriver(users, req.assignedDriverId.value)
                  then req.assignedDriverId else None;
    Vehicle(
      key, req.vehicleId, req.vehicleType, req.model, req.capacity, req.fuelType,
      req.licensePlate, req.year, req.manufacturer, req.mileage,
      None, None,
      status, req.latitude, req.longitude, req.currentLocation,
      None, None, None,
      if driver.Some? then Some(DriverName(users[driver.value])) else None,
      None,
      EqualsIgnoreCase(req.fuelType, ELECTRIC),
      driver,
      now, now)
  }

  /** What `createVehicle` does to a table whose next generated key is
      `nextKey`: the saved row, or the exception. */
  function CreateOutcome(vs: map<int, Vehicle>, users: map<int, User>, nextKey: int, req: VehicleRequest, now: int)
    : Result<Vehicle, ServiceError>
  {
    if VehicleIdTaken(vs, req.vehicleId) then Failure(VehicleIdExists(req.vehicleId))
    else
      match RequestedStatus(req.status, AVAILABLE)
      case Failure(e) => Failure(e)
      case Success(s) => Success(NewVehicle(req, s, users, nextKey, now))
  }

  /** The row `updateVehicle` saves: the request's editable fields, the
      status only when the request names one, the driver replaced when the
      id names a driver, kept when it names anyone else, cleared when there
      is no id, and `lastUpdated` refreshed. */
  function UpdatedVehicle(v: Vehicle, req: VehicleRequest, status: VehicleStatus, users: map<int, User>, now: int): Vehicle
  {
    var driver :=
      match req.assignedDriverId
      case None => None
      case Some(id) => if IsDriver(users, id) then Some(id) else v.assignedDriver;
    var driverName :=
      match req.assignedDriverId
      case None => None
      case Some(id) => if IsDriver(users, id) then Some(DriverName(users[id])) else v.driverName;
    v.(vehicleType := req.vehicleType, model := req.model, capacity := req.capacity, fuelType := req.fuelType,
       licensePlate := req.licensePlate, year := req.year, manufacturer := req.manufacturer, mileage := req.mileage,
       latitude := req.latitude, longitude := req.longitude, currentLocation := req.currentLocation,
       status := status, isElectric := EqualsIgnoreCase(req.fuelType, ELECTRIC),
       assignedDriver := driver, driverName := driverName, lastUpdated := now)
  }

  /** What `updateVehicle(key, req)` does: the saved row, or the
      exception. */
  function UpdateOutcome(vs: map<int, Vehicle>, users: map<int, User>, key: int, req: VehicleRequest, now: int)
    : Result<Vehicle, ServiceError>
  {
    if key !in vs then Failure(VehicleNotFound)
    else
      match RequestedStatus(req.status, vs[key].status)
      case Failure(e) => Failure(e)
      case Success(s) => Success(UpdatedVehicle(vs[key], req, s, users, now))
  }

  /** The row `updateVehicleLocation` saves. */
  function MovedVehicle(v: Vehicle, latitude: real, longitude: real, location: Option<string>, now: int): Vehicle
  {
    v.(latitude := latitude, longitude := longitude, currentLocation := location, lastUpdated := now)
  }

  /** `createVehicle`: the row is stored under the next generated key. */
  method CreateVehicle(db: Database, req: VehicleRequest, now: int) returns (r: Result<Vehicle, ServiceError>)
    requires db.Valid()
    modifies db
    ensures db.Valid()
    ensures r == CreateOutcome(old(db.vehicles), old(db.users), old(db.nextVehicleKey), req, now)
    ensures r.Failure? ==> db.vehicles == old(db.vehicles) && db.nextVehicleKey == old(db.nextVehicleKey)
    ensures r.Success? ==> db.vehicles == old(db.vehicles)[r.value.id := r.value]
                           && db.nextVehicleKey == old(db.nextVehicleKey) + 1
    ensures db.users == old(db.users) && db.telemetry == old(db.telemetry)
  {
    if VehicleIdTaken(db.vehicles, req.vehicleId) {
      return Failure(VehicleIdExists(req.vehicleId));
    }
    var status := RequestedStatus(req.status, AVAILABLE);
    if status.Failure? {
      return Failure(status.error);
    }
    var key := db.nextVehicleKey;
    var v := NewVehicle(req, status.value, db.users, key, now);
    NewRowKeepsValid(db.vehicles, db.nextVehicleKey, v);
    db.vehicles := db.vehicles[key := v];
    db.nextVehicleKey := key + 1;
    r := Success(v);
  }

  /** `updateVehicle`: the row keeps its key and `vehicleId`. */
  method UpdateVehicle(db: Database, key: int, req: VehicleRequest, now: int) returns (r: Result<Vehicle, ServiceError>)
    requires db.Valid()
    modifies db
    ensures db.Valid()
    ensures r == UpdateOutcome(old(db.vehicles), old(db.users), key, req, now)
    ensures r.Failure? ==> db.vehicles == old(db.vehicles)
    ensures r.Success? ==> db.vehicles == old(db.vehicles)[key := r.value]
    ensures db.users == old(db.users) && db.telemetry == old(db.telemetry)
    ensures db.nextVehicleKey == old(db.nextVehicleKey)
  {
    if key !in db.vehicles {
      return Failure(VehicleNotFound);
    }
    var v := db.vehicles[key];
    var status := RequestedStatus(req.status, v.status);
    if status.Failure? {
      return Failure(status.error);
    }
    var updated := UpdatedVehicle(v, req, status.value, db.users, now);
    SameIdentityKeepsValid(db.vehicles, db.nextVehicleKey, key, updated);
    db.vehicles := db.vehicles[key := updated];
    r := Success(updated);
  }

  /** `updateVehicleLocation`: looked up by `vehicleId`; only the position,
      the location text and `lastUpdated` change. */
  method UpdateVehicleLocation(db: Database, vehicleId: string, latitude: real, longitude: real,
                               location: Option<string>, now: int)
    returns (r: Result<Vehicle, ServiceError>)
    requires db.Valid()
    modifies db
    ensures db.Valid()
    ensures r.Failure? <==> !VehicleIdTaken(old(db.vehicles), vehicleId)
    ensures r.Failure? ==> r.error == VehicleNotFound && db.vehicles == old(db.vehicles)
    ensures r.Success? ==>
      && r.value.id in old(db.vehicles)
      && old(db.vehicles)[r.value.id].vehicleId == vehicleId
      && r.value == MovedVehicle(old(db.vehicles)[r.value.id], latitude, longitude, location, now)
      && db.vehicles == old(db.vehicles)[r.value.id := r.value]
    ensures db.users == old(db.users) && db.telemetry == old(db.telemetry)
    ensures db.nextVehicleKey == old(db.nextVehicleKey)
  {
    if !VehicleIdTaken(db.vehicles, vehicleId) {
      return Failure(VehicleNotFound);
    }
    var key :| key in db.vehicles && db.vehicles[key].vehicleId == vehicleId;
    var moved := MovedVehicle(db.vehicles[key], latitude, longitude, location, now);
    SameIdentityKeepsValid(db.vehicles, db.nextVehicleKey, key, moved);
    db.vehicles := db.vehicles[key := moved];
    r := Success(moved);
  }

  /** `deleteVehicle`: fails when the key is absent, otherwise removes that
      row and no other. */
  method DeleteVehicle(db: Database, key: int) returns (r: Result<(), ServiceError>)
    requires db.Valid()
    modifies db
    ensures db.Valid()
    ensures r.Failure? <==> key !in old(db.vehicles)
    ensures r.Failure? ==> r.error == VehicleNotFound && db.vehicles == old(db.vehicles)
    ensures r.Success? ==> db.vehicles == old(db.vehicles) - {key}
    ensures db.users == old(db.users) && db.telemetry == old(db.telemetry)
    ensures db.nextVehicleKey == old(db.nextVehicleKey)
  {
    if key !in db.vehicles {
      return Failure(VehicleNotFound);
    }
    db.vehicles := db.vehicles - {key};
    r := Success(());
  }

  /** Adding a row with a fresh `vehicleId` under the next key keeps the
      table well formed. */
  lemma NewRowKeepsValid(vs: map<int, Vehicle>, nextKey: int, v: Vehicle)
    requires WellKeyed(vs, nextKey)
    requires UniqueVehicleIds(vs)
    requires v.id == nextKey && !VehicleIdTaken(vs, v.vehicleId)
    ensures WellKeyed(vs[nextKey := v], nextKey + 1)
    ensures UniqueVehicleIds(vs[nextKey := v])
  {
  }

  /** Replacing a row by one with the same key and `vehicleId` keeps the
      table well formed. */
  lemma SameIdentityKeepsValid(vs: map<int, Vehicle>, nextKey: int, key: int, v: Vehicle)
    requires WellKeyed(vs, nextKey)
    requires UniqueVehicleIds(vs)
    requires key in vs && v.id == key && v.vehicleId == vs[key].vehicleId
    ensures WellKeyed(vs[key := v], nextKey)
    ensures UniqueVehicleIds(vs[key := v])
  {
  }
  /** `createVehicle` fails exactly on a taken `vehicleId` (checked first)
      or an unknown status name; otherwise the row gets the next key, the
      request's `vehicleId`, the named status or AVAILABLE when none is
      named, and both timestamps at `now`. */
  lemma CreateOutcomeCases(vs: map<int, Vehicle>, users: map<int, User>, nextKey: int, req: VehicleRequest, now: int)
    ensures CreateOutcome(vs, users, nextKey, req, now).Failure? <==>
      VehicleIdTaken(vs, req.vehicleId) || (req.status.Some? && forall s :: StatusName(s) != req.status.value)
    ensures VehicleIdTaken(vs, req.vehicleId) ==>
      CreateOutcome(vs, users, nextKey, req, now) == Failure(VehicleIdExists(req.vehicleId))
    ensures !VehicleIdTaken(vs, req.vehicleId) && req.status.None? ==>
      CreateOutcome(vs, users, nextKey, req, now).Success? && CreateOutcome(vs, users, nextKey, req, now).value.status == AVAILABLE
    ensures CreateOutcome(vs, users, nextKey, req, now).Success? ==>
      var v := CreateOutcome(vs, users, nextKey, req, now).value;
      && v.id == nextKey && v.vehicleId == req.vehicleId
      && (req.status.Some? ==> StatusName(v.status) == req.status.value)
      && v.createdAt == now && v.lastUpdated == now
  {
  }

  /** `valueOf` is case-sensitive: a lower-case name is refused. */
  lemma StatusNameIsCaseSensitive()
    ensures RequestedStatus(Some("available"), AVAILABLE) == Failure(UnknownStatus("available"))
    ensures RequestedStatus(Some("EN_ROUTE"), AVAILABLE) == Success(EN_ROUTE)
  {
  }

  /** The lower-case form of "electric" is itself. */
  lemma ElectricIsLowerCase()
    ensures ToLower(ELECTRIC) == ELECTRIC
  {
    var lower := ToLower(ELECTRIC);
    assert |lower| == |ELECTRIC|;
    forall i | 0 <= i < |ELECTRIC|
      ensures lower[i] == ELECTRIC[i]
    {
      assert lower[i] == LowerChar(ELECTRIC[i]);
    }
  }

  /** `equalsIgnoreCase("electric")`: eight characters that lower-case to
      the letters of "electric" one by one. */
  lemma ElectricIgnoringCase(fuelType: string)
    ensures EqualsIgnoreCase(fuelType, ELECTRIC) <==>
      |fuelType| == |ELECTRIC| && forall i :: 0 <= i < |fuelType| ==> LowerChar(fuelType[i]) == ELECTRIC[i]
  {
    ElectricIsLowerCase();
    var lower := ToLower(fuelType);
    if |fuelType| == |ELECTRIC| && forall i :: 0 <= i < |fuelType| ==> LowerChar(fuelType[i]) == ELECTRIC[i] {
      assert forall i :: 0 <= i < |lower| ==> lower[i] == ELECTRIC[i];
      assert lower == ELECTRIC;
    }
  }

  /** Create and update compute `isElectric` the same way, from the
      request's fuel type ignoring case: "Electric" and "ELECTRIC" are
      electric, "hybrid" is not. */
  lemma {:induction false} IsElectricIffFuelTypeElectric(v: Vehicle, req: VehicleRequest, status: VehicleStatus,
                                                         users: map<int, User>, key: int, now: int)
    ensures NewVehicle(req, status, users, key, now).isElectric <==>
      |req.fuelType| == |ELECTRIC| && forall i :: 0 <= i < |req.fuelType| ==> LowerChar(req.fuelType[i]) == ELECTRIC[i]
    ensures UpdatedVehicle(v, req, status, users, now).isElectric == NewVehicle(req, status, users, key, now).isElectric
    ensures EqualsIgnoreCase("Electric", ELECTRIC) && EqualsIgnoreCase("ELECTRIC", ELECTRIC)
    ensures !EqualsIgnoreCase("hybrid", ELECTRIC)
  {
    ElectricIgnoringCase(req.fuelType);
    ElectricIgnoringCase("Electric");
    ElectricIgnoringCase("ELECTRIC");
    ElectricIgnoringCase("hybrid");
  }

  /** On create a driver is assigned only when the id names an existing
      user of type "driver", and then the name is first and last name
      joined by a space; otherwise neither column is set. */
  lemma CreateAssignsOnlyDrivers(req: VehicleRequest, status: VehicleStatus, users: map<int, User>, key: int, now: int)
    ensures var v := NewVehicle(req, status, users, key, now);
      && (v.assignedDriver.Some? <==> req.assignedDriverId.Some? && IsDriver(users, req.assignedDriverId.value))
      && (v.assignedDriver.Some? ==>
            (v.assignedDriver == req.assignedDriverId
             && v.driverName == Some(users[v.assignedDriver.value].firstName + " " + users[v.assignedDriver.value].lastName)))
      && (v.assignedDriver.None? ==> v.driverName.None?)
  {
  }

  /** On update no driver id clears both driver columns, the id of a driver
      replaces them, and the id of anyone else leaves them as they were. */
  lemma UpdateDriverCases(v: Vehicle, req: VehicleRequest, status: VehicleStatus, users: map<int, User>, now: int)
    ensures req.assignedDriverId.None? ==>
      UpdatedVehicle(v, req, status, users, now).assignedDriver.None?
      && UpdatedVehicle(v, req, status, users, now).driverName.None?
    ensures req.assignedDriverId.Some? && IsDriver(users, req.assignedDriverId.value) ==>
      UpdatedVehicle(v, req, status, users, now).assignedDriver == req.assignedDriverId
      && UpdatedVehicle(v, req, status, users, now).driverName == Some(DriverName(users[req.assignedDriverId.value]))
    ensures req.assignedDriverId.Some? && !IsDriver(users, req.assignedDriverId.value) ==>
      UpdatedVehicle(v, req, status, users, now).assignedDriver == v.assignedDriver
      && UpdatedVehicle(v, req, status, users, now).driverName == v.driverName
  {
  }

  /** `updateVehicle` fails exactly on an unknown key or an unknown status
      name. A saved row keeps its key, `vehicleId`, creation time and the
      columns the request does not carry, keeps its status when the
      request names none, and has `lastUpdated` at `now`. */
  lemma UpdateOutcomeCases(vs: map<int, Vehicle>, users: map<int, User>, key: int, req: VehicleRequest, now: int)
    ensures UpdateOutcome(vs, users, key, req, now).Failure? <==>
      key !in vs || (req.status.Some? && forall s :: StatusName(s) != req.status.value)
    ensures key !in vs ==> UpdateOutcome(vs, users, key, req, now) == Failure(VehicleNotFound)
    ensures UpdateOutcome(vs, users, key, req, now).Success? ==>
      var before, after := vs[key], UpdateOutcome(vs, users, key, req, now).value;
      && after.id == before.id && after.vehicleId == before.vehicleId && after.createdAt == before.createdAt
      && after.lastServiceDate == before.lastServiceDate && after.nextServiceDate == before.nextServiceDate
      && after.destination == before.destination && after.batteryLevel == before.batteryLevel
      && after.speed == before.speed && after.fuelLevel == before.fuelLevel
      && (req.status.None? ==> after.status == before.status)
      && (req.status.Some? ==> StatusName(after.status) == req.status.value)
      && after.lastUpdated == now
  {
  }

  /** A location update changes the position, the location text and
      `lastUpdated`, and nothing else. */
  lemma MoveChangesOnlyPosition(v: Vehicle, latitude: real, longitude: real, location: Option<string>, now: int)
    ensures var m := MovedVehicle(v, latitude, longitude, location, now);
      && m.latitude == latitude && m.longitude == longitude && m.currentLocation == location && m.lastUpdated == now
      && m.(latitude := v.latitude, longitude := v.longitude, currentLocation := v.currentLocation, lastUpdated := v.lastUpdated) == v
  {
  }

  /** A vehicle created without a status is listed as available at once; one
      created with another status is not. */
  lemma CreatedVehicleAvailability(vs: map<int, Vehicle>, users: map<int, User>, nextKey: int, req: VehicleRequest, now: int)
    requires CreateOutcome(vs, users, nextKey, req, now).Success?
    ensures var v := CreateOutcome(vs, users, nextKey, req, now).value;
      (nextKey in AvailableVehicles(vs[nextKey := v])) <==> req.status.None? || req.status == Some("AVAILABLE")
  {
  }

  /** Deleting a row removes it from the available list and changes the
      list in no other way. */
  lemma DeleteFromAvailable(vs: map<int, Vehicle>, key: int)
    ensures AvailableVehicles(vs - {key}) == AvailableVehicles(vs) - {key}
  {
  }
}
