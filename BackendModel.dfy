/** The persistent entities of the Spring backend
    (backend/.../model/Vehicle.java, VehicleTelemetry.java,
    dto/VehicleRequest.java) and the database the services work on: the
    `vehicles` table keyed by its generated primary key, the users the
    vehicle service reads, and the append-only `vehicle_telemetry` table.
    Instants are integer milliseconds; a nullable column is an `Option`. */
module BackendModel {
  import opened Wrappers

  /** `Vehicle.VehicleStatus`. */
  datatype VehicleStatus = AVAILABLE | EN_ROUTE | LOADING | MAINTENANCE | OFFLINE | OUT_OF_SERVICE

  function StatusName(s: VehicleStatus): string
  {
    match s
    case AVAILABLE => "AVAILABLE"
    case EN_ROUTE => "EN_ROUTE"
    case LOADING => "LOADING"
    case MAINTENANCE => "MAINTENANCE"
    case OFFLINE => "OFFLINE"
    case OUT_OF_SERVICE => "OUT_OF_SERVICE"
  }

  /** `VehicleStatus.valueOf`: the constant whose name is exactly `name`
      (case-sensitive), or nothing when `valueOf` would throw. */
  function ParseStatus(name: string): (r: Option<VehicleStatus>)
    ensures r.Some? ==> StatusName(r.value) == name
    ensures r.None? ==> forall s: VehicleStatus :: StatusName(s) != name
  {
    match name
    case "AVAILABLE" => Some(AVAILABLE)
    case "EN_ROUTE" => Some(EN_ROUTE)
    case "LOADING" => Some(LOADING)
    case "MAINTENANCE" => Some(MAINTENANCE)
    case "OFFLINE" => Some(OFFLINE)
    case "OUT_OF_SERVICE" => Some(OUT_OF_SERVICE)
    case _ => None
  }

  /** Every constant's name parses back to the constant. */
  lemma ParseStatusName(s: VehicleStatus)
    ensures ParseStatus(StatusName(s)) == Some(s)
  {
  }

  /** `VehicleTelemetry.MaintenanceStatus`. */
  datatype MaintenanceStatus = HEALTHY | DUE | CRITICAL

  /** The alert a reading carries; `AlertText` renders it. */
  datatype Alert = LowFuel(fuelLevel: real) | LowBattery(batteryLevel: real) | ImmediateMaintenance | MaintenanceDueSoon

  /** The fields of a user the vehicle service reads. */
  datatype User = User(userType: Option<string>, firstName: string, lastName: string)

  /** A row of the `vehicles` table; `assignedDriver` holds the key of the
      assigned user. */
  datatype Vehicle = Vehicle(
    id: int,
    vehicleId: string,
    vehicleType: string,
    model: string,
    capacity: int,
    fuelType: string,
    licensePlate: Option<string>,
    year: Option<int>,
    manufacturer: Option<string>,
    mileage: Option<real>,
    lastServiceDate: Option<int>,
    nextServiceDate: Option<int>,
    status: VehicleStatus,
    latitude: real,
    longitude: real,
    currentLocation: Option<string>,
    destination: Option<string>,
    batteryLevel: Option<int>,
    speed: Option<real>,
    driverName: Option<string>,
    fuelLevel: Option<real>,
    isElectric: bool,
    assignedDriver: Option<int>,
    lastUpdated: int,
    createdAt: int)

  /** A row of the `vehicle_telemetry` table. */
  datatype Telemetry = Telemetry(
    vehicleId: string,
    speed: real,
    fuelLevel: real,
    batteryLevel: real,
    mileage: real,
    latitude: real,
    longitude: real,
    timestamp: int,
    maintenanceStatus: Option<MaintenanceStatus>,
    engineTemperature: Option<real>,
    tirePressure: Option<real>,
    alertMessage: Option<Alert>)

  /** The body of a create or update request. */
  datatype VehicleRequest = VehicleRequest(
    vehicleId: string,
    vehicleType: string,
    model: string,
    capacity: int,
    fuelType: string,
    licensePlate: Option<string>,
    year: Option<int>,
    manufacturer: Option<string>,
    mileage: Option<real>,
    latitude: real,
    longitude: real,
    currentLocation: Option<string>,
    status: Option<string>,
    assignedDriverId: Option<int>)

  /** The tables the services read and write. */
  class Database {
    var vehicles: map<int, Vehicle>
    var users: map<int, User>
    var telemetry: seq<Telemetry>
    /** The next key the `IDENTITY` column hands out. */
    var nextVehicleKey: int

    /** Each row is stored under its own key, keys already handed out are
        below the counter, and the `vehicleId` column is unique. */
    predicate Valid()
      reads this
    {
      && WellKeyed(vehicles, nextVehicleKey)
      && UniqueVehicleIds(vehicles)
    }
  }

  /** Every row sits under its own primary key, below `nextKey`. */
  predicate WellKeyed(vs: map<int, Vehicle>, nextKey: int)
  {
    forall k :: k in vs ==> vs[k].id == k && k < nextKey
  }

  predicate UniqueVehicleIds(vs: map<int, Vehicle>)
  {
    forall a, b :: a in vs && b in vs && vs[a].vehicleId == vs[b].vehicleId ==> a == b
  }
}
