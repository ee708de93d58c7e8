/** The logic of backend/.../controller/VehicleTelemetryController.java: the
    dashboard aggregate over the latest reading of every vehicle, and the
    ok / not-found answer for one vehicle's latest reading. The other
    endpoints hand a repository query back unchanged. Doubles are reals, so
    the averages are exact before rounding. */
module TelemetryController {
  import opened Wrappers
  import opened Seqs
  import opened BackendModel
  import opened TelemetryRepository
  import opened TelemetryService

  /** The body of `/dashboard/stats`. */
  datatype DashboardStats = DashboardStats(
    totalVehicles: nat,
    activeVehicles: nat,
    averageSpeed: real,
    averageFuelLevel: real,
    maintenanceStats: map<string, nat>)

  /** A reading counts as an active vehicle above this speed. */
  const ACTIVE_SPEED: real := 5.0

  /** `Math.round(x * 10.0) / 10.0`: `x` to the nearest tenth, halves
      rounded up. */
  function RoundTenth(x: real): (r: real)
    ensures x - 0.05 < r <= x + 0.05
    ensures (r * 10.0).Floor as real == r * 10.0
  {
    (x * 10.0 + 0.5).Floor as real / 10.0
  }

  /** Rounding to tenths never reverses an order. */
  lemma RoundTenthMonotone(x: real, y: real)
    requires x <= y
    ensures RoundTenth(x) <= RoundTenth(y)
  {
    var a, b := (x * 10.0 + 0.5).Floor, (y * 10.0 + 0.5).Floor;
    assert a as real <= x * 10.0 + 0.5 <= y * 10.0 + 0.5 < b as real + 1.0;
    assert a <= b;
  }

  /** A number that is already a whole number of tenths is left as it is;
      in particular rounding is idempotent. */
  lemma RoundTenthFixesTenths(n: int)
    ensures RoundTenth(n as real / 10.0) == n as real / 10.0
  {
    assert (n as real / 10.0) * 10.0 + 0.5 == n as real + 0.5;
    assert (n as real + 0.5).Floor == n;
  }

  lemma RoundTenthIdempotent(x: real)
    ensures RoundTenth(RoundTenth(x)) == RoundTenth(x)
  {
    var n := (x * 10.0 + 0.5).Floor;
    RoundTenthFixesTenths(n);
  }

  function Speed(): Telemetry -> real
  {
    (t: Telemetry) => t.speed
  }

  function FuelLevel(): Telemetry -> real
  {
    (t: Telemetry) => t.fuelLevel
  }

  /** `mapToDouble(f).average().orElse(0.0)`: the mean of `f` over the
      readings, and 0.0 for none. */
  function Average(ts: seq<Telemetry>, f: Telemetry -> real): (a: real)
    ensures ts == [] ==> a == 0.0
    ensures ts != [] ==> a * |ts| as real == Sum(ts, f)
  {
    if ts == [] then 0.0 else Sum(ts, f) / |ts| as real
  }

  /** The mean lies between any bounds of the values it averages. */
  lemma AverageWithin(ts: seq<Telemetry>, f: Telemetry -> real, lo: real, hi: real)
    requires ts != []
    requires forall i :: 0 <= i < |ts| ==> lo <= f(ts[i]) <= hi
    ensures lo <= Average(ts, f) <= hi
  {
    SumBounds(ts, f, lo, hi);
    var n, a := |ts| as real, Average(ts, f);
    assert (a - lo) * n >= 0.0 && (hi - a) * n >= 0.0;
  }

  function IsActive(): Telemetry -> bool
  {
    (t: Telemetry) => t.speed > ACTIVE_SPEED
  }

  /** The readings faster than the threshold are as many as the positions
      holding one. */
  lemma ActiveCount(ts: seq<Telemetry>)
    ensures |Filter(ts, IsActive())| == |set i | 0 <= i < |ts| && ts[i].speed > ACTIVE_SPEED|
  {
    FilterCount(ts, IsActive());
    assert PositionsWhere(ts, IsActive()) == set i | 0 <= i < |ts| && ts[i].speed > ACTIVE_SPEED;
  }

  /** `getTelemetryDashboardStats` over the telemetry table: the size of
      the latest-for-all list, how many of those readings go faster than
      5, both averages over that list rounded to tenths, and the
      maintenance counts over the whole table. */
  function DashboardStatsOf(ts: seq<Telemetry>): (s: DashboardStats)
    ensures s.totalVehicles == |LatestForAllVehicles(ts)|
    ensures s.activeVehicles <= s.totalVehicles
    ensures var latest := LatestForAllVehicles(ts);
      s.activeVehicles == |set i | 0 <= i < |latest| && latest[i].speed > ACTIVE_SPEED|
    ensures var latest := LatestForAllVehicles(ts);
      latest != [] ==>
        s.averageSpeed == RoundTenth(Sum(latest, Speed()) / |latest| as real) &&
        s.averageFuelLevel == RoundTenth(Sum(latest, FuelLevel()) / |latest| as real)
    ensures LatestForAllVehicles(ts) == [] ==> s.averageSpeed == 0.0 && s.averageFuelLevel == 0.0
    ensures s.maintenanceStats == MaintenanceStatusCounts(ts)
  {
    var latest := LatestForAllVehicles(ts);
    ActiveCount(latest);
    DashboardStats(
      |latest|,
      |Filter(latest, IsActive())|,
      RoundTenth(Average(latest, Speed())),
      RoundTenth(Average(latest, FuelLevel())),
      MaintenanceStatusCounts(ts))
  }

  /** The latest-for-all list is empty exactly when the table is, so the
      dashboard shows zeros exactly for an empty table. */
  lemma EmptyDashboardIffEmptyTable(ts: seq<Telemetry>)
    ensures LatestForAllVehicles(ts) == [] <==> ts == []
    ensures DashboardStatsOf(ts).totalVehicles == 0 <==> ts == []
    ensures ts == [] ==> DashboardStatsOf(ts).averageSpeed == 0.0 && DashboardStatsOf(ts).averageFuelLevel == 0.0
  {
    if ts != [] {
      EveryVehicleHasLatest(ts, ts[0]);
    }
  }

  /** No active vehicle exactly when no latest reading is faster than 5,
      and all of them active exactly when every latest reading is. */
  lemma ActiveVehiclesCount(ts: seq<Telemetry>)
    ensures DashboardStatsOf(ts).activeVehicles == 0 <==>
      forall t :: t in LatestForAllVehicles(ts) ==> t.speed <= ACTIVE_SPEED
    ensures DashboardStatsOf(ts).activeVehicles == DashboardStatsOf(ts).totalVehicles <==>
      forall t :: t in LatestForAllVehicles(ts) ==> t.speed > ACTIVE_SPEED
  {
    var latest := LatestForAllVehicles(ts);
    FilterKeepsAll(latest, IsActive());
    FilterEmptyIff(latest, IsActive());
  }

  /** When every reading's fuel level is a percentage the average fuel
      level shown is one too, and when every speed lies in `[0, 80]` so
      does the average speed. */
  lemma DashboardAveragesInRange(ts: seq<Telemetry>)
    ensures (forall t :: t in ts ==> 0.0 <= t.fuelLevel <= 100.0) ==>
      0.0 <= DashboardStatsOf(ts).averageFuelLevel <= 100.0
    ensures (forall t :: t in ts ==> 0.0 <= t.speed <= 80.0) ==>
      0.0 <= DashboardStatsOf(ts).averageSpeed <= 80.0
  {
    var latest := LatestForAllVehicles(ts);
    RoundTenthFixesTenths(0);
    RoundTenthFixesTenths(800);
    RoundTenthFixesTenths(1000);
    if latest != [] {
      if forall t :: t in ts ==> 0.0 <= t.fuelLevel <= 100.0 {
        AverageWithin(latest, FuelLevel(), 0.0, 100.0);
        RoundTenthMonotone(0.0, Average(latest, FuelLevel()));
        RoundTenthMonotone(Average(latest, FuelLevel()), 100.0);
      }
      if forall t :: t in ts ==> 0.0 <= t.speed <= 80.0 {
        AverageWithin(latest, Speed(), 0.0, 80.0);
        RoundTenthMonotone(0.0, Average(latest, Speed()));
        RoundTenthMonotone(Average(latest, Speed()), 80.0);
      }
    }
  }

  /** Two readings of one vehicle at the same instant are both latest, so
      `totalVehicles` counts that vehicle twice. */
  lemma TiedReadingsCountTwice(t: Telemetry)
    ensures DashboardStatsOf([t, t.(speed := t.speed + 1.0)]).totalVehicles == 2
  {
    var ts := [t, t.(speed := t.speed + 1.0)];
    assert IsLatestOfItsVehicle(ts, ts[0]) && IsLatestOfItsVehicle(ts, ts[1]);
    FilterKeepsAll(ts, LatestIn(ts));
  }

  const MS_PER_HOUR: int := 3600000

  /** The window of `/recent` when the request carries no `hours`. */
  const DEFAULT_HOURS: int := 1

  /** `/recent?hours=h`: the readings of the last `h` hours before `now`
      (one hour when the parameter is absent), the bound included, newest
      first. */
  function RecentTelemetryResponse(ts: seq<Telemetry>, now: int, hours: Option<int>): (r: seq<Telemetry>)
    ensures hours.Some? ==> forall x :: x in r <==> x in ts && now - x.timestamp <= hours.value * MS_PER_HOUR
    ensures hours.None? ==> forall x :: x in r <==> x in ts && now - x.timestamp <= MS_PER_HOUR
    ensures Ordered(r, true)
  {
    RecentTelemetry(ts, now - hours.GetOr(DEFAULT_HOURS) * MS_PER_HOUR)
  }

  /** The answer of `/vehicle/{vehicleId}/latest`. */
  datatype LatestResponse = Ok(body: Telemetry) | NotFound

  /** `getLatestTelemetryByVehicleId`: not found exactly when the vehicle
      has no reading, otherwise its newest reading. */
  function LatestTelemetryResponse(ts: seq<Telemetry>, vehicleId: string): (r: LatestResponse)
    ensures r.NotFound? <==> forall t :: t in ts ==> t.vehicleId != vehicleId
    ensures r.Ok? ==> r.body in ts && r.body.vehicleId == vehicleId && IsLatestOfItsVehicle(ts, r.body)
    ensures r.Ok? ==> r.body in LatestForAllVehicles(ts)
  {
    match LatestByVehicleId(ts, vehicleId)
    case None => NotFound
    case Some(t) => Ok(t)
  }
}
