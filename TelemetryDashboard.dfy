/** The pure rules of the telemetry dashboard screen
    (src/components/TelemetryDashboard.tsx): the health classification of a
    reading, the search/status filter over the readings and the colour of a
    vehicle's map marker. */
module TelemetryDashboard {
  import opened Seqs
  import opened Text
  import opened LocalStore

  datatype Health = HEALTHY | WARNING | CRITICAL

  function HealthName(h: Health): string
  {
    match h
    case HEALTHY => "HEALTHY"
    case WARNING => "WARNING"
    case CRITICAL => "CRITICAL"
  }

  /** Any one of the critical thresholds is crossed. */
  predicate CriticalReading(t: Telemetry)
  {
    t.fuelLevel < 20.0 || t.engineTemperature > 100.0 || t.batteryVoltage < 12.0 || t.oilPressure < 25.0
  }

  /** Any one of the warning thresholds is crossed; oil pressure has none. */
  predicate WarningReading(t: Telemetry)
  {
    t.fuelLevel < 40.0 || t.engineTemperature > 95.0 || t.batteryVoltage < 12.3
  }

  /** `getHealthStatus`: critical before warning before healthy. */
  function HealthStatus(t: Telemetry): (h: Health)
    ensures h == CRITICAL <==> CriticalReading(t)
    ensures h == WARNING <==> !CriticalReading(t) && WarningReading(t)
    ensures h == HEALTHY <==> !CriticalReading(t) && !WarningReading(t)
  {
    if t.fuelLevel < 20.0 || t.engineTemperature > 100.0 || t.batteryVoltage < 12.0 || t.oilPressure < 25.0 then
      CRITICAL
    else if t.fuelLevel < 40.0 || t.engineTemperature > 95.0 || t.batteryVoltage < 12.3 then
      WARNING
    else
      HEALTHY
  }

  function Severity(h: Health): nat
  {
    match h
    case HEALTHY => 0
    case WARNING => 1
    case CRITICAL => 2
  }

  /** Less fuel never makes a reading healthier, and oil pressure at or
      above the critical threshold has no influence on the status. */
  lemma HealthMonotone(t: Telemetry, fuel: real, oil: real)
    ensures fuel <= t.fuelLevel ==> Severity(HealthStatus(t.(fuelLevel := fuel))) >= Severity(HealthStatus(t))
    ensures oil >= 25.0 && t.oilPressure >= 25.0 ==> HealthStatus(t.(oilPressure := oil)) == HealthStatus(t)
  {
  }

  /** A reading the store's simulation produces has its sensors in their
      redrawn ranges, none of which crosses a threshold, so its status is
      decided by fuel alone. */
  lemma SimulatedHealthByFuel(t: Telemetry)
    requires SensorsInRange(t)
    ensures HealthStatus(t) == CRITICAL <==> t.fuelLevel < 20.0
    ensures HealthStatus(t) == WARNING <==> 20.0 <= t.fuelLevel < 40.0
    ensures HealthStatus(t) == HEALTHY <==> t.fuelLevel >= 40.0
  {
  }

  /** The status filter: 'ALL' or the status's own name. */
  predicate StatusMatches(statusFilter: string, h: Health)
  {
    statusFilter == "ALL" || HealthName(h) == statusFilter
  }

  /** The predicate of `filteredTelemetry`. */
  predicate ShowReading(t: Telemetry, searchTerm: string, statusFilter: string)
  {
    Contains(ToLower(t.vehicleId), ToLower(searchTerm)) && StatusMatches(statusFilter, HealthStatus(t))
  }

  function Shown(searchTerm: string, statusFilter: string): Telemetry -> bool
  {
    (t: Telemetry) => ShowReading(t, searchTerm, statusFilter)
  }

  /** `filteredTelemetry`: exactly the readings whose vehicle id contains the
      search term, ignoring case, and whose status passes the filter, in
      their original order. */
  function FilteredTelemetry(ts: seq<Telemetry>, searchTerm: string, statusFilter: string): (r: seq<Telemetry>)
    ensures forall i :: 0 <= i < |r| ==> r[i] in ts && ShowReading(r[i], searchTerm, statusFilter)
    ensures forall i :: 0 <= i < |ts| && ShowReading(ts[i], searchTerm, statusFilter) ==> ts[i] in r
    ensures IsSubsequence(r, ts)
    ensures forall x :: x in ts ==>
      multiset(r)[x] == if ShowReading(x, searchTerm, statusFilter) then multiset(ts)[x] else 0
  {
    FilterMultiplicity(ts, Shown(searchTerm, statusFilter));
    Filter(ts, Shown(searchTerm, statusFilter))
  }

  /** With an empty search and the 'ALL' filter every reading is shown. */
  lemma {:induction false} UnfilteredShowsAll(ts: seq<Telemetry>)
    ensures FilteredTelemetry(ts, "", "ALL") == ts
  {
    forall t | t in ts
      ensures Shown("", "ALL")(t)
    {
      assert ToLower("") == "";
      assert ToLower(t.vehicleId) != [] ==> Contains(ToLower(t.vehicleId), "");
    }
    FilterKeepsAll(ts, Shown("", "ALL"));
  }

  /** Choosing a status keeps exactly the readings with that status: the
      'CRITICAL' filter over an empty search shows the critical readings. */
  lemma {:induction false} CriticalFilter(ts: seq<Telemetry>)
    ensures forall i :: 0 <= i < |FilteredTelemetry(ts, "", "CRITICAL")| ==>
      CriticalReading(FilteredTelemetry(ts, "", "CRITICAL")[i])
    ensures forall i :: 0 <= i < |ts| && CriticalReading(ts[i]) ==> ts[i] in FilteredTelemetry(ts, "", "CRITICAL")
  {
    forall i | 0 <= i < |ts| && CriticalReading(ts[i])
      ensures ShowReading(ts[i], "", "CRITICAL")
    {
      assert ToLower("") == "";
      assert ToLower(ts[i].vehicleId) != [] ==> Contains(ToLower(ts[i].vehicleId), "");
    }
  }

  const MOVING_COLOUR: string := "#14b8a6"
  const CRITICAL_COLOUR: string := "#ef4444"
  const IDLE_COLOUR: string := "#6b7280"

  /** The marker colour in `createVehicleIcon`: moving faster than 5 wins
      over everything, then a critical status, then grey. */
  function MarkerColour(status: string, speed: real): (c: string)
    ensures c == MOVING_COLOUR <==> speed > 5.0
    ensures c == CRITICAL_COLOUR <==> speed <= 5.0 && status == "CRITICAL"
    ensures c == IDLE_COLOUR <==> speed <= 5.0 && status != "CRITICAL"
  {
    if speed > 5.0 then MOVING_COLOUR else if status == "CRITICAL" then CRITICAL_COLOUR else IDLE_COLOUR
  }

  /** A moving vehicle's marker never shows red, however critical its
      reading; a red marker means a critical reading at low speed. */
  lemma RedMarkerMeansStoppedAndCritical(t: Telemetry)
    ensures MarkerColour(HealthName(HealthStatus(t)), t.speed) == CRITICAL_COLOUR
      <==> t.speed <= 5.0 && CriticalReading(t)
  {
  }
}
