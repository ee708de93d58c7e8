/** The queries of backend/.../repository/VehicleTelemetryRepository.java,
    each written as a function over the rows of the `vehicle_telemetry`
    table in insertion order. `ORDER BY timestamp` is a stable insertion
    sort; for the ordered queries the contracts promise only what SQL
    promises: the selected rows, each exactly as often as in the table, in
    timestamp order. The unordered latest-for-all query is modelled in
    table order. */
module TelemetryRepository {
  import opened Wrappers
  import opened Seqs
  import opened BackendModel

  /** `a` may come before `b`: newest first, or oldest first. */
  predicate Before(a: Telemetry, b: Telemetry, newestFirst: bool)
  {
    if newestFirst then a.timestamp >= b.timestamp else a.timestamp <= b.timestamp
  }

  predicate Ordered(s: seq<Telemetry>, newestFirst: bool)
  {
    forall i, j :: 0 <= i < j < |s| ==> Before(s[i], s[j], newestFirst)
  }

  function Insert(t: Telemetry, s: seq<Telemetry>, newestFirst: bool): (r: seq<Telemetry>)
    requires Ordered(s, newestFirst)
    ensures Ordered(r, newestFirst)
    ensures multiset(r) == multiset(s) + multiset{t}
    ensures forall x :: x in r <==> x == t || x in s
  {
    if s == [] || Before(t, s[0], newestFirst) then
      [t] + s
    else
      var rest := Insert(t, s[1..], newestFirst);
      assert forall x :: x in rest ==> Before(s[0], x, newestFirst);
      assert s == [s[0]] + s[1..];
      [s[0]] + rest
  }

  /** `ORDER BY t.timestamp` (`DESC` when `newestFirst`). */
  function SortByTimestamp(s: seq<Telemetry>, newestFirst: bool): (r: seq<Telemetry>)
    ensures Ordered(r, newestFirst)
    ensures multiset(r) == multiset(s)
    ensures |r| == |s|
    ensures forall x :: x in r <==> x in s
  {
    if s == [] then []
    else
      assert s == [s[0]] + s[1..];
      var r := Insert(s[0], SortByTimestamp(s[1..], newestFirst), newestFirst);
      assert |r| == |multiset(r)|;
      r
  }

  function OfVehicle(vehicleId: string): Telemetry -> bool
  {
    (t: Telemetry) => t.vehicleId == vehicleId
  }

  /** `findByVehicleIdOrderByTimestampDesc`: exactly the vehicle's readings,
      newest first. */
  function ByVehicleIdNewestFirst(ts: seq<Telemetry>, vehicleId: string): (r: seq<Telemetry>)
    ensures forall x :: x in r <==> x in ts && x.vehicleId == vehicleId
    ensures multiset(r) == multiset(Filter(ts, OfVehicle(vehicleId)))
    ensures Ordered(r, true)
  {
    var mine := Filter(ts, OfVehicle(vehicleId));
    assert forall x :: x in mine <==> x in ts && x.vehicleId == vehicleId by {
      forall x | x in ts && x.vehicleId == vehicleId
        ensures x in mine
      {
        var i :| 0 <= i < |ts| && ts[i] == x;
      }
    }
    SortByTimestamp(mine, true)
  }

  /** `findLatestByVehicleId` (`ORDER BY timestamp DESC LIMIT 1`): nothing
      exactly when the vehicle has no reading, otherwise one of its readings
      that no other of its readings is newer than. */
  function LatestByVehicleId(ts: seq<Telemetry>, vehicleId: string): (r: Option<Telemetry>)
    ensures r.None? <==> forall t :: t in ts ==> t.vehicleId != vehicleId
    ensures r.Some? ==> r.value in ts && r.value.vehicleId == vehicleId
    ensures r.Some? ==> forall t :: t in ts && t.vehicleId == vehicleId ==> t.timestamp <= r.value.timestamp
  {
    var newest := ByVehicleIdNewestFirst(ts, vehicleId);
    if newest == [] then None
    else
      assert forall t :: t in newest ==> Before(newest[0], t, true) by {
        forall t | t in newest
          ensures Before(newest[0], t, true)
        {
          var j :| 0 <= j < |newest| && newest[j] == t;
        }
      }
      Some(newest[0])
  }

  /** Readings of other vehicles appended to the table do not change a
      vehicle's latest reading. */
  lemma {:induction false} LatestIgnoresOtherVehicles(ts: seq<Telemetry>, extra: seq<Telemetry>, vehicleId: string)
    requires forall i :: 0 <= i < |extra| ==> extra[i].vehicleId != vehicleId
    ensures LatestByVehicleId(ts + extra, vehicleId) == LatestByVehicleId(ts, vehicleId)
  {
    FilterAppend(ts, extra, OfVehicle(vehicleId));
    assert Filter(ts + extra, OfVehicle(vehicleId)) == Filter(ts, OfVehicle(vehicleId));
  }

  /** The predicate of the `findLatestTelemetryForAllVehicles` subquery: no
      reading of the same vehicle is newer. */
  predicate IsLatestOfItsVehicle(ts: seq<Telemetry>, t: Telemetry)
  {
    forall u :: u in ts && u.vehicleId == t.vehicleId ==> u.timestamp <= t.timestamp
  }

  function LatestIn(ts: seq<Telemetry>): Telemetry -> bool
  {
    (t: Telemetry) => IsLatestOfItsVehicle(ts, t)
  }

  /** `findLatestTelemetryForAllVehicles`: the readings whose timestamp is
      the maximum of their vehicle's, in table order. Ties keep every tied
      reading. */
  function LatestForAllVehicles(ts: seq<Telemetry>): (r: seq<Telemetry>)
    ensures forall x :: x in r <==> x in ts && IsLatestOfItsVehicle(ts, x)
    ensures IsSubsequence(r, ts)
    ensures forall x :: x in ts ==> multiset(r)[x] == if IsLatestOfItsVehicle(ts, x) then multiset(ts)[x] else 0
  {
    var r := Filter(ts, LatestIn(ts));
    FilterMultiplicity(ts, LatestIn(ts));
    assert forall x :: x in ts && IsLatestOfItsVehicle(ts, x) ==> x in r by {
      forall x | x in ts && IsLatestOfItsVehicle(ts, x)
        ensures x in r
      {
        var i :| 0 <= i < |ts| && ts[i] == x;
      }
    }
    r
  }

  /** Every vehicle that has a reading appears in the latest-for-all list,
      with its newest reading. */
  lemma EveryVehicleHasLatest(ts: seq<Telemetry>, t: Telemetry)
    requires t in ts
    ensures exists u :: u in LatestForAllVehicles(ts) && u.vehicleId == t.vehicleId
    ensures LatestByVehicleId(ts, t.vehicleId).value in LatestForAllVehicles(ts)
  {
    var u := LatestByVehicleId(ts, t.vehicleId).value;
    assert IsLatestOfItsVehicle(ts, u);
    assert u in LatestForAllVehicles(ts);
  }

  function AtOrAfter(since: int): Telemetry -> bool
  {
    (t: Telemetry) => t.timestamp >= since
  }

  /** `findRecentTelemetry`: the readings at or after `since`, newest
      first. */
  function RecentTelemetry(ts: seq<Telemetry>, since: int): (r: seq<Telemetry>)
    ensures forall x :: x in r <==> x in ts && x.timestamp >= since
    ensures multiset(r) == multiset(Filter(ts, AtOrAfter(since)))
    ensures Ordered(r, true)
  {
    var recent := Filter(ts, AtOrAfter(since));
    assert forall x :: x in ts && x.timestamp >= since ==> x in recent by {
      forall x | x in ts && x.timestamp >= since
        ensures x in recent
      {
        var i :| 0 <= i < |ts| && ts[i] == x;
      }
    }
    SortByTimestamp(recent, true)
  }

  function OfVehicleSince(vehicleId: string, since: int): Telemetry -> bool
  {
    (t: Telemetry) => t.vehicleId == vehicleId && t.timestamp >= since
  }

  /** `findByVehicleIdAndTimestampAfter`: despite its name the bound is
      inclusive; the vehicle's readings at or after `since`, oldest first. */
  function ByVehicleIdSince(ts: seq<Telemetry>, vehicleId: string, since: int): (r: seq<Telemetry>)
    ensures forall x :: x in r <==> x in ts && x.vehicleId == vehicleId && x.timestamp >= since
    ensures multiset(r) == multiset(Filter(ts, OfVehicleSince(vehicleId, since)))
    ensures Ordered(r, false)
  {
    var mine := Filter(ts, OfVehicleSince(vehicleId, since));
    assert forall x :: x in ts && x.vehicleId == vehicleId && x.timestamp >= since ==> x in mine by {
      forall x | x in ts && x.vehicleId == vehicleId && x.timestamp >= since
        ensures x in mine
      {
        var i :| 0 <= i < |ts| && ts[i] == x;
      }
    }
    SortByTimestamp(mine, false)
  }

  function HasMaintenanceStatus(s: MaintenanceStatus): Telemetry -> bool
  {
    (t: Telemetry) => t.maintenanceStatus == Some(s)
  }

  function Unrated(): Telemetry -> bool
  {
    (t: Telemetry) => t.maintenanceStatus.None?
  }

  /** The readings with status `s` are as many as the positions holding one. */
  lemma MatchingCount(ts: seq<Telemetry>, s: MaintenanceStatus)
    ensures |Filter(ts, HasMaintenanceStatus(s))| == |set i | 0 <= i < |ts| && ts[i].maintenanceStatus == Some(s)|
  {
    FilterCount(ts, HasMaintenanceStatus(s));
    assert PositionsWhere(ts, HasMaintenanceStatus(s)) == set i | 0 <= i < |ts| && ts[i].maintenanceStatus == Some(s);
  }

  /** `countByMaintenanceStatus`. */
  function CountByMaintenanceStatus(ts: seq<Telemetry>, s: MaintenanceStatus): (n: nat)
    ensures n <= |ts|
    ensures n == 0 <==> forall t :: t in ts ==> t.maintenanceStatus != Some(s)
    ensures n == |set i | 0 <= i < |ts| && ts[i].maintenanceStatus == Some(s)|
  {
    var matching := Filter(ts, HasMaintenanceStatus(s));
    MatchingCount(ts, s);
    assert matching != [] ==> matching[0] in ts;
    assert forall t :: t in ts && t.maintenanceStatus == Some(s) ==> t in matching by {
      forall t | t in ts && t.maintenanceStatus == Some(s)
        ensures t in matching
      {
        var i :| 0 <= i < |ts| && ts[i] == t;
      }
    }
    |matching|
  }

  lemma FilterLengthStep<T>(s: seq<T>, p: T -> bool)
    requires s != []
    ensures |Filter(s, p)| == (if p(s[0]) then 1 else 0) + |Filter(s[1..], p)|
  {
  }

  /** Every reading has one of the three statuses or none. */
  lemma {:induction false} StatusesPartitionTable(ts: seq<Telemetry>)
    ensures |Filter(ts, HasMaintenanceStatus(HEALTHY))| + |Filter(ts, HasMaintenanceStatus(DUE))|
      + |Filter(ts, HasMaintenanceStatus(CRITICAL))| + |Filter(ts, Unrated())| == |ts|
  {
    if ts != [] {
      StatusesPartitionTable(ts[1..]);
      var rest := ts[1..];
      var h, d, c, u := HasMaintenanceStatus(HEALTHY), HasMaintenanceStatus(DUE), HasMaintenanceStatus(CRITICAL), Unrated();
      FilterLengthStep(ts, h);
      FilterLengthStep(ts, d);
      FilterLengthStep(ts, c);
      FilterLengthStep(ts, u);
      match ts[0].maintenanceStatus
      case None => assert u(ts[0]) && !h(ts[0]) && !d(ts[0]) && !c(ts[0]);
      case Some(HEALTHY) => assert !u(ts[0]) && h(ts[0]) && !d(ts[0]) && !c(ts[0]);
      case Some(DUE) => assert !u(ts[0]) && !h(ts[0]) && d(ts[0]) && !c(ts[0]);
      case Some(CRITICAL) => assert !u(ts[0]) && !h(ts[0]) && !d(ts[0]) && c(ts[0]);
    }
  }

  /** The three counts never exceed the table, and reach it exactly when
      every reading has a status: a reading without one is counted
      nowhere. */
  lemma CountsCoverTable(ts: seq<Telemetry>)
    ensures CountByMaintenanceStatus(ts, HEALTHY) + CountByMaintenanceStatus(ts, DUE)
      + CountByMaintenanceStatus(ts, CRITICAL) <= |ts|
    ensures (CountByMaintenanceStatus(ts, HEALTHY) + CountByMaintenanceStatus(ts, DUE)
      + CountByMaintenanceStatus(ts, CRITICAL) == |ts|) <==> forall t :: t in ts ==> t.maintenanceStatus.Some?
  {
    StatusesPartitionTable(ts);
    var unrated := Filter(ts, Unrated());
    assert unrated != [] ==> unrated[0] in ts;
    assert forall t :: t in ts && t.maintenanceStatus.None? ==> t in unrated by {
      forall t | t in ts && t.maintenanceStatus.None?
        ensures t in unrated
      {
        var i :| 0 <= i < |ts| && ts[i] == t;
      }
    }
  }
}
