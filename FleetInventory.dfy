/** The pure rules of the fleet inventory screen
    (src/components/FleetInventory.tsx): the search and filter predicate,
    the list of distinct vehicle types, the icon choice, and the mapping
    between a vehicle record and the edit form. */
module FleetInventory {
  import opened Wrappers
  import opened Seqs
  import opened Text
  import opened LocalStore
  import opened Api

  /** The search term occurs, ignoring case, in the registration number,
      the model or the type. */
  predicate SearchMatches(v: Vehicle, searchTerm: string)
  {
    var term := ToLower(searchTerm);
    Contains(ToLower(v.registrationNumber), term) || Contains(ToLower(v.model), term)
    || Contains(ToLower(v.vehicleType), term)
  }

  /** The predicate of `filteredVehicles`: the search matches, the status
      filter is 'ALL' or the status's name, and the type filter is 'ALL' or
      the type itself (compared exactly). */
  predicate ShowVehicle(v: Vehicle, searchTerm: string, statusFilter: string, typeFilter: string)
  {
    && SearchMatches(v, searchTerm)
    && (statusFilter == "ALL" || StatusName(v.status) == statusFilter)
    && (typeFilter == "ALL" || v.vehicleType == typeFilter)
  }

  function Shown(searchTerm: string, statusFilter: string, typeFilter: string): Vehicle -> bool
  {
    (v: Vehicle) => ShowVehicle(v, searchTerm, statusFilter, typeFilter)
  }

  /** `filteredVehicles`: exactly the vehicles the predicate admits, in
      their original order. */
  function FilteredVehicles(vs: seq<Vehicle>, searchTerm: string, statusFilter: string, typeFilter: string)
    : (r: seq<Vehicle>)
    ensures forall i :: 0 <= i < |r| ==> r[i] in vs && ShowVehicle(r[i], searchTerm, statusFilter, typeFilter)
    ensures forall i :: 0 <= i < |vs| && ShowVehicle(vs[i], searchTerm, statusFilter, typeFilter) ==> vs[i] in r
    ensures IsSubsequence(r, vs)
    ensures forall x :: x in vs ==>
      multiset(r)[x] == if ShowVehicle(x, searchTerm, statusFilter, typeFilter) then multiset(vs)[x] else 0
  {
    FilterMultiplicity(vs, Shown(searchTerm, statusFilter, typeFilter));
    Filter(vs, Shown(searchTerm, statusFilter, typeFilter))
  }

  /** The empty search term occurs in every string. */
  lemma EmptyTermMatches(v: Vehicle)
    ensures SearchMatches(v, "")
  {
    assert ToLower("") == "";
    assert ToLower(v.registrationNumber) != [] ==> Contains(ToLower(v.registrationNumber), "");
  }

  /** With an empty search and both filters on 'ALL' the whole list is
      shown. */
  lemma {:induction false} UnfilteredShowsAll(vs: seq<Vehicle>)
    ensures FilteredVehicles(vs, "", "ALL", "ALL") == vs
  {
    forall v | v in vs
      ensures Shown("", "ALL", "ALL")(v)
    {
      EmptyTermMatches(v);
    }
    FilterKeepsAll(vs, Shown("", "ALL", "ALL"));
  }

  /** Picking a type keeps only vehicles of exactly that type, and every
      vehicle of that type is kept when nothing else filters. */
  lemma {:induction false} TypeFilterSelectsType(vs: seq<Vehicle>, t: string)
    requires t != "ALL"
    ensures forall i :: 0 <= i < |FilteredVehicles(vs, "", "ALL", t)| ==> FilteredVehicles(vs, "", "ALL", t)[i].vehicleType == t
    ensures forall i :: 0 <= i < |vs| && vs[i].vehicleType == t ==> vs[i] in FilteredVehicles(vs, "", "ALL", t)
  {
    forall i | 0 <= i < |vs| && vs[i].vehicleType == t
      ensures ShowVehicle(vs[i], "", "ALL", t)
    {
      EmptyTermMatches(vs[i]);
    }
  }

  function Types(vs: seq<Vehicle>): (ts: seq<string>)
    ensures |ts| == |vs| && forall i :: 0 <= i < |vs| ==> ts[i] == vs[i].vehicleType
  {
    seq(|vs|, i requires 0 <= i < |vs| => vs[i].vehicleType)
  }

  /** `vehicleTypes`: every type that occurs, each exactly once, in order of
      first occurrence. */
  function VehicleTypes(vs: seq<Vehicle>): (r: seq<string>)
    ensures forall i :: 0 <= i < |vs| ==> vs[i].vehicleType in r
    ensures forall k :: 0 <= k < |r| ==> exists i :: 0 <= i < |vs| && vs[i].vehicleType == r[k]
    ensures forall k, l :: 0 <= k < l < |r| ==> r[k] != r[l]
    ensures forall k, l :: 0 <= k < l < |r| ==> IndexOf(Types(vs), r[k]) < IndexOf(Types(vs), r[l])
  {
    var ts := Types(vs);
    DistinctKeepsFirstOccurrenceOrder(ts);
    assert forall i :: 0 <= i < |vs| ==> vs[i].vehicleType == ts[i];
    Distinct(ts)
  }

  datatype VehicleIcon = TruckIcon | CarIcon

  const TRUCK: string := "truck"

  /** `getVehicleIcon`: the truck icon exactly when "truck" occurs
      somewhere in the lower-cased type. */
  function IconFor(vehicleType: string): (icon: VehicleIcon)
    ensures icon == TruckIcon <==> exists i :: OccursAt(ToLower(vehicleType), TRUCK, i)
    ensures icon == TruckIcon ==> |vehicleType| >= |TRUCK|
  {
    var lower := ToLower(vehicleType);
    ContainsAt(lower, TRUCK);
    if Contains(lower, TRUCK) then
      assert exists i :: OccursAt(ToLower(vehicleType), TRUCK, i) by {
        var i :| OccursAt(lower, TRUCK, i);
        assert OccursAt(ToLower(vehicleType), TRUCK, i);
      }
      TruckIcon
    else
      CarIcon
  }

  /** The seeded upper-case type "TRUCK" gets the truck icon, "VAN" the car. */
  lemma SeedIcons()
    ensures IconFor("TRUCK") == TruckIcon
    ensures IconFor("VAN") == CarIcon
  {
    var lower := ToLower("TRUCK");
    assert lower == "truck" by {
      assert |lower| == 5;
      forall i | 0 <= i < 5
        ensures lower[i] == "truck"[i]
      {
        assert lower[i] == LowerChar("TRUCK"[i]);
      }
    }
    assert OccursAt(lower, TRUCK, 0);
    assert |ToLower("VAN")| == 3;
  }

  /** The inventory form. Numeric fields hold the number their text
      denotes; a date field is `None` when its text is empty. */
  datatype VehicleForm = VehicleForm(
    registrationNumber: string,
    vehicleType: string,
    model: string,
    capacity: real,
    currentLocationLat: real,
    currentLocationLng: real,
    fuelLevel: real,
    mileage: real,
    lastMaintenanceDate: Option<int>,
    nextMaintenanceDate: Option<int>,
    status: Status,
    assignedDriverId: string)

  /** `handleEdit`: fill the form from a record. A missing coordinate shows
      the base coordinate, a missing driver the empty string. */
  function EditForm(v: Vehicle): (f: VehicleForm)
    ensures f.currentLocationLat == (if v.currentLocationLat.Some? then v.currentLocationLat.value else DEFAULT_LAT)
    ensures f.currentLocationLng == (if v.currentLocationLng.Some? then v.currentLocationLng.value else DEFAULT_LNG)
    ensures f.assignedDriverId == (if v.assignedDriverId.Some? then v.assignedDriverId.value else "")
    ensures f.lastMaintenanceDate == v.lastMaintenanceDate && f.nextMaintenanceDate == v.nextMaintenanceDate
  {
    VehicleForm(
      v.registrationNumber, v.vehicleType, v.model, v.capacity,
      if v.currentLocationLat.Some? then v.currentLocationLat.value else DEFAULT_LAT,
      if v.currentLocationLng.Some? then v.currentLocationLng.value else DEFAULT_LNG,
      v.fuelLevel, v.mileage,
      v.lastMaintenanceDate, v.nextMaintenanceDate,
      v.status,
      if v.assignedDriverId.Some? && v.assignedDriverId.value != "" then v.assignedDriverId.value else "")
  }

  /** `formData.assignedDriverId || undefined`. */
  function DriverOf(f: VehicleForm): (d: Option<string>)
    ensures d.None? <==> f.assignedDriverId == ""
    ensures d.Some? ==> d.value == f.assignedDriverId
  {
    if f.assignedDriverId == "" then None else Some(f.assignedDriverId)
  }

  /** The body `handleSubmit` sends when editing: every form property is
      present, so an empty driver clears the assignment. */
  function SubmitPatch(f: VehicleForm): (p: VehiclePatch)
    ensures p.id.Keep? && p.createdAt.Keep? && p.updatedAt.Keep?
    ensures p.registrationNumber == Put(f.registrationNumber) && p.vehicleType == Put(f.vehicleType)
    ensures p.model == Put(f.model) && p.status == Put(f.status) && p.capacity == Put(f.capacity)
    ensures p.assignedDriverId == Put(DriverOf(f))
    ensures p.currentLocationLat == Put(Some(f.currentLocationLat)) && p.currentLocationLng == Put(Some(f.currentLocationLng))
    ensures p.fuelLevel == Put(f.fuelLevel) && p.mileage == Put(f.mileage)
    ensures p.lastMaintenanceDate == Put(f.lastMaintenanceDate) && p.nextMaintenanceDate == Put(f.nextMaintenanceDate)
  {
    VehiclePatch(Keep, Put(f.registrationNumber), Put(f.vehicleType), Put(f.model), Put(f.status),
                 Put(DriverOf(f)), Put(Some(f.currentLocationLat)), Put(Some(f.currentLocationLng)),
                 Put(f.fuelLevel), Put(f.mileage), Put(f.lastMaintenanceDate), Put(f.nextMaintenanceDate),
                 Put(f.capacity), Keep, Keep)
  }

  /** The body `handleSubmit` sends when creating. */
  function SubmitInput(f: VehicleForm): (b: VehicleInput)
    ensures b.registrationNumber == f.registrationNumber && b.vehicleType == f.vehicleType && b.model == f.model
    ensures b.status == Some(f.status) && b.assignedDriverId == DriverOf(f)
    ensures b.currentLocationLat == Some(f.currentLocationLat) && b.currentLocationLng == Some(f.currentLocationLng)
    ensures b.fuelLevel == Some(f.fuelLevel) && b.mileage == Some(f.mileage) && b.capacity == f.capacity
    ensures b.lastMaintenanceDate == f.lastMaintenanceDate && b.nextMaintenanceDate == f.nextMaintenanceDate
  {
    VehicleInput(f.registrationNumber, f.vehicleType, f.model, Some(f.status), DriverOf(f),
                 Some(f.currentLocationLat), Some(f.currentLocationLng), Some(f.fuelLevel), Some(f.mileage),
                 f.lastMaintenanceDate, f.nextMaintenanceDate, f.capacity)
  }

  /** Opening a record in the form and saving it unchanged only refreshes
      `updatedAt`, except that a missing coordinate is saved as the base
      coordinate and an empty driver id is saved as no driver. */
  lemma EditSaveRoundTrip(v: Vehicle, now: int)
    ensures Merge(v, SubmitPatch(EditForm(v)), now) == v.(
      currentLocationLat := Some(v.currentLocationLat.GetOr(DEFAULT_LAT)),
      currentLocationLng := Some(v.currentLocationLng.GetOr(DEFAULT_LNG)),
      assignedDriverId := if v.assignedDriverId == Some("") then None else v.assignedDriverId,
      updatedAt := now)
    ensures v.currentLocationLat.Some? && v.currentLocationLng.Some? && v.assignedDriverId != Some("") ==>
      Merge(v, SubmitPatch(EditForm(v)), now) == v.(updatedAt := now)
  {
  }

  /** Submitting a form as a new vehicle keeps every value the form shows,
      except that the store layer turns a zero fuel level or zero
      coordinate into its default. */
  lemma CreateFromForm(f: VehicleForm)
    ensures NewVehicleFrom(SubmitInput(f)).status == f.status
    ensures f.fuelLevel != 0.0 ==> NewVehicleFrom(SubmitInput(f)).fuelLevel == f.fuelLevel
    ensures f.fuelLevel == 0.0 ==> NewVehicleFrom(SubmitInput(f)).fuelLevel == DEFAULT_FUEL
    ensures NewVehicleFrom(SubmitInput(f)).mileage == f.mileage
    ensures NewVehicleFrom(SubmitInput(f)).assignedDriverId == DriverOf(f)
  {
  }

  /** `resetForm` and the initial form state. */
  const EmptyForm: VehicleForm := VehicleForm("", "", "", 0.0, DEFAULT_LAT, DEFAULT_LNG, 100.0, 0.0, None, None, ACTIVE, "")
}
