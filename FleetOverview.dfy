/** The pure rules of the fleet overview screen
    (src/components/FleetOverview.tsx): the maintenance window of a vehicle,
    and its colour. The `activeVehicles` list is `Api.AvailableVehicles`. */
module FleetOverview {
  import opened Wrappers
  import opened LocalStore

  datatype MaintenanceWindow = Unknown | Overdue | DueSoon | Good

  function WindowName(w: MaintenanceWindow): string
  {
    match w
    case Unknown => "unknown"
    case Overdue => "overdue"
    case DueSoon => "due-soon"
    case Good => "good"
  }

  const DUE_SOON_DAYS: real := 7.0

  /** `getMaintenanceStatus`, on the fractional number of days until the
      next maintenance. */
  function MaintenanceStatus(next: Option<int>, now: int): (w: MaintenanceWindow)
    ensures w == Unknown <==> next.None?
    ensures w == Overdue <==> next.Some? && next.value < now
  {
    if next.None? then Unknown
    else
      var daysUntil := (next.value - now) as real / MS_PER_DAY as real;
      if daysUntil < 0.0 then Overdue
      else if daysUntil <= DUE_SOON_DAYS then DueSoon
      else Good
  }

  /** The same classification read on instants: overdue strictly before
      now, due soon from now up to and including seven days ahead, good
      beyond; the four outcomes are exclusive and cover every vehicle. */
  lemma MaintenanceStatusWindows(next: Option<int>, now: int)
    ensures MaintenanceStatus(next, now) == Unknown <==> next.None?
    ensures MaintenanceStatus(next, now) == Overdue <==> next.Some? && next.value < now
    ensures MaintenanceStatus(next, now) == DueSoon <==>
      (next.Some? && now <= next.value <= now + 7 * MS_PER_DAY)
    ensures MaintenanceStatus(next, now) == Good <==> next.Some? && next.value > now + 7 * MS_PER_DAY
  {
    if next.Some? {
      var diff := (next.value - now) as real;
      var d := MS_PER_DAY as real;
      var days := diff / d;
      assert days * d == diff;
      if diff <= 7.0 * d {
        assert days <= 7.0;
      }
      if days <= 7.0 {
        assert diff <= 7.0 * d;
      }
      if days < 0.0 {
        assert diff < 0.0;
      }
    }
  }

  /** Against the store's maintenance counts: overdue agrees exactly; every
      vehicle the store counts as upcoming is due soon or good here, and a
      vehicle due exactly now is due soon here but counted nowhere there. */
  lemma AgreesWithStoreCounts(v: Vehicle, now: int)
    ensures MaintenanceStatus(v.nextMaintenanceDate, now) == Overdue <==> IsOverdue(now)(v)
    ensures IsUpcoming(now)(v) ==> MaintenanceStatus(v.nextMaintenanceDate, now) in {DueSoon, Good}
    ensures v.nextMaintenanceDate == Some(now) ==>
      MaintenanceStatus(v.nextMaintenanceDate, now) == DueSoon && !IsUpcoming(now)(v) && !IsOverdue(now)(v)
  {
    MaintenanceStatusWindows(v.nextMaintenanceDate, now);
    UpcomingWindow(v, now);
  }

  const OVERDUE_COLOUR: string := "text-red-600"
  const DUE_SOON_COLOUR: string := "text-orange-600"
  const GOOD_COLOUR: string := "text-green-600"
  const UNKNOWN_COLOUR: string := "text-gray-600"

  /** `getMaintenanceColor`: one colour per named window, grey for any other
      name. */
  function MaintenanceColour(status: string): (c: string)
    ensures c == OVERDUE_COLOUR <==> status == "overdue"
    ensures c == DUE_SOON_COLOUR <==> status == "due-soon"
    ensures c == GOOD_COLOUR <==> status == "good"
    ensures c == UNKNOWN_COLOUR <==> status !in ["overdue", "due-soon", "good"]
  {
    match status
    case "overdue" => OVERDUE_COLOUR
    case "due-soon" => DUE_SOON_COLOUR
    case "good" => GOOD_COLOUR
    case _ => UNKNOWN_COLOUR
  }

  /** Only a vehicle without a next maintenance date is shown grey. */
  lemma GreyOnlyWhenUnknown(next: Option<int>, now: int)
    ensures MaintenanceColour(WindowName(MaintenanceStatus(next, now))) == UNKNOWN_COLOUR <==> next.None?
  {
  }
}
